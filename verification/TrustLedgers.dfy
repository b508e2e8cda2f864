/** Anti-thrash trust-class transitions, kept per dependency key and probe identity. */
module TrustLedgers {
  import opened Primitives
  import opened Wrappers
  import opened TrustClasses

  /** How often running a higher class must be seen to be adopted. */
  const ESCALATION_THRESHOLD: nat := 2

  datatype Transition =
    | Unchanged(adopted: TrustClass)
    | EscalationPending(proposed: TrustClass, observations: nat, adopted: TrustClass)
    | Escalated(from: TrustClass, to: TrustClass)
    | Demoted(from: TrustClass, to: TrustClass)
  {
    /** The class in force once the transition is over. */
    function InForce(): TrustClass {
      match this
      case Unchanged(adopted) => adopted
      case EscalationPending(_, _, adopted) => adopted
      case Escalated(_, to) => to
      case Demoted(_, to) => to
    }
  }

  datatype Pending = Pending(proposed: TrustClass, count: nat, firstSeen: Instant)

  datatype Entry = Entry(adopted: TrustClass, pending: Option<Pending>)

  /** A dependency key and the probe identity answering for it. */
  datatype Pair = Pair(key: string, identity: string)

  datatype LedgerState = LedgerState(entries: map<Pair, Entry>, lastProbe: map<string, string>) {

    function EntryFor(pair: Pair, recorded: TrustClass): Entry {
      if pair in entries then entries[pair] else Entry(recorded, None)
    }

    function Note(key: string, identity: string): LedgerState {
      this.(lastProbe := lastProbe[key := identity])
    }
  }

  /** How one observation moves one pair's entry. */
  function FoldOne(e: Entry, observed: TrustClass, at: Instant): (Entry, Transition) {
    if observed == e.adopted then (Entry(e.adopted, None), Unchanged(e.adopted))
    else if observed.IsDemotionFrom(e.adopted) then (Entry(observed, None), Demoted(e.adopted, observed))
    else
      var continues := e.pending.Some? && e.pending.value.proposed == observed;
      var count := if continues then (if e.pending.value.count < 255 then e.pending.value.count + 1 else 255) else 1;
      if count >= ESCALATION_THRESHOLD then (Entry(observed, None), Escalated(e.adopted, observed))
      else (Entry(e.adopted, Some(Pending(observed, count, if continues then e.pending.value.firstSeen else at))),
            EscalationPending(observed, count, e.adopted))
  }

  function Observed(s: LedgerState, pair: Pair, recorded: TrustClass, observed: TrustClass, at: Instant): (LedgerState,
    Transition) {
    var (entry, transition) := FoldOne(s.EntryFor(pair, recorded), observed, at);
    (s.Note(pair.key, pair.identity).(entries := s.entries[pair := entry]), transition)
  }

  class TrustLedger {
    var entries: map<Pair, Entry>
    var lastProbe: map<string, string>

    function State(): LedgerState
      reads this
    {
      LedgerState(entries, lastProbe)
    }

    constructor ()
      ensures State() == LedgerState(map[], map[])
    {
      entries := map[];
      lastProbe := map[];
    }

    function LastProbeFor(key: string): Option<string>
      reads this
    {
      if key in lastProbe then Some(lastProbe[key]) else None
    }

    function Adopted(key: string, identity: string): Option<TrustClass>
      reads this
    {
      if Pair(key, identity) in entries then Some(entries[Pair(key, identity)].adopted) else None
    }

    method NoteProbe(key: string, identity: string)
      modifies this
      ensures State() == old(State()).Note(key, identity)
    {
      lastProbe := lastProbe[key := identity];
    }

    /** Book one match. A pair not seen before starts from the recorded class. */
    method Observe(key: string, identity: string, recorded: TrustClass, observed: TrustClass, at: Instant)
      returns (transition: Transition)
      modifies this
      ensures (State(), transition) == Observed(old(State()), Pair(key, identity), recorded, observed, at)
      ensures Adopted(key, identity) == Some(transition.InForce())
    {
      NoteProbe(key, identity);
      var pair := Pair(key, identity);
      var entry := if pair in entries then entries[pair] else Entry(recorded, None);
      var adopted := entry.adopted;
      if observed == adopted {
        entries := entries[pair := entry.(pending := None)];
        return Unchanged(adopted);
      }
      if observed.IsDemotionFrom(adopted) {
        entries := entries[pair := Entry(observed, None)];
        return Demoted(adopted, observed);
      }
      var count := 1;
      if entry.pending.Some? && entry.pending.value.proposed == observed {
        count := if entry.pending.value.count < 255 then entry.pending.value.count + 1 else 255;
      }
      if count >= ESCALATION_THRESHOLD {
        entries := entries[pair := Entry(observed, None)];
        transition := Escalated(adopted, observed);
      } else {
        var firstSeen := at;
        if entry.pending.Some? && entry.pending.value.proposed == observed {
          firstSeen := entry.pending.value.firstSeen;
        }
        entries := entries[pair := entry.(pending := Some(Pending(observed, count, firstSeen)))];
        transition := EscalationPending(observed, count, adopted);
      }
    }
  }

  // -------------------------------------------------------- whole runs

  datatype Call =
    | ObserveCall(pair: Pair, recorded: TrustClass, observed: TrustClass, at: Instant)
    | NoteCall(pair: Pair)

  function Apply(s: LedgerState, c: Call): LedgerState {
    match c
    case ObserveCall(pair, recorded, observed, at) => Observed(s, pair, recorded, observed, at).0
    case NoteCall(pair) => s.Note(pair.key, pair.identity)
  }

  function Run(s: LedgerState, calls: seq<Call>): LedgerState {
    if calls == [] then s else Apply(Run(s, calls[..|calls| - 1]), calls[|calls| - 1])
  }

  /** The observations of one pair among some calls, in order. */
  function HistoryOf(calls: seq<Call>, pair: Pair): seq<Call> {
    if calls == [] then []
    else
      var last := calls[|calls| - 1];
      HistoryOf(calls[..|calls| - 1], pair) + if last.ObserveCall? && last.pair == pair then [last] else []
  }

  /** One pair's entry after its first `n` observations, from a fresh ledger. The recorded
      class of its first observation seeds it. */
  function EntryAfter(history: seq<Call>, n: nat): Entry
    requires n <= |history| && 0 < |history| && forall i :: 0 <= i < |history| ==> history[i].ObserveCall?
  {
    if n == 0 then Entry(history[0].recorded, None)
    else FoldOne(EntryAfter(history, n - 1), history[n - 1].observed, history[n - 1].at).0
  }

  lemma {:induction false} HistoryIsObservations(calls: seq<Call>, pair: Pair)
    ensures forall i :: 0 <= i < |HistoryOf(calls, pair)| ==> HistoryOf(calls, pair)[i].ObserveCall?
    ensures |HistoryOf(calls, pair)| <= |calls|
  {
    if calls != [] {
      HistoryIsObservations(calls[..|calls| - 1], pair);
    }
  }

  lemma {:induction false} EntryAfterPrefix(short: seq<Call>, long: seq<Call>, n: nat)
    requires short <= long && n <= |short| && 0 < |short|
    requires forall i :: 0 <= i < |long| ==> long[i].ObserveCall?
    ensures EntryAfter(short, n) == EntryAfter(long, n)
  {
    if n > 0 {
      EntryAfterPrefix(short, long, n - 1);
    }
  }

  /** For any interleaving of calls, what the ledger holds for a pair is a function of that
      pair's own observations. */
  lemma {:induction false} PairsAreIndependent(calls: seq<Call>, pair: Pair)
    ensures var s, h := Run(LedgerState(map[], map[]), calls), HistoryOf(calls, pair);
            && (forall i :: 0 <= i < |h| ==> h[i].ObserveCall?)
            && (pair in s.entries <==> h != [])
            && (h != [] ==> s.entries[pair] == EntryAfter(h, |h|))
  {
    HistoryIsObservations(calls, pair);
    if calls != [] {
      var init, last := calls[..|calls| - 1], calls[|calls| - 1];
      PairsAreIndependent(init, pair);
      var h, h' := HistoryOf(init, pair), HistoryOf(calls, pair);
      if last.ObserveCall? && last.pair == pair {
        assert h' == h + [last];
        if h != [] {
          EntryAfterPrefix(h, h', |h|);
        }
        assert EntryAfter(h', |h'|) == FoldOne(EntryAfter(h', |h|), last.observed, last.at).0;
      } else {
        assert h' == h;
      }
    }
  }

  /** The last probe for a key is the one named by the latest call about that key. */
  lemma {:induction false} LastProbeIsLatest(calls: seq<Call>, key: string)
    ensures var s := Run(LedgerState(map[], map[]), calls);
            && (key in s.lastProbe <==> exists i :: 0 <= i < |calls| && calls[i].pair.key == key)
            && (forall i :: 0 <= i < |calls| && calls[i].pair.key == key
                            && (forall j :: i < j < |calls| ==> calls[j].pair.key != key)
                            ==> key in s.lastProbe && s.lastProbe[key] == calls[i].pair.identity)
  {
    if calls != [] {
      var init := calls[..|calls| - 1];
      LastProbeIsLatest(init, key);
      assert forall i :: 0 <= i < |init| ==> init[i] == calls[i];
      var last := calls[|init|];
      assert Run(LedgerState(map[], map[]), calls) == Apply(Run(LedgerState(map[], map[]), init), last);
    }
  }

  // ---------------------------------------- one pair's observed classes

  /** The adopted class after `n` observations, read off the observations alone: a lower
      class is adopted at once, a higher one when it is observed twice running. */
  function AdoptedAfter(seed: TrustClass, observed: seq<TrustClass>, n: nat): TrustClass
    requires n <= |observed|
  {
    if n == 0 then seed
    else
      var before := AdoptedAfter(seed, observed, n - 1);
      var now := observed[n - 1];
      if now.IsDemotionFrom(before) then now
      else if now.IsEscalationOver(before) && n >= 2 && observed[n - 2] == now then now
      else before
  }

  function ObservedClasses(history: seq<Call>): (cs: seq<TrustClass>)
    requires forall i :: 0 <= i < |history| ==> history[i].ObserveCall?
    ensures |cs| == |history|
  {
    seq(|history|, i requires 0 <= i < |history| => history[i].observed)
  }

  /** A stored pending count is always 1, its class was the last one observed, and it
      outranks the adopted class; and pending is exactly what that means. */
  ghost predicate EntryExplained(e: Entry, seed: TrustClass, observed: seq<TrustClass>, n: nat)
    requires n <= |observed|
  {
    && e.adopted == AdoptedAfter(seed, observed, n)
    && (e.pending.Some? <==> n > 0 && observed[n - 1].IsEscalationOver(e.adopted))
    && (e.pending.Some? ==> e.pending.value.count == 1 && e.pending.value.proposed == observed[n - 1])
  }

  lemma FoldExplained(e: Entry, seed: TrustClass, observed: seq<TrustClass>, n: nat, at: Instant)
    requires n < |observed| && EntryExplained(e, seed, observed, n)
    ensures EntryExplained(FoldOne(e, observed[n], at).0, seed, observed, n + 1)
    ensures FoldOne(e, observed[n], at).1.Escalated? <==>
              n > 0 && observed[n - 1] == observed[n] && observed[n].IsEscalationOver(e.adopted)
    ensures FoldOne(e, observed[n], at).1.Demoted? <==> observed[n].IsDemotionFrom(e.adopted)
  {
    RankSeparates(observed[n], e.adopted);
  }

  /** What one observation announces and leaves behind, from an entry a run can reach: nothing for
      the class in force; a demotion, at once, for a weaker one; for a stronger one an escalation
      if it was proposed just before, and otherwise a proposal dated to this observation. */
  lemma TransitionMeaning(e: Entry, observed: TrustClass, at: Instant)
    requires e.pending.Some? ==> e.pending.value.count == 1
    ensures var (after, t) := FoldOne(e, observed, at);
            var proposed := e.pending.Some? && e.pending.value.proposed == observed;
            && (observed == e.adopted ==> t == Unchanged(observed) && after == Entry(observed, None))
            && (Weaker(observed, e.adopted) ==> t == Demoted(e.adopted, observed) && after == Entry(observed, None))
            && (Weaker(e.adopted, observed) && proposed ==>
                  t == Escalated(e.adopted, observed) && after == Entry(observed, None))
            && (Weaker(e.adopted, observed) && !proposed ==>
                  && t == EscalationPending(observed, 1, e.adopted)
                  && after == Entry(e.adopted, Some(Pending(observed, 1, at))))
  {
    WeakerMeaning(observed, e.adopted);
  }

  /** The ledger adopts what the observations alone determine, and what it announces at
      each step is exactly what happened: an escalation when the last two observations both
      reported one higher class, a demotion when a lower class was observed. */
  lemma {:induction false} LedgerFollowsObservations(history: seq<Call>, n: nat)
    requires n <= |history| && 0 < |history| && forall i :: 0 <= i < |history| ==> history[i].ObserveCall?
    ensures var observed, seed := ObservedClasses(history), history[0].recorded;
            && EntryExplained(EntryAfter(history, n), seed, observed, n)
            && (n < |history| ==>
                  var adopted := EntryAfter(history, n).adopted;
                  var transition := FoldOne(EntryAfter(history, n), history[n].observed, history[n].at).1;
                  && (transition.Escalated? <==>
                      n > 0 && observed[n - 1] == observed[n] && observed[n].IsEscalationOver(adopted))
                  && (transition.Demoted? <==> observed[n].IsDemotionFrom(adopted)))
  {
    var observed := ObservedClasses(history);
    if n > 0 {
      LedgerFollowsObservations(history, n - 1);
      FoldExplained(EntryAfter(history, n - 1), history[0].recorded, observed, n - 1, history[n - 1].at);
    }
    if n < |history| {
      FoldExplained(EntryAfter(history, n), history[0].recorded, observed, n, history[n].at);
    }
  }

  function Escalations(seed: TrustClass, observed: seq<TrustClass>, n: nat): nat
    requires n <= |observed|
  {
    if n == 0 then 0
    else Escalations(seed, observed, n - 1)
         + if AdoptedAfter(seed, observed, n).IsEscalationOver(AdoptedAfter(seed, observed, n - 1)) then 1 else 0
  }

  function Demotions(seed: TrustClass, observed: seq<TrustClass>, n: nat): nat
    requires n <= |observed|
  {
    if n == 0 then 0
    else Demotions(seed, observed, n - 1)
         + if AdoptedAfter(seed, observed, n).IsDemotionFrom(AdoptedAfter(seed, observed, n - 1)) then 1 else 0
  }

  /** How much a source can make the adopted class move: each escalation consumes two
      observations and each demotion one, and a pair climbs at most three classes plus three
      for every demotion it suffered. */
  lemma {:induction false} AdoptionIsDamped(seed: TrustClass, observed: seq<TrustClass>, n: nat)
    requires n <= |observed|
    ensures 2 * Escalations(seed, observed, n) + Demotions(seed, observed, n) <= n
    ensures Escalations(seed, observed, n) <= 3 + 3 * Demotions(seed, observed, n)
  {
    DampedSharply(seed, observed, n);
  }

  lemma {:induction false} DampedSharply(seed: TrustClass, observed: seq<TrustClass>, n: nat)
    requires n <= |observed|
    ensures 2 * Escalations(seed, observed, n) + Demotions(seed, observed, n)
            + (if n > 0 && observed[n - 1].IsEscalationOver(AdoptedAfter(seed, observed, n)) then 1 else 0) <= n
    ensures Escalations(seed, observed, n) + seed.Rank()
            <= AdoptedAfter(seed, observed, n).Rank() + 3 * Demotions(seed, observed, n)
  {
    if n > 0 {
      DampedSharply(seed, observed, n - 1);
    }
  }
}

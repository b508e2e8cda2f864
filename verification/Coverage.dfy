/** Manifests and what follows from them: who emits which kinds, which manifest is in force,
    and which observed effects nobody covers. */
module Coverage {
  import opened Wrappers
  import opened Ir

  datatype ProducerRole = Adapter | Observer | Probe

  /** Whether partial coverage sees too much, too little, or nothing in some scope. */
  datatype PartialReason = OverApproximates | UnderApproximates | BlindInScope {
    predicate Discharges() {
      OverApproximates?
    }
  }

  /** One admission: the direction decides, the note only explains. */
  datatype PartialCoverage = PartialCoverage(reason: PartialReason, note: string) {
    predicate Discharges() {
      reason.Discharges()
    }
  }

  /** Does a declared pattern such as `fs.*` or `fs.read` match an event kind? */
  predicate PatternMatches(pattern: string, kind: EventKind) {
    var wire := kind.Wire();
    if |pattern| >= 2 && pattern[|pattern| - 2..] == ".*" then
      var prefix := pattern[..|pattern| - 2];
      prefix <= wire && |wire| > |prefix| && wire[|prefix|] == '.'
    else
      pattern == wire
  }

  datatype CoverageEntry = CoverageEntry(
    producer: string,
    version: string,
    role: ProducerRole,
    emits: seq<string>,
    partials: map<string, PartialCoverage>)
  {
    /** Purely syntactic: some declared pattern matches. */
    predicate Covers(kind: EventKind) {
      exists i :: 0 <= i < |emits| && PatternMatches(emits[i], kind)
    }

    /** Declared, and no admission that reaches the kind is an unsafe one. */
    predicate Discharges(kind: EventKind) {
      && Covers(kind)
      && forall pattern :: pattern in partials && (pattern == kind.Wire() || PatternMatches(pattern, kind))
                           ==> partials[pattern].Discharges()
    }

    predicate DischargesSubprocessObligation() {
      role.Observer? && Discharges(FsRead)
    }
  }

  /** A manifest keeps the same facts as the coverage entry made from it. */
  type CoverageManifest = CoverageEntry

  datatype ProducerKey = ProducerKey(producer: string, version: string)

  function KeyOfEvent(e: IrEvent): ProducerKey {
    ProducerKey(e.producer, e.producerVersion)
  }

  function KeyOfManifest(m: CoverageManifest): ProducerKey {
    ProducerKey(m.producer, m.version)
  }

  datatype CoverageLookup = CoverageLookup(entries: set<CoverageEntry>, unregistered: set<ProducerKey>)

  type Manifests = map<ProducerKey, CoverageManifest>

  /** Every manifest is filed under the key it declares. */
  predicate FiledByKey(manifests: Manifests) {
    forall k :: k in manifests ==> KeyOfManifest(manifests[k]) == k
  }

  /** The manifests of the given producers, and the producers without one. */
  function LookupOf(manifests: Manifests, keys: set<ProducerKey>): CoverageLookup {
    CoverageLookup(set k | k in keys && k in manifests :: manifests[k],
                   set k | k in keys && k !in manifests)
  }

  /** Who contributed an event to the computation. */
  function ProducersOf(events: seq<IrEvent>, computation: string): set<ProducerKey> {
    set e | e in events && e.computationId == Some(computation) :: KeyOfEvent(e)
  }

  /** Append-only registry of producer manifests, last registration winning. */
  class CoverageRegistry {
    var manifests: Manifests

    ghost predicate Valid()
      reads this
    {
      FiledByKey(manifests)
    }

    constructor ()
      ensures Valid() && manifests == map[]
    {
      manifests := map[];
    }

    method RegisterAt(manifest: CoverageManifest)
      requires Valid()
      modifies this
      ensures Valid()
      ensures manifests == old(manifests)[KeyOfManifest(manifest) := manifest]
    {
      manifests := manifests[KeyOfManifest(manifest) := manifest];
    }

    method Lookup(keys: set<ProducerKey>) returns (lookup: CoverageLookup)
      ensures lookup == LookupOf(manifests, keys)
    {
      lookup := CoverageLookup({}, {});
      var observed := keys;
      while observed != {}
        invariant observed <= keys
        invariant lookup == LookupOf(manifests, keys - observed)
        decreases observed
      {
        var key :| key in observed;
        observed := observed - {key};
        assert keys - observed == (keys - (observed + {key})) + {key};
        if key in manifests {
          lookup := lookup.(entries := lookup.entries + {manifests[key]});
        } else {
          lookup := lookup.(unregistered := lookup.unregistered + {key});
        }
      }
      assert keys - observed == keys;
    }

    method CoverageForComputation(events: seq<IrEvent>, computation: string) returns (lookup: CoverageLookup)
      ensures lookup == LookupOf(manifests, ProducersOf(events, computation))
    {
      lookup := Lookup(ProducersOf(events, computation));
    }
  }

  /** Every producer that emitted is either declared by an entry or listed as
      unregistered: a lookup loses no producer and invents none. */
  lemma LookupAccountsForEveryProducer(manifests: Manifests, keys: set<ProducerKey>)
    requires FiledByKey(manifests)
    ensures var l := LookupOf(manifests, keys);
            && (forall k :: k in keys ==> k in l.unregistered || exists c :: c in l.entries && KeyOfManifest(c) == k)
            && (forall c :: c in l.entries ==> KeyOfManifest(c) in keys && KeyOfManifest(c) !in l.unregistered)
            && (l.unregistered == {} <==> keys <= manifests.Keys)
  {
    var l := LookupOf(manifests, keys);
    forall k | k in keys && k !in l.unregistered ensures exists c :: c in l.entries && KeyOfManifest(c) == k {
      assert manifests[k] in l.entries;
    }
    assert forall k :: k in keys && k !in manifests ==> k in l.unregistered;
  }

  /** Where the registrations of a run leave the registry. */
  function Registered(manifests: Manifests, run: seq<CoverageManifest>): Manifests {
    if run == [] then manifests
    else
      var last := run[|run| - 1];
      Registered(manifests, run[..|run| - 1])[KeyOfManifest(last) := last]
  }

  /** Over any run of registrations the latest manifest of each producer version is in
      force and nothing else is. */
  lemma {:induction false} LastRegistrationWins(run: seq<CoverageManifest>, key: ProducerKey)
    ensures FiledByKey(Registered(map[], run))
    ensures key in Registered(map[], run) <==> exists i :: 0 <= i < |run| && KeyOfManifest(run[i]) == key
    ensures forall i :: 0 <= i < |run| && KeyOfManifest(run[i]) == key
                        && (forall j :: i < j < |run| ==> KeyOfManifest(run[j]) != key)
                        ==> key in Registered(map[], run) && Registered(map[], run)[key] == run[i]
  {
    if run != [] {
      var init := run[..|run| - 1];
      LastRegistrationWins(init, key);
      assert forall i :: 0 <= i < |init| ==> init[i] == run[i];
      assert KeyOfManifest(run[|run| - 1]) == key || forall i :: 0 <= i < |run| && KeyOfManifest(run[i]) == key ==>
             i < |init|;
    }
  }

  // ------------------------------------------------- coverage deficit

  predicate IsEffectKind(kind: EventKind) {
    kind in [FsRead, FsWrite, FsStat, FsRename, FsUnlink, FsDirlist, ProcSpawn, ProcExit, NetConnect, NetFetch]
  }

  lemma FamilyPrefix(family: string, wire: string)
    ensures family <= wire && |wire| > |family| && wire[|family|] == '.' <==> family + "." <= wire
  {
    var dotted := family + ".";
    if family <= wire && |wire| > |family| && wire[|family|] == '.' {
      assert wire[..|family| + 1] == dotted;
    }
    if dotted <= wire {
      assert wire[..|family|] == dotted[..|family|] == family;
      assert wire[|family|] == dotted[|family|];
    }
  }

  lemma FamilyPattern(family: string, kind: EventKind)
    ensures PatternMatches(family + ".*", kind) <==> family + "." <= kind.Wire()
  {
    hide EventKind.Wire;
    var pattern := family + ".*";
    assert pattern[|pattern| - 2..] == ".*" && pattern[..|pattern| - 2] == family;
    FamilyPrefix(family, kind.Wire());
  }

  lemma TwoLetterFamily(a: char, b: char, wire: string)
    ensures [a, b] + "." <= wire <==> |wire| > 2 && wire[0] == a && wire[1] == b && wire[2] == '.'
  {
    var dotted := [a, b] + ".";
    assert dotted <= wire ==> wire[0] == dotted[0] && wire[1] == dotted[1] && wire[2] == dotted[2];
  }

  lemma ThreeLetterFamily(a: char, b: char, c: char, wire: string)
    ensures [a, b, c] + "." <= wire <==> |wire| > 3 && wire[0] == a && wire[1] == b && wire[2] == c && wire[3] == '.'
  {
    var dotted := [a, b, c] + ".";
    assert dotted <= wire ==>
           wire[0] == dotted[0] && wire[1] == dotted[1] && wire[2] == dotted[2] && wire[3] == dotted[3];
  }

  lemma FourLetterFamily(a: char, b: char, c: char, d: char, wire: string)
    ensures [a, b, c, d] + "." <= wire <==>
            |wire| > 4 && wire[0] == a && wire[1] == b && wire[2] == c && wire[3] == d && wire[4] == '.'
  {
    var dotted := [a, b, c, d] + ".";
    assert dotted <= wire ==>
      wire[0] == dotted[0] && wire[1] == dotted[1] && wire[2] == dotted[2] && wire[3] == dotted[3]
        && wire[4] == dotted[4];
  }

  /** The effect kinds are exactly the `fs.`, `proc.` and `net.` families. */
  lemma EffectKindsAreTheEffectFamilies(kind: EventKind)
    ensures IsEffectKind(kind)
            <==>
            || PatternMatches("fs" + ".*", kind)
            || PatternMatches("proc" + ".*", kind)
            || PatternMatches("net" + ".*", kind)
  {
    hide PatternMatches;
    FamilyPattern("fs", kind);
    FamilyPattern("proc", kind);
    FamilyPattern("net", kind);
    assert "fs" == ['f', 's'] && "proc" == ['p', 'r', 'o', 'c'] && "net" == ['n', 'e', 't'];
    TwoLetterFamily('f', 's', kind.Wire());
    FourLetterFamily('p', 'r', 'o', 'c', kind.Wire());
    ThreeLetterFamily('n', 'e', 't', kind.Wire());
  }

  predicate CoveredBySome(coverage: set<CoverageEntry>, kind: EventKind) {
    exists c :: c in coverage && c.Covers(kind)
  }

  /** Observed effect kinds that no producer claims to cover. */
  function EffectDeficitOf(events: seq<IrEvent>, coverage: set<CoverageEntry>): set<EventKind> {
    set e | e in events && IsEffectKind(e.kind) && !CoveredBySome(coverage, e.kind) :: e.kind
  }

  method EffectDeficit(events: seq<IrEvent>, coverage: set<CoverageEntry>) returns (deficit: set<EventKind>)
    ensures deficit == EffectDeficitOf(events, coverage)
  {
    deficit := {};
    for i := 0 to |events|
      invariant deficit == EffectDeficitOf(events[..i], coverage)
    {
      var event := events[i];
      assert events[..i + 1] == events[..i] + [event];
      if IsEffectKind(event.kind) && !CoveredBySome(coverage, event.kind) {
        deficit := deficit + {event.kind};
      }
    }
    assert events[..|events|] == events;
  }

  predicate HasFsCoveredObserver(coverage: set<CoverageEntry>) {
    exists c :: c in coverage && c.DischargesSubprocessObligation()
  }
}

/** Rebuilding the trust ledger from the log. The reports a check appends carry the observed
    classes but not the identity of the probe that answered. */
module LedgerProjections {
  import opened Primitives
  import opened Wrappers
  import opened TrustClasses
  import opened Fingerprints
  import opened Dependencies
  import opened Ir
  import opened Graph
  import opened TrustLedgers
  import opened ProbeRegistries
  import opened Edges
  import opened EdgeTheorems
  import opened Engine
  import opened CheckedEdges
  import opened Feedback
  import opened Certificates
  import Order

  // ------------------------------------------------- reading the reports

  /** What a report says that concerns the ledger: a match seen at a class, or just an answer. */
  datatype Report =
    | Seen(key: string, recorded: TrustClass, observed: TrustClass, at: Instant)
    | Answered(key: string)

  function ClassAt(payload: Payload, name: string): Option<TrustClass> {
    match payload.Text(name)
    case None => None
    case Some(wire) => ParseTrustClass(wire)
  }

  function ReportIn(e: IrEvent): Option<Report> {
    var key, recorded := e.payload.Text("key"), ClassAt(e.payload, "trust_class");
    var observed := ClassAt(e.payload, "observed_trust_class");
    if !e.kind.ProbeChecked? || key.None? then None
    else if e.payload.Text("result") != Some("match") then Some(Answered(key.value))
    else if recorded.Some? && observed.Some? then Some(Seen(key.value, recorded.value, observed.value, e.ts))
    else None
  }

  function ReportsIn(events: seq<IrEvent>): seq<Report> {
    if events == [] then []
    else
      var last := ReportIn(events[|events| - 1]);
      ReportsIn(events[..|events| - 1]) + if last.Some? then [last.value] else []
  }

  /** Which probe identity is taken to have answered for each key. */
  type Attribution = map<string, string>

  function CallOf(report: Report, owners: Attribution): Option<Call> {
    if report.key !in owners then None
    else
      var pair := Pair(report.key, owners[report.key]);
      match report
      case Seen(_, recorded, observed, at) => Some(ObserveCall(pair, recorded, observed, at))
      case Answered(_) => Some(NoteCall(pair))
  }

  function CallsOf(reports: seq<Report>, owners: Attribution): seq<Call> {
    if reports == [] then []
    else
      var last := CallOf(reports[|reports| - 1], owners);
      CallsOf(reports[..|reports| - 1], owners) + if last.Some? then [last.value] else []
  }

  const EMPTY_LEDGER := LedgerState(map[], map[])

  /** The ledger folded from the reports of a log. */
  function Projected(events: seq<IrEvent>, owners: Attribution): LedgerState {
    Run(EMPTY_LEDGER, CallsOf(ReportsIn(events), owners))
  }

  // --------------------------------------------- calls and their reports

  /** What of a ledger call reaches the log. */
  function Reported(call: Call): Report {
    match call
    case ObserveCall(pair, recorded, observed, at) => Seen(pair.key, recorded, observed, at)
    case NoteCall(pair) => Answered(pair.key)
  }

  function AllReported(calls: seq<Call>): seq<Report> {
    if calls == [] then [] else AllReported(calls[..|calls| - 1]) + [Reported(calls[|calls| - 1])]
  }

  predicate Attributes(owners: Attribution, pair: Pair) {
    pair.key in owners && owners[pair.key] == pair.identity
  }

  predicate LatestOfKey(calls: seq<Call>, i: nat)
    requires i < |calls|
  {
    forall j :: i < j < |calls| ==> calls[j].pair.key != calls[i].pair.key
  }

  /** A call whose probe the ledger remembers: a match, or the latest answer for its key. */
  predicate Remembered(calls: seq<Call>, i: nat)
    requires i < |calls|
  {
    calls[i].ObserveCall? || LatestOfKey(calls, i)
  }

  predicate OwnedBy(calls: seq<Call>, owners: Attribution) {
    forall i :: 0 <= i < |calls| && Remembered(calls, i) ==> Attributes(owners, calls[i].pair)
  }

  predicate MatchesOwned(calls: seq<Call>, owners: Attribution) {
    forall i :: 0 <= i < |calls| && calls[i].ObserveCall? ==> Attributes(owners, calls[i].pair)
  }

  /** With every match attributed to the probe that made it, each pair's entry comes out of the
      reports as it is in the ledger. */
  lemma {:induction false} EntriesAreProjected(calls: seq<Call>, owners: Attribution)
    requires MatchesOwned(calls, owners)
    ensures Run(EMPTY_LEDGER, calls).entries == Run(EMPTY_LEDGER, CallsOf(AllReported(calls), owners)).entries
  {
    hide FoldOne;
    if calls != [] {
      var init, last := calls[..|calls| - 1], calls[|calls| - 1];
      EntriesAreProjected(init, owners);
      ProjectionStep(calls, owners);
    }
  }

  lemma ProjectionStep(calls: seq<Call>, owners: Attribution)
    requires calls != []
    ensures var init, last := calls[..|calls| - 1], calls[|calls| - 1];
            Run(EMPTY_LEDGER, CallsOf(AllReported(calls), owners)) ==
            var before := Run(EMPTY_LEDGER, CallsOf(AllReported(init), owners));
            var call := CallOf(Reported(last), owners);
            if call.Some? then Apply(before, call.value) else before
  {
    hide Apply, Reported, CallOf;
    var init, last := AllReported(calls[..|calls| - 1]), Reported(calls[|calls| - 1]);
    assert AllReported(calls) == init + [last] && (init + [last])[..|init|] == init;
    var earlier, call := CallsOf(init, owners), CallOf(last, owners);
    if call.Some? {
      assert CallsOf(init + [last], owners) == earlier + [call.value];
      assert (earlier + [call.value])[..|earlier|] == earlier;
    } else {
      assert CallsOf(init + [last], owners) == earlier;
    }
  }

  predicate Called(calls: seq<Call>, key: string) {
    exists i :: 0 <= i < |calls| && calls[i].pair.key == key
  }

  /** Every entry of a projection, and every latest probe, is the attributed one; and the latest
      probe is known for exactly the attributed keys that were answered. */
  lemma {:induction false} ProjectionIsAttributed(calls: seq<Call>, owners: Attribution)
    ensures var s := Run(EMPTY_LEDGER, CallsOf(AllReported(calls), owners));
            && (forall pair :: pair in s.entries ==> Attributes(owners, pair))
            && (forall key :: key in s.lastProbe <==> key in owners && Called(calls, key))
            && (forall key :: key in s.lastProbe ==> s.lastProbe[key] == owners[key])
  {
    hide FoldOne, Called;
    if calls == [] {
      NothingCalled();
    } else {
      ProjectionIsAttributed(calls[..|calls| - 1], owners);
      ProjectionStep(calls, owners);
      forall key {
        CalledStep(calls, key);
      }
    }
  }

  lemma NothingCalled()
    ensures forall key :: !Called([], key)
  {
  }

  lemma CalledStep(calls: seq<Call>, key: string)
    requires calls != []
    ensures Called(calls, key) <==> Called(calls[..|calls| - 1], key) || calls[|calls| - 1].pair.key == key
  {
    var init := calls[..|calls| - 1];
    assert forall i :: 0 <= i < |init| ==> init[i] == calls[i];
  }

  lemma LatestCallExists(calls: seq<Call>, key: string) returns (i: nat)
    requires Called(calls, key)
    ensures i < |calls| && calls[i].pair.key == key && LatestOfKey(calls, i)
  {
    i := |calls| - 1;
    while calls[i].pair.key != key
      invariant i < |calls| && forall j :: i < j < |calls| ==> calls[j].pair.key != key
      invariant exists j :: 0 <= j <= i && calls[j].pair.key == key
      decreases i
    {
      i := i - 1;
    }
  }

  lemma {:induction false} ObservedIsEntered(calls: seq<Call>, i: nat)
    requires i < |calls| && calls[i].ObserveCall?
    ensures calls[i].pair in Run(EMPTY_LEDGER, calls).entries
  {
    hide FoldOne;
    if i < |calls| - 1 {
      ObservedIsEntered(calls[..|calls| - 1], i);
    }
  }

  /** Exactly when the ledger a run of calls leaves is the one folded from what reached the log:
      when the attribution names the very probe behind every match and behind the latest answer
      for every key. */
  lemma RunIsProjectedExactlyWhen(calls: seq<Call>, owners: Attribution)
    ensures Run(EMPTY_LEDGER, calls) == Run(EMPTY_LEDGER, CallsOf(AllReported(calls), owners)) <==>
            OwnedBy(calls, owners)
  {
    hide CallsOf, AllReported, Run, Called, LatestOfKey;
    var s, t := Run(EMPTY_LEDGER, calls), Run(EMPTY_LEDGER, CallsOf(AllReported(calls), owners));
    ProjectionIsAttributed(calls, owners);
    if OwnedBy(calls, owners) {
      EntriesAreProjected(calls, owners);
      forall key ensures key in s.lastProbe <==> key in t.lastProbe
                 ensures key in s.lastProbe ==> s.lastProbe[key] == t.lastProbe[key]
      {
        LastProbeKnown(calls, key);
        if Called(calls, key) {
          var i := LatestCallExists(calls, key);
          LastProbeOfLatest(calls, i);
          assert Remembered(calls, i);
        }
      }
      assert s.lastProbe == t.lastProbe;
    }
    if s == t {
      forall i | 0 <= i < |calls| && Remembered(calls, i) ensures Attributes(owners, calls[i].pair) {
        if calls[i].ObserveCall? {
          ObservedIsEntered(calls, i);
        } else {
          LastProbeOfLatest(calls, i);
        }
      }
    }
  }

  lemma LastProbeKnown(calls: seq<Call>, key: string)
    ensures key in Run(EMPTY_LEDGER, calls).lastProbe <==> Called(calls, key)
  {
    hide Run;
    LastProbeIsLatest(calls, key);
  }

  lemma LastProbeOfLatest(calls: seq<Call>, i: nat)
    requires i < |calls| && LatestOfKey(calls, i)
    ensures var s, pair := Run(EMPTY_LEDGER, calls), calls[i].pair;
            pair.key in s.lastProbe && s.lastProbe[pair.key] == pair.identity
  {
    hide Run;
    LastProbeIsLatest(calls, calls[i].pair.key);
  }

  /** One probe identity stands behind all matches and the latest answer of each key. */
  predicate OneProbePerKey(calls: seq<Call>) {
    forall i, j :: (0 <= i < |calls| && 0 <= j < |calls| && Remembered(calls, i) && Remembered(calls, j)
                    && calls[i].pair.key == calls[j].pair.key) ==> calls[i].pair.identity == calls[j].pair.identity
  }

  /** Exactly when some attribution makes the ledger a fold of the log. */
  lemma SomeAttributionFits(calls: seq<Call>)
    ensures (exists owners :: OwnedBy(calls, owners)) <==> OneProbePerKey(calls)
  {
    hide Run, LatestOfKey;
    if OneProbePerKey(calls) {
      var owners := Run(EMPTY_LEDGER, calls).lastProbe;
      forall i | 0 <= i < |calls| && Remembered(calls, i) ensures Attributes(owners, calls[i].pair) {
        assert Called(calls, calls[i].pair.key);
        var j := LatestCallExists(calls, calls[i].pair.key);
        LastProbeOfLatest(calls, j);
        assert Remembered(calls, j);
      }
      assert OwnedBy(calls, owners);
    }
  }

  // ------------------------------------------------------ whole checks

  /** The ledger call that evaluating one edge makes, if a probe is consulted. */
  ghost function CallMade(ctx: Context, ledger: LedgerState, dep: Dependency): seq<Call> {
    if !Consulted(ctx, ledger, dep) then []
    else
      var pair := Pair(dep.key, SelectionOf(ctx.regs, dep.scheme, dep.key).value.identity);
      match AnswerFor(ctx, ledger, dep)
      case MatchResult(_, observed) => [ObserveCall(pair, dep.trustClass, observed, ctx.now)]
      case _ => [NoteCall(pair)]
  }

  lemma {:induction false} RunConcat(s: LedgerState, a: seq<Call>, b: seq<Call>)
    ensures Run(s, a + b) == Run(Run(s, a), b)
  {
    hide Apply;
    if b == [] {
      assert a + b == a;
    } else {
      RunConcat(s, a, b[..|b| - 1]);
      assert (a + b)[..|a + b| - 1] == a + b[..|b| - 1];
    }
  }

  lemma {:induction false} ReportsConcat(a: seq<IrEvent>, b: seq<IrEvent>)
    ensures ReportsIn(a + b) == ReportsIn(a) + ReportsIn(b)
  {
    hide ReportIn;
    if b == [] {
      assert a + b == a;
    } else {
      ReportsConcat(a, b[..|b| - 1]);
      assert (a + b)[..|a + b| - 1] == a + b[..|b| - 1];
    }
  }

  lemma {:induction false} ReportedConcat(a: seq<Call>, b: seq<Call>)
    ensures AllReported(a + b) == AllReported(a) + AllReported(b)
  {
    hide Reported;
    if b == [] {
      assert a + b == a;
    } else {
      ReportedConcat(a, b[..|b| - 1]);
      assert (a + b)[..|a + b| - 1] == a + b[..|b| - 1];
    }
  }

  /** A report is read back as the ledger call it stands for. */
  lemma ReportReadsBack(ctx: Context, sequence: nat, dep: Dependency, answer: ProbeResult)
    ensures ReportIn(ProbeCheckedEvent(ctx, sequence, dep, answer)) ==
            Some(match answer
                 case MatchResult(_, observed) => Seen(dep.key, dep.trustClass, observed, ctx.now)
                 case _ => Answered(dep.key))
  {
    hide Identifiers.EngineEventId, TrustClass.Wire, ParseTrustClass, Fingerprint.Display;
    TrustClassWireRoundTrip(dep.trustClass, dep.trustClass.Wire());
    if answer.MatchResult? {
      TrustClassWireRoundTrip(answer.observedClass, answer.observedClass.Wire());
    }
    assert "match" != "drift" && |"unknown"| != |"match"|;
  }

  lemma {:induction false} DiagnosticsReportNothing(events: seq<IrEvent>)
    requires forall i :: 0 <= i < |events| ==> !events[i].kind.ProbeChecked?
    ensures ReportsIn(events) == []
  {
    if events != [] {
      DiagnosticsReportNothing(events[..|events| - 1]);
    }
  }

  /** Evaluating one edge makes its call, and the log reports that call. */
  lemma EdgeReportsItsCall(ctx: Context, ledger: LedgerState, dep: Dependency, sequence: nat)
    ensures var step, calls := Evaluated(ctx, ledger, dep, sequence), CallMade(ctx, ledger, dep);
            step.ledger == Run(ledger, calls) && ReportsIn(step.events) == AllReported(calls)
  {
    hide ProbeCheckedEvent, DiagnosticEvent, Observed, ReportIn, Arbitrates, GateOpen, VolatileVerdict, ProbedVerdict;
    var events, calls := Evaluated(ctx, ledger, dep, sequence).events, CallMade(ctx, ledger, dep);
    EdgeEvents(ctx, ledger, dep, sequence);
    if Consulted(ctx, ledger, dep) {
      ReportReadsBack(ctx, sequence, dep, AnswerFor(ctx, ledger, dep));
      assert events == [events[0]] + events[1..];
      ReportsConcat([events[0]], events[1..]);
      DiagnosticsReportNothing(events[1..]);
      assert [events[0]][..0] == [] && calls[..0] == [];
    } else {
      DiagnosticsReportNothing(events);
    }
  }

  /** The calls made by the first `n` edges of a check. */
  ghost function CallsOfCheck(ctx: Context, deps: seq<Dependency>, ledger: LedgerState, n: nat): seq<Call>
    requires n <= |deps|
  {
    if n == 0 then []
    else
      CallsOfCheck(ctx, deps, ledger, n - 1)
      + CallMade(ctx, EdgesEvaluated(ctx, deps, ledger, n - 1).ledger, deps[n - 1])
  }

  lemma {:induction false} CheckReportsItsCalls(ctx: Context, deps: seq<Dependency>, ledger: LedgerState, n: nat)
    requires n <= |deps|
    ensures var run, calls := EdgesEvaluated(ctx, deps, ledger, n), CallsOfCheck(ctx, deps, ledger, n);
            run.ledger == Run(ledger, calls) && ReportsIn(run.events) == AllReported(calls)
  {
    hide Evaluated, CallMade, Run, ReportsIn, AllReported;
    if n == 0 {
      NothingReported(ledger);
    } else {
      CheckReportsItsCalls(ctx, deps, ledger, n - 1);
      var run, calls := EdgesEvaluated(ctx, deps, ledger, n - 1), CallsOfCheck(ctx, deps, ledger, n - 1);
      var made := CallMade(ctx, run.ledger, deps[n - 1]);
      EdgeReportsItsCall(ctx, run.ledger, deps[n - 1], run.sequence);
      RunConcat(ledger, calls, made);
      ReportedConcat(calls, made);
      ReportsConcat(run.events, Evaluated(ctx, run.ledger, deps[n - 1], run.sequence).events);
    }
  }

  lemma NothingReported(ledger: LedgerState)
    ensures Run(ledger, []) == ledger && ReportsIn([]) == [] && AllReported([]) == []
  {
  }

  /** One check of a node. */
  datatype Visit = Visit(ctx: Context, node: ComputationNode)

  /** The ledger after these checks, made in turn by an engine that starts without one. */
  ghost function LedgerOver(visits: seq<Visit>): LedgerState {
    if visits == [] then EMPTY_LEDGER
    else
      var last := visits[|visits| - 1];
      var before := LedgerOver(visits[..|visits| - 1]);
      EdgesEvaluated(last.ctx, last.node.dependencies, before, |last.node.dependencies|).ledger
  }

  /** The events they emitted. */
  ghost function EventsOver(visits: seq<Visit>): seq<IrEvent> {
    if visits == [] then []
    else
      var init, last := visits[..|visits| - 1], visits[|visits| - 1];
      EventsOver(init) + EmittedEvents(last.ctx, last.node, LedgerOver(init))
  }

  /** The ledger calls they made. */
  ghost function CallsOver(visits: seq<Visit>): seq<Call> {
    if visits == [] then []
    else
      var init, last := visits[..|visits| - 1], visits[|visits| - 1];
      CallsOver(init) + CallsOfCheck(last.ctx, last.node.dependencies, LedgerOver(init), |last.node.dependencies|)
  }

  lemma {:induction false} VisitsReportTheirCalls(visits: seq<Visit>)
    ensures LedgerOver(visits) == Run(EMPTY_LEDGER, CallsOver(visits))
    ensures ReportsIn(EventsOver(visits)) == AllReported(CallsOver(visits))
  {
    hide EdgesEvaluated, CallsOfCheck, Run, ReportsIn, AllReported, ConflictEvents;
    if visits == [] {
      NothingReported(EMPTY_LEDGER);
    } else {
      var init, last := visits[..|visits| - 1], visits[|visits| - 1];
      var deps, ledger := last.node.dependencies, LedgerOver(init);
      VisitsReportTheirCalls(init);
      CheckReportsItsCalls(last.ctx, deps, ledger, |deps|);
      var run, calls := EdgesEvaluated(last.ctx, deps, ledger, |deps|), CallsOfCheck(last.ctx, deps, ledger, |deps|);
      var conflicts := ConflictEvents(last.ctx, last.node.conflicts, run.sequence);
      RunConcat(EMPTY_LEDGER, CallsOver(init), calls);
      ReportedConcat(CallsOver(init), calls);
      ReportsConcat(EventsOver(init), run.events + conflicts);
      ReportsConcat(run.events, conflicts);
      ConflictsReportNothing(last.ctx, last.node.conflicts, run.sequence);
    }
  }

  lemma ConflictsReportNothing(ctx: Context, conflicts: seq<EdgeConflict>, sequence: nat)
    ensures ReportsIn(ConflictEvents(ctx, conflicts, sequence)) == []
  {
    hide ReportsIn, ConflictEvents;
    ConflictEventsDiagnose(ctx, conflicts, sequence);
    DiagnosticsReportNothing(ConflictEvents(ctx, conflicts, sequence));
  }

  /** Whether the ledger is a projection of the log. Over any checks of any nodes, the ledger is
      the fold of the events they emitted, under a given attribution of keys to probe
      identities, exactly when the attribution names the probe behind every match and behind
      the latest answer for each key; and some attribution does exactly when one identity
      stands behind these for each key. The log itself names none. */
  lemma LedgerIsProjectedExactlyWhen(visits: seq<Visit>, owners: Attribution)
    ensures LedgerOver(visits) == Projected(EventsOver(visits), owners) <==> OwnedBy(CallsOver(visits), owners)
    ensures (exists names :: LedgerOver(visits) == Projected(EventsOver(visits), names)) <==>
            OneProbePerKey(CallsOver(visits))
  {
    hide LedgerOver, EventsOver, CallsOver, Run, ReportsIn, AllReported, CallsOf, OwnedBy, OneProbePerKey;
    var calls := CallsOver(visits);
    VisitsReportTheirCalls(visits);
    forall names
      ensures LedgerOver(visits) == Projected(EventsOver(visits), names) <==> OwnedBy(calls, names) {
      RunIsProjectedExactlyWhen(calls, names);
    }
    SomeAttributionFits(calls);
  }

  // ------------------------------------- when one probe answers a key

  predicate SameSchemes(a: seq<Dependency>, b: seq<Dependency>) {
    forall k, l :: 0 <= k < |a| && 0 <= l < |b| && a[k].key == b[l].key ==> a[k].scheme == b[l].scheme
  }

  /** Every check finds the same registrations, and no key is used under two schemes. */
  predicate SettledRegistry(visits: seq<Visit>) {
    forall i, j :: 0 <= i < |visits| && 0 <= j < |visits| ==>
      visits[i].ctx.regs == visits[j].ctx.regs && SameSchemes(visits[i].node.dependencies, visits[j].node.dependencies)
  }

  /** The call was made for an edge of one of these checks, by the probe selected for it. */
  ghost predicate MadeFor(visits: seq<Visit>, call: Call, i: nat, k: nat) {
    && i < |visits| && k < |visits[i].node.dependencies|
    && var dep := visits[i].node.dependencies[k];
       && call.pair.key == dep.key
       && var selection := SelectionOf(visits[i].ctx.regs, dep.scheme, dep.key);
          selection.Ok? && call.pair.identity == selection.value.identity
  }

  ghost predicate HasMaker(visits: seq<Visit>, call: Call) {
    exists i: nat, k: nat :: MadeFor(visits, call, i, k)
  }

  lemma {:induction false} CheckCallsMadeFor(visits: seq<Visit>, i: nat, ledger: LedgerState, n: nat)
    requires i < |visits| && n <= |visits[i].node.dependencies|
    ensures forall call :: call in CallsOfCheck(visits[i].ctx, visits[i].node.dependencies, ledger, n) ==>
              HasMaker(visits, call)
  {
    hide EdgesEvaluated, Arbitrates, GateOpen;
    if n > 0 {
      CheckCallsMadeFor(visits, i, ledger, n - 1);
      var ctx, deps := visits[i].ctx, visits[i].node.dependencies;
      forall call | call in CallMade(ctx, EdgesEvaluated(ctx, deps, ledger, n - 1).ledger, deps[n - 1])
        ensures HasMaker(visits, call)
      {
        assert MadeFor(visits, call, i, n - 1);
      }
    }
  }

  lemma {:induction false} CallsMadeFor(visits: seq<Visit>, n: nat)
    requires n <= |visits|
    ensures forall call :: call in CallsOver(visits[..n]) ==> HasMaker(visits, call)
  {
    hide CallsOfCheck, HasMaker;
    if n > 0 {
      CallsMadeFor(visits, n - 1);
      assert visits[..n][..n - 1] == visits[..n - 1];
      CheckCallsMadeFor(visits, n - 1, LedgerOver(visits[..n - 1]), |visits[n - 1].node.dependencies|);
    }
  }

  /** As long as the registrations stay as they are and a key keeps its scheme, the ledger is
      the fold of the log under some attribution. */
  lemma SettledRegistryProjects(visits: seq<Visit>)
    requires SettledRegistry(visits)
    ensures exists owners :: LedgerOver(visits) == Projected(EventsOver(visits), owners)
  {
    hide LedgerOver, EventsOver, CallsOver, Projected, HasMaker, SettledRegistry, Remembered;
    var calls := CallsOver(visits);
    LedgerIsProjectedExactlyWhen(visits, map[]);
    CallsMadeFor(visits, |visits|);
    assert visits[..|visits|] == visits;
    forall a, b | 0 <= a < |calls| && 0 <= b < |calls| && calls[a].pair.key == calls[b].pair.key
      ensures calls[a].pair.identity == calls[b].pair.identity
    {
      assert calls[a] in calls && calls[b] in calls;
      SameMaker(visits, calls[a], calls[b]);
    }
  }

  lemma SameMaker(visits: seq<Visit>, a: Call, b: Call)
    requires SettledRegistry(visits) && HasMaker(visits, a) && HasMaker(visits, b) && a.pair.key == b.pair.key
    ensures a.pair.identity == b.pair.identity
  {
    hide MadeFor, SettledRegistry;
    var i: nat, k: nat :| MadeFor(visits, a, i, k);
    var j: nat, l: nat :| MadeFor(visits, b, j, l);
    SameSelection(visits, a, i, k, b, j, l);
  }

  lemma SameSelection(visits: seq<Visit>, a: Call, i: nat, k: nat, b: Call, j: nat, l: nat)
    requires SettledRegistry(visits) && MadeFor(visits, a, i, k) && MadeFor(visits, b, j, l)
    requires a.pair.key == b.pair.key
    ensures a.pair.identity == b.pair.identity
  {
    hide Arbitrates;
  }

  // --------------------------------------------- the order of the log

  /** Each check is later than the one before and emits no more events than it has distinct
      identifiers for. */
  ghost predicate Paced(visits: seq<Visit>) {
    && (forall i, j :: 0 <= i < j < |visits| ==> visits[i].ctx.now < visits[j].ctx.now)
    && (forall i :: 0 <= i < |visits| ==>
          |EmittedEvents(visits[i].ctx, visits[i].node, LedgerOver(visits[..i]))| <= 4096)
  }

  lemma {:induction false} EventInstants(visits: seq<Visit>)
    ensures forall e :: e in EventsOver(visits) ==> exists i :: 0 <= i < |visits| && e.ts == visits[i].ctx.now
  {
    hide EmittedEvents, LedgerOver;
    if visits != [] {
      var init, last := visits[..|visits| - 1], visits[|visits| - 1];
      EventInstants(init);
      EmissionIsBounded(last.ctx, last.node, LedgerOver(init));
      forall e | e in EventsOver(visits) ensures exists i :: 0 <= i < |visits| && e.ts == visits[i].ctx.now {
        if e in EventsOver(init) {
          var i :| 0 <= i < |init| && e.ts == init[i].ctx.now;
          assert visits[i] == init[i];
        } else {
          assert visits[|visits| - 1].ctx.now == e.ts;
        }
      }
    }
  }

  lemma CheckInOrder(ctx: Context, node: ComputationNode, ledger: LedgerState)
    requires |EmittedEvents(ctx, node, ledger)| <= 4096
    ensures Order.Linearize(EmittedEvents(ctx, node, ledger)) == EmittedEvents(ctx, node, ledger)
  {
    hide EmittedEvents;
    var events := EmittedEvents(ctx, node, ledger);
    EmissionIsBounded(ctx, node, ledger);
    forall i, j | 0 <= i < j < |events| ensures Order.Precedes(events[i], events[j]) {
      assert events[i] in events && events[j] in events;
    }
    Order.SortedStays(events);
  }

  /** So the canonical order of what the checks emitted is the order they emitted it in, and a
      fold over the canonical log is a fold over the checks. */
  lemma {:induction false} EventsStayInOrder(visits: seq<Visit>)
    requires Paced(visits)
    ensures Order.Linearize(EventsOver(visits)) == EventsOver(visits)
  {
    hide EmittedEvents, LedgerOver, Order.Linearize;
    if visits == [] {
      Order.SortedStays([]);
    } else {
      var init, last := visits[..|visits| - 1], visits[|visits| - 1];
      var before, now := EventsOver(init), EmittedEvents(last.ctx, last.node, LedgerOver(init));
      assert Paced(init) by {
        assert forall i :: 0 <= i < |init| ==> init[i] == visits[i] && init[..i] == visits[..i];
      }
      EventsStayInOrder(init);
      EventInstants(init);
      EmissionIsBounded(last.ctx, last.node, LedgerOver(init));
      CheckInOrder(last.ctx, last.node, LedgerOver(init));
      forall x, y | x in before && y in now ensures Order.Precedes(x, y) {
        Order.LaterInstantIsLater(x, y);
      }
      Order.LinearizeAppend(before, now);
    }
  }

  // ------------------------------------------------------- an example

  const PAGE := "https://example.org/"

  function Page(): Dependency {
    Dependency(PAGE, "https", Heuristic, Fingerprint(Etag, "a"), 0, None, None)
  }

  function FirstProbe(): Registration {
    Registration("https", None, 0, 1)
  }

  function BetterProbe(): Registration {
    Registration("https", None, 1, 2)
  }

  /** Between two checks of one page a better probe is registered beside the first; each of
      them sees the page unchanged, at a higher class than recorded. */
  function TwoVisits(identify: Identify): seq<Visit> {
    var world := World((handle, key, recorded, ttl) => MatchResult(recorded, Versioned), identify);
    var node := NewNode("build").(dependencies := [Page()]);
    var first := map[FirstProbe().Identity() := FirstProbe()];
    [Visit(Context("build", 1, first, 0, world), node),
     Visit(Context("build", 2, first[BetterProbe().Identity() := BetterProbe()], 0, world), node)]
  }

  lemma IdentitiesDiffer()
    ensures FirstProbe().Identity() != BetterProbe().Identity()
  {
    hide Derive;
    SharedIdentity("https", None, 0, "https", None, 1);
  }

  /** The one probe that outranks every other one is selected. */
  lemma TopIsSelected(regs: Registrations, id: string)
    requires SoleTop(regs, "https", PAGE, id)
    ensures SelectionOf(regs, "https", PAGE) == Ok(Selected(id, regs[id].handle))
  {
    hide Arbitrates, SoleTop;
    SelectsTheSoleTop(regs, "https", PAGE, SelectionOf(regs, "https", PAGE), id);
  }

  lemma WhoAnswers(identify: Identify)
    ensures var visits := TwoVisits(identify);
            && SelectionOf(visits[0].ctx.regs, "https", PAGE) == Ok(Selected(FirstProbe().Identity(), 1))
            && SelectionOf(visits[1].ctx.regs, "https", PAGE) == Ok(Selected(BetterProbe().Identity(), 2))
  {
    hide Arbitrates, HostOf, Derive;
    IdentitiesDiffer();
    var visits := TwoVisits(identify);
    TopIsSelected(visits[0].ctx.regs, FirstProbe().Identity());
    TopIsSelected(visits[1].ctx.regs, BetterProbe().Identity());
  }

  function FirstCall(): Call {
    ObserveCall(Pair(PAGE, FirstProbe().Identity()), Heuristic, Versioned, 1)
  }

  function SecondCall(): Call {
    ObserveCall(Pair(PAGE, BetterProbe().Identity()), Heuristic, Versioned, 2)
  }

  lemma OneEdge(visit: Visit, ledger: LedgerState)
    requires visit.node.dependencies == [Page()]
    ensures CallsOfCheck(visit.ctx, visit.node.dependencies, ledger, 1) == CallMade(visit.ctx, ledger, Page())
  {
    hide CallMade, Evaluated;
  }

  lemma OneMoreVisit(visits: seq<Visit>, visit: Visit)
    requires visit.node.dependencies == [Page()]
    ensures CallsOver(visits + [visit]) == CallsOver(visits) + CallMade(visit.ctx, LedgerOver(visits), Page())
  {
    hide CallsOfCheck, CallMade, EdgesEvaluated;
    assert (visits + [visit])[..|visits|] == visits;
    OneEdge(visit, LedgerOver(visits));
  }

  lemma ExampleCalls(identify: Identify)
    ensures CallsOver(TwoVisits(identify)) == [FirstCall(), SecondCall()]
  {
    hide CallMade, TwoVisits, Run, CallsOver, LedgerOver, FirstCall, SecondCall;
    ExampleShape(identify);
    var a, b := TwoVisits(identify)[0], TwoVisits(identify)[1];
    NoVisits();
    AnsweredCalls(identify, EMPTY_LEDGER);
    OneMoreVisit([], a);
    assert [] + [a] == [a];
    VisitsReportTheirCalls([a]);
    AfterFirst();
    AnsweredCalls(identify, LedgerOver([a]));
    OneMoreVisit([a], b);
  }

  lemma NoVisits()
    ensures CallsOver([]) == [] && LedgerOver([]) == EMPTY_LEDGER
  {
  }

  lemma ExampleShape(identify: Identify)
    ensures var visits := TwoVisits(identify);
            && |visits| == 2 && visits == [visits[0]] + [visits[1]]
            && forall i :: 0 <= i < 2 ==> visits[i].node.dependencies == [Page()]
  {
  }

  /** As long as the first probe is the latest one known, or none is, each check asks its own. */
  lemma AnsweredCalls(identify: Identify, ledger: LedgerState)
    requires PAGE in ledger.lastProbe ==> ledger.lastProbe[PAGE] == FirstProbe().Identity()
    ensures var visits := TwoVisits(identify);
            && CallMade(visits[0].ctx, ledger, Page()) == [FirstCall()]
            && CallMade(visits[1].ctx, ledger, Page()) == [SecondCall()]
  {
    hide Derive, Arbitrates, SelectionOf;
    WhoAnswers(identify);
  }

  lemma AfterFirst()
    ensures Run(EMPTY_LEDGER, [FirstCall()]).lastProbe == map[PAGE := FirstProbe().Identity()]
  {
    hide Derive, FoldOne;
    assert [FirstCall()][..0] == [];
  }

  /** The ledger is not always a fold of the log: no attribution fits these two checks. The
      ledger still holds the recorded class for either probe, while read without identities the
      same events show two matches running and raise it. */
  lemma LedgerIsNotAlwaysProjected(identify: Identify)
    ensures var visits := TwoVisits(identify);
            var first := Pair(PAGE, FirstProbe().Identity());
            && (forall owners :: LedgerOver(visits) != Projected(EventsOver(visits), owners))
            && first in LedgerOver(visits).entries && LedgerOver(visits).entries[first].adopted == Heuristic
            && var folded := Projected(EventsOver(visits), map[PAGE := FirstProbe().Identity()]);
               first in folded.entries && folded.entries[first].adopted == Versioned
  {
    hide LedgerOver, EventsOver, CallsOver, Derive, ReportsIn;
    var visits, calls := TwoVisits(identify), [FirstCall(), SecondCall()];
    ExampleCalls(identify);
    IdentitiesDiffer();
    VisitsReportTheirCalls(visits);
    LedgerIsProjectedExactlyWhen(visits, map[]);
    assert Remembered(calls, 0) && Remembered(calls, 1);
    FoldsOfExample();
  }

  lemma FoldsOfExample()
    ensures var calls, first := [FirstCall(), SecondCall()], Pair(PAGE, FirstProbe().Identity());
            var folded := CallsOf(AllReported(calls), map[PAGE := FirstProbe().Identity()]);
            && first in Run(EMPTY_LEDGER, calls).entries
            && Run(EMPTY_LEDGER, calls).entries[first].adopted == Heuristic
            && first in Run(EMPTY_LEDGER, folded).entries
            && Run(EMPTY_LEDGER, folded).entries[first].adopted == Versioned
  {
    hide Derive;
    IdentitiesDiffer();
    var a, b := FirstCall(), SecondCall();
    var owners := map[PAGE := FirstProbe().Identity()];
    assert [a, b][..1] == [a] && [a][..0] == [];
    var ra, rb := Reported(a), Reported(b);
    assert AllReported([a]) == [ra] && AllReported([a, b]) == [ra, rb];
    assert [ra, rb][..1] == [ra] && [ra][..0] == [];
    var b' := ObserveCall(a.pair, Heuristic, Versioned, 2);
    assert CallsOf([ra], owners) == [a] && CallsOf([ra, rb], owners) == [a, b'];
    assert [a, b'][..1] == [a];
  }
}

/** What becomes of the derived graph when a check's events are appended to its log. */
module Feedback {
  import opened Primitives
  import opened Wrappers
  import opened TrustClasses
  import opened Fingerprints
  import opened Dependencies
  import opened Ir
  import opened Coverage
  import opened Graph
  import opened Replays
  import opened GraphTheorems
  import opened FirstWins
  import opened NodeLists
  import opened TrustLedgers
  import opened ProbeRegistries
  import opened Edges
  import opened EdgeTheorems
  import opened Engine
  import opened Provenance
  import opened RecordedEdges
  import opened CheckedEdges
  import opened EngineTheorems
  import Identifiers
  import Order

  // ------------------------------------- what leaves a node unmoved

  /** The node's edges, conflicts and exclusions are what they were. Its producers, events and
      counts may have grown. */
  predicate Unmoved(before: ComputationNode, after: ComputationNode) {
    after.dependencies == before.dependencies && after.conflicts == before.conflicts
      && after.excluded == before.excluded
  }

  /** An outcome that only repeats what the node already holds, or concerns none of it. */
  ghost predicate Quiet(deps: seq<Dependency>, outcome: Outcome) {
    && !outcome.Excluded?
    && (outcome.Edge? ==>
          exists i :: 0 <= i < |deps| && deps[i].Id() == outcome.dependency.Id()
            && !Disagrees(deps[i], outcome.dependency))
  }

  lemma QuietStep(node: ComputationNode, index: EdgeIndex, e: IrEvent, outcome: Outcome)
    requires Indexed(node.dependencies, index)
    ensures Unmoved(node, Book(node, index, e, outcome).0) <==> Quiet(node.dependencies, outcome)
  {
    hide Dependency.Id, Disagrees;
  }

  /** Booking a run of events leaves the node unmoved exactly when each of them is quiet. */
  lemma {:induction false} QuietRun(comp: string, marks: Marks, m: nat, n: nat)
    requires m <= n <= |marks|
    ensures var before := BookedNode(comp, marks, m).0;
            Unmoved(before, BookedNode(comp, marks, n).0) <==>
            forall k :: m <= k < n && marks[k].Some? ==> Quiet(before.dependencies, marks[k].value.outcome)
  {
    hide Book, Quiet, BookedNode;
    if m < n {
      var (last, index) := BookedNode(comp, marks, n - 1);
      QuietRun(comp, marks, m, n - 1);
      BookedStep(comp, marks, n - 1);
      BookedNodeExtends(comp, marks, m, n - 1);
      if marks[n - 1].Some? {
        var mark := marks[n - 1].value;
        QuietStep(last, index, mark.event, mark.outcome);
        BookExtends(last, index, mark.event, mark.outcome);
      }
    }
  }

  // ---------------------------------------- what an emitted event is

  /** The event reports what the probe for this edge answered in this check. */
  ghost predicate ReportsOn(e: IrEvent, ctx: Context, ledger: LedgerState, dep: Dependency) {
    Consulted(ctx, ledger, dep)
      && exists sequence :: e == ProbeCheckedEvent(ctx, sequence, dep, AnswerFor(ctx, ledger, dep))
  }

  lemma StepReports(ctx: Context, ledger: LedgerState, now: LedgerState, dep: Dependency, sequence: nat)
    requires AgreeOn(ledger, now, dep.key)
    ensures var events := Evaluated(ctx, now, dep, sequence).events;
            && (forall e :: e in events ==> e.kind.Diagnostic? || ReportsOn(e, ctx, ledger, dep))
            && (Consulted(ctx, ledger, dep) ==> exists e :: e in events && ReportsOn(e, ctx, ledger, dep))
  {
    hide Evaluated, ProbeCheckedEvent, AgreeOn, Consulted;
    var events := Evaluated(ctx, now, dep, sequence).events;
    OutcomeReadsOneKey(ctx, ledger, now, dep, 0, 0);
    EdgeEvents(ctx, now, dep, sequence);
    forall e | e in events ensures e.kind.Diagnostic? || ReportsOn(e, ctx, ledger, dep) {
      var i :| 0 <= i < |events| && events[i] == e;
      assert (i == 0 && Consulted(ctx, now, dep)) || events[i].kind.Diagnostic?;
    }
    if Consulted(ctx, ledger, dep) {
      assert events[0] in events && ReportsOn(events[0], ctx, ledger, dep);
    }
  }

  lemma {:induction false} RunReports(ctx: Context, deps: seq<Dependency>, ledger: LedgerState, n: nat)
    requires n <= |deps| && KeysDistinct(deps)
    ensures var events := EdgesEvaluated(ctx, deps, ledger, n).events;
            && (forall e :: e in events ==>
                e.kind.Diagnostic? || exists i :: 0 <= i < n && ReportsOn(e, ctx, ledger, deps[i]))
            && (forall i :: 0 <= i < n && Consulted(ctx, ledger, deps[i]) ==>
                  exists e :: e in events && ReportsOn(e, ctx, ledger, deps[i]))
  {
    hide Evaluated, ReportsOn, Consulted, AgreeOn;
    if n > 0 {
      RunReports(ctx, deps, ledger, n - 1);
      var run := EdgesEvaluated(ctx, deps, ledger, n - 1);
      RunIsLocal(ctx, deps, ledger, n - 1, deps[n - 1].key);
      StepReports(ctx, ledger, run.ledger, deps[n - 1], run.sequence);
    }
  }

  lemma {:induction false} ConflictEventsDiagnose(ctx: Context, conflicts: seq<EdgeConflict>, sequence: nat)
    ensures forall e :: e in ConflictEvents(ctx, conflicts, sequence) ==> e.kind.Diagnostic?
  {
    if conflicts != [] {
      ConflictEventsDiagnose(ctx, conflicts[..|conflicts| - 1], sequence);
    }
  }

  /** A check's events are diagnostics and, for each consulted edge, one report. */
  lemma EmittedReports(ctx: Context, node: ComputationNode, ledger: LedgerState)
    requires KeysDistinct(node.dependencies)
    ensures var events, deps := EmittedEvents(ctx, node, ledger), node.dependencies;
            && (forall e :: e in events ==>
                e.kind.Diagnostic? || exists i :: 0 <= i < |deps| && ReportsOn(e, ctx, ledger, deps[i]))
            && (forall i :: 0 <= i < |deps| && Consulted(ctx, ledger, deps[i]) ==>
                  exists e :: e in events && ReportsOn(e, ctx, ledger, deps[i]))
  {
    hide EdgesEvaluated, ConflictEvents, ReportsOn, Consulted;
    RunReports(ctx, node.dependencies, ledger, |node.dependencies|);
    ConflictEventsDiagnose(ctx, node.conflicts,
                           EdgesEvaluated(ctx, node.dependencies, ledger, |node.dependencies|).sequence);
  }

  // ---------------------------------------- what replay makes of it

  /** The answer carries a fingerprint that reads back as the recorded one. */
  predicate Faithful(answer: ProbeResult, dep: Dependency) {
    !answer.UnknownResult? && Parse(answer.observedFp.Display()) == Ok(dep.fingerprint)
  }

  /** For an answer whose own fingerprint survives being written out, being faithful means
      reporting the recorded fingerprint; a probe that could not decide is never faithful. */
  lemma FaithfulMeaning(answer: ProbeResult, dep: Dependency)
    requires !answer.UnknownResult? ==> Canonical(answer.observedFp)
    ensures Faithful(answer, dep) <==> !answer.UnknownResult? && answer.observedFp == dep.fingerprint
  {
    hide Parse, Canonical, Fingerprint.Display;
    if !answer.UnknownResult? {
      DisplayRoundTrip(answer.observedFp);
    }
  }

  /** Replay reads a report as the dependency it was about with the reported fingerprint, or
      excludes it, unproven, if there is none to read. */
  lemma ReportOutcome(ctx: Context, sequence: nat, dep: Dependency, answer: ProbeResult)
    requires WellRecorded(dep)
    ensures var outcome := ClassifyProbe(ProbeCheckedEvent(ctx, sequence, dep, answer));
            if answer.UnknownResult? || Parse(answer.observedFp.Display()).Err?
            then outcome.Excluded? && outcome.excludedEdge.reason.IsUnprovenDependency()
            else
              var reported := Parse(answer.observedFp.Display()).value;
              outcome == Edge(Dependency(dep.key, dep.scheme, dep.trustClass, reported, ctx.now, None, dep.ttlSeconds))
  {
    hide Parse, Identifiers.EngineEventId, FromSchemeKey, ParseTrustClass, TrustClass.Wire, Fingerprint.Display,
      Canonical;
    TrustClassWireRoundTrip(dep.trustClass, dep.trustClass.Wire());
  }

  lemma ReportQuiet(deps: seq<Dependency>, i: nat, ctx: Context, sequence: nat, answer: ProbeResult)
    requires i < |deps| && KeysDistinct(deps) && forall d :: d in deps ==> WellRecorded(d)
    ensures Quiet(deps, ClassifyProbe(ProbeCheckedEvent(ctx, sequence, deps[i], answer))) <==> Faithful(answer, deps[i])
  {
    hide ClassifyProbe, ProbeCheckedEvent, Parse, FromSchemeKey, Canonical, Fingerprint.Display;
    var dep := deps[i];
    assert dep in deps;
    ReportOutcome(ctx, sequence, dep, answer);
    var outcome := ClassifyProbe(ProbeCheckedEvent(ctx, sequence, dep, answer));
    if outcome.Edge? {
      assert outcome.dependency.Id() == dep.Id();
      forall j | 0 <= j < |deps| ensures deps[j].Id() == dep.Id() <==> j == i {
        assert deps[j] in deps;
      }
    }
  }

  // ------------------------------------------------ one check fed back

  /** How the appended events count for the computation they belong to. */
  lemma SuffixMarks(long: seq<IrEvent>, ctx: Context, k: nat)
    requires k < |long| && FromTheEngine(long[k], ctx)
    ensures MarksOf(long, ctx.computation)[k]
            == Some(Mark(long[k], if long[k].kind.ProbeChecked? then ClassifyProbe(long[k]) else Unmodeled))
    ensures forall comp :: comp != ctx.computation ==> MarksOf(long, comp)[k].None?
  {
    hide ClassifyProbe, ArtifactPaths;
    assert MarksOf(long, ctx.computation)[k] == MarkAt(long, ctx.computation, k);
    forall comp | comp != ctx.computation ensures MarksOf(long, comp)[k].None? {
      assert MarksOf(long, comp)[k] == MarkAt(long, comp, k);
    }
  }

  /** The node before and after as bookings of one and the same sequence of marks. */
  lemma NodesAsBookings(log: seq<IrEvent>, later: seq<IrEvent>, comp: string)
    requires forall x, y :: x in log && y in later ==> x.ts < y.ts
    ensures var short, long := Order.Linearize(log), Order.Linearize(log + later);
            && |short| <= |long| && long == short + Order.Linearize(later)
            && Unmoved(BookedNode(comp, MarksOf(long, comp), |short|).0, NodeOf(short, comp))
            && Unmoved(BookedNode(comp, MarksOf(long, comp), |long|).0, NodeOf(long, comp))
  {
    hide BookedNode, MarksOf, ProgressAfter;
    var short, long := Order.Linearize(log), Order.Linearize(log + later);
    forall x, y | x in log && y in later ensures Order.Precedes(x, y) {
      Order.LaterInstantIsLater(x, y);
    }
    Order.LinearizeAppend(log, later);
    ProgressPrefix(short, long, comp, |short|);
    FoldBooksMarks(long, comp, |short|);
    FoldBooksMarks(long, comp, |long|);
  }

  /** Every consulted probe answered faithfully in this check. */
  ghost predicate AllFaithful(ctx: Context, ledger: LedgerState, deps: seq<Dependency>) {
    forall i :: 0 <= i < |deps| && Consulted(ctx, ledger, deps[i]) ==>
      Faithful(AnswerFor(ctx, ledger, deps[i]), deps[i])
  }

  lemma SuffixQuietness(suffix: seq<IrEvent>, ctx: Context, ledger: LedgerState, node: ComputationNode)
    requires NodeWellRecorded(node)
    requires forall e :: e in suffix <==> e in EmittedEvents(ctx, node, ledger)
    ensures AllFaithful(ctx, ledger, node.dependencies) <==>
            forall e :: e in suffix && e.kind.ProbeChecked? ==> Quiet(node.dependencies, ClassifyProbe(e))
  {
    hide EmittedEvents, Quiet, ClassifyProbe, Faithful, Consulted, WellRecorded, ProbeCheckedEvent;
    var deps := node.dependencies;
    EmittedReports(ctx, node, ledger);
    forall e, i | 0 <= i < |deps| && ReportsOn(e, ctx, ledger, deps[i])
      ensures Quiet(deps, ClassifyProbe(e)) <==> Faithful(AnswerFor(ctx, ledger, deps[i]), deps[i])
      ensures e.kind.ProbeChecked?
    {
      var sequence :| e == ProbeCheckedEvent(ctx, sequence, deps[i], AnswerFor(ctx, ledger, deps[i]));
      ReportQuiet(deps, i, ctx, sequence, AnswerFor(ctx, ledger, deps[i]));
      ReportKind(ctx, sequence, deps[i], AnswerFor(ctx, ledger, deps[i]));
    }
  }

  lemma ReportKind(ctx: Context, sequence: nat, dep: Dependency, answer: ProbeResult)
    ensures ProbeCheckedEvent(ctx, sequence, dep, answer).kind.ProbeChecked?
  {
  }

  /** Appending a check's own events, made after every logged instant, leaves the edges,
      conflicts and exclusions of its node unmoved exactly when every probe it consulted
      answered with a fingerprint that reads back as the recorded one, whatever trust class it
      saw and whatever the ledger adopted; and those of every other node always. What else a
      later check reads is settled where verdicts after feedback are. */
  lemma FeedbackIsQuietExactlyWhenFaithful(log: seq<IrEvent>, ctx: Context, ledger: LedgerState)
    requires forall x :: x in log ==> x.ts < ctx.now
    ensures var node := NodeOf(Order.Linearize(log), ctx.computation);
            var appended := log + EmittedEvents(ctx, node, ledger);
            && (Unmoved(node, NodeOf(Order.Linearize(appended), ctx.computation)) <==>
                AllFaithful(ctx, ledger, node.dependencies))
            && (forall comp :: comp != ctx.computation ==>
                  Unmoved(NodeOf(Order.Linearize(log), comp), NodeOf(Order.Linearize(appended), comp)))
  {
    hide NodeOf, EmittedEvents, BookedNode, MarksOf, Quiet, ClassifyProbe, AllFaithful, NodeWellRecorded, FromTheEngine;
    var node := NodeOf(Order.Linearize(log), ctx.computation);
    var later := EmittedEvents(ctx, node, ledger);
    var short, suffix := Order.Linearize(log), Order.Linearize(later);
    NodesAreWellRecorded(short, ctx.computation);
    WellRecordedNode(node);
    EmissionIsBounded(ctx, node, ledger);
    LaterThanLog(log, later, ctx);
    Order.LinearizeSorts(later);
    Order.PermutationMembers(later, suffix);
    SuffixQuietness(suffix, ctx, ledger, node);
    NodesAsBookings(log, later, ctx.computation);
    SuffixDecides(short, suffix, ctx);
    forall comp | comp != ctx.computation {
      NodesAsBookings(log, later, comp);
    }
  }

  lemma LaterThanLog(log: seq<IrEvent>, later: seq<IrEvent>, ctx: Context)
    requires forall x :: x in log ==> x.ts < ctx.now
    requires forall y :: y in later ==> FromTheEngine(y, ctx)
    ensures forall x, y :: x in log && y in later ==> x.ts < y.ts
  {
  }

  /** Canonically later engine events leave their computation unmoved exactly when all their
      reports are quiet, and never move another computation. */
  lemma SuffixDecides(short: seq<IrEvent>, suffix: seq<IrEvent>, ctx: Context)
    requires forall e :: e in suffix ==> FromTheEngine(e, ctx)
    ensures var long := short + suffix;
            var marks := MarksOf(long, ctx.computation);
            var before := BookedNode(ctx.computation, marks, |short|).0;
            Unmoved(before, BookedNode(ctx.computation, marks, |long|).0) <==>
            forall e :: e in suffix && e.kind.ProbeChecked? ==> Quiet(before.dependencies, ClassifyProbe(e))
    ensures var long := short + suffix;
            forall comp :: comp != ctx.computation ==>
              Unmoved(BookedNode(comp, MarksOf(long, comp), |short|).0, BookedNode(comp, MarksOf(long, comp), |long|).0)
  {
    hide BookedNode, MarksOf, Quiet, ClassifyProbe, FromTheEngine;
    var long := short + suffix;
    forall k | |short| <= k < |long|
      ensures MarksOf(long, ctx.computation)[k]
              == Some(Mark(long[k], if long[k].kind.ProbeChecked? then ClassifyProbe(long[k]) else Unmodeled))
      ensures forall comp :: comp != ctx.computation ==> MarksOf(long, comp)[k].None?
    {
      assert long[k] in suffix;
      SuffixMarks(long, ctx, k);
    }
    var marks := MarksOf(long, ctx.computation);
    var before := BookedNode(ctx.computation, marks, |short|).0;
    QuietRun(ctx.computation, marks, |short|, |long|);
    DiagnosticsQuiet(before.dependencies);
    SuffixByPosition(short, suffix, before.dependencies);
    forall comp | comp != ctx.computation {
      QuietRun(comp, MarksOf(long, comp), |short|, |long|);
    }
  }

  lemma WellRecordedNode(node: ComputationNode)
    requires forall d :: d in node.dependencies ==> WellRecorded(d)
    requires KeysDistinct(node.dependencies) && forall c :: c in node.conflicts ==> NamesSome(c, node.dependencies)
    ensures NodeWellRecorded(node)
  {
  }

  lemma DiagnosticsQuiet(deps: seq<Dependency>)
    ensures Quiet(deps, Unmodeled)
  {
  }

  lemma SuffixByPosition(short: seq<IrEvent>, suffix: seq<IrEvent>, deps: seq<Dependency>)
    ensures var long := short + suffix;
            (forall e :: e in suffix && e.kind.ProbeChecked? ==> Quiet(deps, ClassifyProbe(e))) <==>
            forall k :: |short| <= k < |long| && long[k].kind.ProbeChecked? ==> Quiet(deps, ClassifyProbe(long[k]))
  {
    hide Quiet, ClassifyProbe;
    var long := short + suffix;
    assert forall k :: |short| <= k < |long| ==> long[k] == suffix[k - |short|];
    if forall k :: |short| <= k < |long| && long[k].kind.ProbeChecked? ==> Quiet(deps, ClassifyProbe(long[k])) {
      forall e | e in suffix && e.kind.ProbeChecked? ensures Quiet(deps, ClassifyProbe(e)) {
        var i :| 0 <= i < |suffix| && suffix[i] == e;
        assert long[|short| + i] == e;
      }
    }
  }

  // ------------------------------------------------ many checks fed back

  /** One check, of any computation, with whatever the ledger then holds. */
  datatype Round = Round(ctx: Context, ledger: LedgerState)

  /** What one check of this log emits. */
  ghost function Emitted(log: seq<IrEvent>, round: Round): seq<IrEvent> {
    EmittedEvents(round.ctx, NodeOf(Order.Linearize(log), round.ctx.computation), round.ledger)
  }

  /** The log once the events of each of these checks have been appended in turn. */
  ghost function LogAfter(log: seq<IrEvent>, rounds: seq<Round>): seq<IrEvent> {
    if rounds == [] then log
    else
      var last := rounds[|rounds| - 1];
      var before := LogAfter(log, rounds[..|rounds| - 1]);
      before + Emitted(before, last)
  }

  /** Each check is made after every logged instant and after every earlier check. */
  ghost predicate EachLater(log: seq<IrEvent>, rounds: seq<Round>) {
    && (forall x, k :: x in log && 0 <= k < |rounds| ==> x.ts < rounds[k].ctx.now)
    && (forall j, k :: 0 <= j < k < |rounds| ==> rounds[j].ctx.now < rounds[k].ctx.now)
  }

  lemma {:induction false} InstantsInLog(log: seq<IrEvent>, rounds: seq<Round>)
    ensures forall x :: x in LogAfter(log, rounds) ==>
            x in log || exists k :: 0 <= k < |rounds| && x.ts == rounds[k].ctx.now
  {
    hide EmittedEvents, NodeOf, FromTheEngine;
    if rounds != [] {
      var n := |rounds| - 1;
      InstantsInLog(log, rounds[..n]);
      var before := LogAfter(log, rounds[..n]);
      EmissionIsBounded(rounds[n].ctx, NodeOf(Order.Linearize(before), rounds[n].ctx.computation), rounds[n].ledger);
      forall x | x in LogAfter(log, rounds)
        ensures x in log || exists k :: 0 <= k < |rounds| && x.ts == rounds[k].ctx.now {
        if x in before {
          assert forall k :: 0 <= k < n ==> rounds[..n][k] == rounds[k];
        } else {
          EngineInstant(x, rounds[n].ctx);
        }
      }
    }
  }

  lemma EngineInstant(e: IrEvent, ctx: Context)
    requires FromTheEngine(e, ctx)
    ensures e.ts == ctx.now
  {
  }

  /** Every check's consulted probes answered faithfully, judged against the original edges. */
  ghost predicate FaithfulThroughout(log: seq<IrEvent>, rounds: seq<Round>) {
    forall k :: 0 <= k < |rounds| ==>
      AllFaithful(rounds[k].ctx, rounds[k].ledger, NodeOf(Order.Linearize(log), rounds[k].ctx.computation).dependencies)
  }

  ghost predicate NothingMoved(before: seq<IrEvent>, after: seq<IrEvent>) {
    forall comp :: Unmoved(NodeOf(Order.Linearize(before), comp), NodeOf(Order.Linearize(after), comp))
  }

  lemma RoundLater(log: seq<IrEvent>, rounds: seq<Round>)
    requires EachLater(log, rounds) && rounds != []
    ensures EachLater(log, rounds[..|rounds| - 1])
    ensures forall x :: x in LogAfter(log, rounds[..|rounds| - 1]) ==> x.ts < rounds[|rounds| - 1].ctx.now
  {
    hide LogAfter;
    InstantsInLog(log, rounds[..|rounds| - 1]);
    assert forall k :: 0 <= k < |rounds| - 1 ==> rounds[..|rounds| - 1][k] == rounds[k];
  }

  lemma ExtendsAfterRound(log: seq<IrEvent>, round: Round, comp: string)
    requires forall x :: x in log ==> x.ts < round.ctx.now
    ensures Extends(NodeOf(Order.Linearize(log), comp), NodeOf(Order.Linearize(log + Emitted(log, round)), comp))
  {
    hide NodeOf, EmittedEvents, FromTheEngine;
    var later := Emitted(log, round);
    EmissionIsBounded(round.ctx, NodeOf(Order.Linearize(log), round.ctx.computation), round.ledger);
    LaterThanLog(log, later, round.ctx);
    forall x, y | x in log && y in later ensures Order.Precedes(x, y) {
      Order.LaterInstantIsLater(x, y);
    }
    LaterEventsOnlyExtend(log, later, comp);
  }

  /** Later checks only extend each node's lists. */
  lemma {:induction false} ChecksOnlyExtend(log: seq<IrEvent>, rounds: seq<Round>, comp: string)
    requires EachLater(log, rounds)
    ensures Extends(NodeOf(Order.Linearize(log), comp), NodeOf(Order.Linearize(LogAfter(log, rounds)), comp))
  {
    hide NodeOf, Emitted, Extends;
    if rounds == [] {
      ExtendsItself(NodeOf(Order.Linearize(log), comp));
    } else {
      var n := |rounds| - 1;
      var before := LogAfter(log, rounds[..n]);
      RoundLater(log, rounds);
      ChecksOnlyExtend(log, rounds[..n], comp);
      ExtendsAfterRound(before, rounds[n], comp);
      ExtendsTransitive(NodeOf(Order.Linearize(log), comp), NodeOf(Order.Linearize(before), comp),
                        NodeOf(Order.Linearize(LogAfter(log, rounds)), comp));
    }
  }

  lemma ExtendsItself(node: ComputationNode)
    ensures Extends(node, node)
  {
  }

  /** Over any number of checks, each made later than the log and than the checks before it, of
      any computations and with any ledgers, the edges, conflicts and exclusions of all nodes
      stay as they were exactly when every consulted probe answered faithfully throughout. */
  lemma {:induction false} ManyChecksAreQuiet(log: seq<IrEvent>, rounds: seq<Round>)
    requires EachLater(log, rounds)
    ensures NothingMoved(log, LogAfter(log, rounds)) <==> FaithfulThroughout(log, rounds)
  {
    hide Emitted, NodeOf, AllFaithful, NothingMoved, FaithfulThroughout;
    if rounds == [] {
      NoRounds(log, rounds);
    } else {
      var n := |rounds| - 1;
      RoundLater(log, rounds);
      ManyChecksAreQuiet(log, rounds[..n]);
      QuietUpTo(log, rounds);
    }
  }

  lemma NoRounds(log: seq<IrEvent>, rounds: seq<Round>)
    requires rounds == []
    ensures NothingMoved(log, LogAfter(log, rounds)) && FaithfulThroughout(log, rounds)
  {
  }

  lemma QuietUpTo(log: seq<IrEvent>, rounds: seq<Round>)
    requires EachLater(log, rounds) && rounds != []
    requires var init := rounds[..|rounds| - 1];
             NothingMoved(log, LogAfter(log, init)) <==> FaithfulThroughout(log, init)
    ensures NothingMoved(log, LogAfter(log, rounds)) <==> FaithfulThroughout(log, rounds)
  {
    hide NodeOf, AllFaithful, EmittedEvents, FaithfulThroughout, Extends, Unmoved;
    var n := |rounds| - 1;
    var round, before, after := rounds[n], LogAfter(log, rounds[..n]), LogAfter(log, rounds);
    RoundLater(log, rounds);
    FeedbackIsQuietExactlyWhenFaithful(before, round.ctx, round.ledger);
    FaithfulStep(log, rounds);
    forall comp
      ensures Unmoved(NodeOf(Order.Linearize(log), comp), NodeOf(Order.Linearize(after), comp)) <==>
              && Unmoved(NodeOf(Order.Linearize(log), comp), NodeOf(Order.Linearize(before), comp))
              && Unmoved(NodeOf(Order.Linearize(before), comp), NodeOf(Order.Linearize(after), comp))
      ensures Unmoved(NodeOf(Order.Linearize(log), comp), NodeOf(Order.Linearize(before), comp)) ==>
              NodeOf(Order.Linearize(before), comp).dependencies == NodeOf(Order.Linearize(log), comp).dependencies
    {
      ChecksOnlyExtend(log, rounds[..n], comp);
      ExtendsAfterRound(before, round, comp);
      MovedInTwoSteps(NodeOf(Order.Linearize(log), comp), NodeOf(Order.Linearize(before), comp),
                      NodeOf(Order.Linearize(after), comp));
    }
    var comp := round.ctx.computation;
    assert Unmoved(NodeOf(Order.Linearize(log), comp), NodeOf(Order.Linearize(after), comp)) ==>
           Unmoved(NodeOf(Order.Linearize(log), comp), NodeOf(Order.Linearize(before), comp));
  }

  lemma MovedInTwoSteps(a: ComputationNode, b: ComputationNode, c: ComputationNode)
    requires Extends(a, b) && Extends(b, c)
    ensures Unmoved(a, c) <==> Unmoved(a, b) && Unmoved(b, c)
    ensures Unmoved(a, b) ==> b.dependencies == a.dependencies
  {
  }

  lemma FaithfulStep(log: seq<IrEvent>, rounds: seq<Round>)
    requires rounds != []
    ensures var n := |rounds| - 1;
            FaithfulThroughout(log, rounds) <==>
            && FaithfulThroughout(log, rounds[..n])
            && AllFaithful(rounds[n].ctx, rounds[n].ledger,
                           NodeOf(Order.Linearize(log), rounds[n].ctx.computation).dependencies)
  {
    hide NodeOf, AllFaithful;
    var n := |rounds| - 1;
    assert forall k :: 0 <= k < n ==> rounds[..n][k] == rounds[k];
  }

  // --------------------------------------------- unfaithful answers stick

  /** A node no later check can call usable. */
  ghost predicate Tainted(node: ComputationNode) {
    node.conflicts != [] || exists x :: x in node.excluded && x.reason.IsUnprovenDependency()
  }

  lemma ExclusionTaints(events: seq<IrEvent>, comp: string, k: nat)
    requires k < |events| && OutcomeAt(events, comp, k).Some? && OutcomeAt(events, comp, k).value.Excluded?
    requires OutcomeAt(events, comp, k).value.excludedEdge.reason.IsUnprovenDependency()
    ensures Tainted(NodeOf(events, comp))
  {
    hide NodeOf, OutcomeAt;
    var x := OutcomeAt(events, comp, k).value.excludedEdge;
    ExcludedHoldsExclusions(events, comp, x);
  }

  lemma DisagreementTaints(events: seq<IrEvent>, comp: string, k: nat, first: Dependency)
    requires k < |events| && ObservationAt(events, comp, k).Some?
    requires first in NodeOf(events, comp).dependencies
    requires first.Id() == ObservationAt(events, comp, k).value.Id()
    requires Disagrees(first, ObservationAt(events, comp, k).value.dependency)
    ensures Tainted(NodeOf(events, comp))
  {
    hide NodeOf, ObservationAt, Dependency.Id, AgreeAt, Disagrees;
    var m := WhereObserved(events, comp, first);
    ConflictFreeMeansAgreement(events, comp);
    DisagreementShows(ObservationsOf(events, comp), m, k);
  }

  lemma WhereObserved(events: seq<IrEvent>, comp: string, dep: Dependency) returns (m: nat)
    requires dep in NodeOf(events, comp).dependencies
    ensures m < |events| && ObservationAt(events, comp, m).Some?
            && ObservationAt(events, comp, m).value.dependency == dep
  {
    hide NodeOf, ObservationAt, Dependency.Id;
    var obs := ObservationsOf(events, comp);
    FirstObservationWins(events, comp);
    RetainedMembers(obs, |events|);
    m :| 0 <= m < |events| && obs[m].Some? && obs[m].value.dependency == dep;
  }

  lemma DisagreementShows(obs: Observations, m: nat, k: nat)
    requires m < |obs| && k < |obs| && obs[m].Some? && obs[k].Some?
    requires obs[m].value.Id() == obs[k].value.Id() && Disagrees(obs[m].value.dependency, obs[k].value.dependency)
    ensures m != k && !AgreeAt(obs, m, k) && !AgreeAt(obs, k, m)
  {
  }

  lemma UnfaithfulReportTaints(long: seq<IrEvent>, k: nat, ctx: Context, sequence: nat, dep: Dependency,
                               answer: ProbeResult)
    requires k < |long| && FromTheEngine(long[k], ctx) && long[k] == ProbeCheckedEvent(ctx, sequence, dep, answer)
    requires WellRecorded(dep) && dep in NodeOf(long, ctx.computation).dependencies && !Faithful(answer, dep)
    ensures Tainted(NodeOf(long, ctx.computation))
  {
    hide NodeOf, ProbeCheckedEvent, ClassifyProbe, Parse, Canonical, FromSchemeKey, ArtifactPaths, Tainted,
      Fingerprint.Display;
    ReportKind(ctx, sequence, dep, answer);
    ReportOutcome(ctx, sequence, dep, answer);
    assert OutcomeAt(long, ctx.computation, k) == Some(ClassifyProbe(long[k]));
    if answer.UnknownResult? || Parse(answer.observedFp.Display()).Err? {
      ExclusionTaints(long, ctx.computation, k);
    } else {
      DisagreementTaints(long, ctx.computation, k, dep);
    }
  }

  /** If one consulted probe answers unfaithfully, be it a change or merely that it could not
      decide, appending the check's events taints the node. */
  lemma UnfaithfulAnswersTaint(log: seq<IrEvent>, ctx: Context, ledger: LedgerState)
    requires forall x :: x in log ==> x.ts < ctx.now
    requires !AllFaithful(ctx, ledger, NodeOf(Order.Linearize(log), ctx.computation).dependencies)
    ensures var later := EmittedEvents(ctx, NodeOf(Order.Linearize(log), ctx.computation), ledger);
            Tainted(NodeOf(Order.Linearize(log + later), ctx.computation))
  {
    hide NodeOf, EmittedEvents, Faithful, Consulted, WellRecorded, FromTheEngine, Tainted, ProbeCheckedEvent;
    var node := NodeOf(Order.Linearize(log), ctx.computation);
    var later := EmittedEvents(ctx, node, ledger);
    var long := Order.Linearize(log + later);
    NodesAreWellRecorded(Order.Linearize(log), ctx.computation);
    var i :| 0 <= i < |node.dependencies| && Consulted(ctx, ledger, node.dependencies[i])
             && !Faithful(AnswerFor(ctx, ledger, node.dependencies[i]), node.dependencies[i]);
    var dep := node.dependencies[i];
    var k, sequence := WhereReported(log, node, ctx, ledger, i);
    assert dep in node.dependencies;
    UnfaithfulReportTaints(long, k, ctx, sequence, dep, AnswerFor(ctx, ledger, dep));
  }

  lemma WhereReported(log: seq<IrEvent>, node: ComputationNode, ctx: Context, ledger: LedgerState, i: nat)
    returns (k: nat, sequence: nat)
    requires forall x :: x in log ==> x.ts < ctx.now
    requires node == NodeOf(Order.Linearize(log), ctx.computation) && KeysDistinct(node.dependencies)
    requires i < |node.dependencies| && Consulted(ctx, ledger, node.dependencies[i])
    ensures var long := Order.Linearize(log + EmittedEvents(ctx, node, ledger));
            && k < |long| && FromTheEngine(long[k], ctx)
            && long[k] == ProbeCheckedEvent(ctx, sequence, node.dependencies[i],
                                            AnswerFor(ctx, ledger, node.dependencies[i]))
            && node.dependencies[i] in NodeOf(long, ctx.computation).dependencies
  {
    hide NodeOf, EmittedEvents, Consulted, FromTheEngine, ProbeCheckedEvent, KeysDistinct;
    var later := EmittedEvents(ctx, node, ledger);
    var long := Order.Linearize(log + later);
    EmittedReports(ctx, node, ledger);
    EmissionIsBounded(ctx, node, ledger);
    var e :| e in later && ReportsOn(e, ctx, ledger, node.dependencies[i]);
    sequence :| e
      == ProbeCheckedEvent(ctx, sequence, node.dependencies[i], AnswerFor(ctx, ledger, node.dependencies[i]));
    k := WhereLinearized(log + later, e);
    StillDependsOn(log, later, ctx, i);
  }

  lemma WhereLinearized(log: seq<IrEvent>, e: IrEvent) returns (k: nat)
    requires e in log
    ensures k < |Order.Linearize(log)| && Order.Linearize(log)[k] == e
  {
    Order.LinearizeSorts(log);
    Order.PermutationMembers(log, Order.Linearize(log));
    k :| 0 <= k < |Order.Linearize(log)| && Order.Linearize(log)[k] == e;
  }

  lemma StillDependsOn(log: seq<IrEvent>, later: seq<IrEvent>, ctx: Context, i: nat)
    requires forall x :: x in log ==> x.ts < ctx.now
    requires forall y :: y in later ==> FromTheEngine(y, ctx)
    requires i < |NodeOf(Order.Linearize(log), ctx.computation).dependencies|
    ensures NodeOf(Order.Linearize(log), ctx.computation).dependencies[i]
            in NodeOf(Order.Linearize(log + later), ctx.computation).dependencies
  {
    hide NodeOf, FromTheEngine;
    LaterThanLog(log, later, ctx);
    forall x, y | x in log && y in later ensures Order.Precedes(x, y) {
      Order.LaterInstantIsLater(x, y);
    }
    LaterEventsOnlyExtend(log, later, ctx.computation);
    var after := NodeOf(Order.Linearize(log + later), ctx.computation).dependencies;
    assert after[i] in after;
  }

  /** A taint outlasts whatever canonically later events follow. */
  lemma TaintOutlasts(log: seq<IrEvent>, round: Round, later: seq<IrEvent>)
    requires forall x :: x in log ==> x.ts < round.ctx.now
    requires !AllFaithful(round.ctx, round.ledger, NodeOf(Order.Linearize(log), round.ctx.computation).dependencies)
    requires forall x, y :: x in log + Emitted(log, round) && y in later ==> Order.Precedes(x, y)
    ensures Tainted(NodeOf(Order.Linearize(log + Emitted(log, round) + later), round.ctx.computation))
  {
    hide NodeOf, EmittedEvents, AllFaithful, Tainted, Extends;
    var appended, comp := log + Emitted(log, round), round.ctx.computation;
    UnfaithfulAnswersTaint(log, round.ctx, round.ledger);
    LaterEventsOnlyExtend(appended, later, comp);
    TaintExtends(NodeOf(Order.Linearize(appended), comp), NodeOf(Order.Linearize(appended + later), comp));
  }

  /** Unfaithful answers stick. Once a check in which some probe answered unfaithfully has been
      appended, no later check of an artifact of that computation yields a usable certificate,
      whatever canonically later events follow, whatever the probes then answer and whatever
      the ledger holds. A single transient `unknown` is enough. */
  lemma UnfaithfulAnswersStick(log: seq<IrEvent>, round: Round, later: seq<IrEvent>, graph: DerivedGraph,
                               manifests: Manifests,
                               regs: Registrations, ledger: LedgerState, maxTtl: nat, now: Instant, world: World,
                                 artifact: string)
    requires forall x :: x in log ==> x.ts < round.ctx.now
    requires !AllFaithful(round.ctx, round.ledger, NodeOf(Order.Linearize(log), round.ctx.computation).dependencies)
    requires forall x, y :: x in log + Emitted(log, round) && y in later ==> Order.Precedes(x, y)
    requires Replayed(log + Emitted(log, round) + later, graph, manifests)
    requires Sole(Claimants(graph, artifact), round.ctx.computation)
    ensures var outcome := Checked(log + Emitted(log, round) + later, graph, regs, ledger, maxTtl, now, world,
                                   artifact).0;
            outcome.Ok? ==> !outcome.value.certificate.status.IsUsable()
  {
    hide NodeOf, Emitted, AllFaithful, IsReplayOf, Tainted, Checked, TrueStatus, EmittedEvents, Claimants;
    var full := log + Emitted(log, round) + later;
    TaintOutlasts(log, round, later);
    ClaimantsAreComputations(graph, artifact, round.ctx.computation);
    NodeIsReplayed(full, graph, manifests, round.ctx.computation);
    TaintedIsUnusable(full, graph, Context(round.ctx.computation, now, regs, maxTtl, world), ledger);
    if Checked(full, graph, regs, ledger, maxTtl, now, world, artifact).0.Ok? {
      CertificateIsTrue(full, graph, manifests, regs, ledger, maxTtl, now, world, artifact);
    }
  }

  lemma TaintExtends(before: ComputationNode, after: ComputationNode)
    requires Extends(before, after) && Tainted(before)
    ensures Tainted(after)
  {
    if x :| x in before.excluded && x.reason.IsUnprovenDependency() {
      var i :| 0 <= i < |before.excluded| && before.excluded[i] == x;
      assert after.excluded[i] == x;
    }
  }

  lemma TaintedIsUnusable(log: seq<IrEvent>, graph: DerivedGraph, ctx: Context, ledger: LedgerState)
    requires ctx.computation in graph.computations && Tainted(graph.computations[ctx.computation])
    ensures !TrueStatus(log, graph, ctx, ledger).IsUsable()
  {
    hide SomeDrift, AllSupported, AllStrong, RecordedEvents, CoverageFor, AttributionOf, RecipeOf, IsSubprocessTool;
  }
}

/** The edges of one check, evaluated in turn over one ledger, and what conflicts do to
    them. */
module CheckedEdges {
  import opened Primitives
  import opened Wrappers
  import opened Dependencies
  import opened Ir
  import opened Coverage
  import opened Graph
  import opened Seal
  import opened TrustLedgers
  import opened Edges
  import opened EdgeTheorems
  import opened Engine
  import opened RecordedEdges
  import opened Identifiers

  // ------------------------------------------- edges do not interfere

  lemma AgreeOnTransitive(a: LedgerState, b: LedgerState, c: LedgerState, key: string)
    requires AgreeOn(a, b, key) && AgreeOn(b, c, key)
    ensures AgreeOn(a, c, key)
  {
  }

  lemma {:induction false} RunIsLocal(ctx: Context, deps: seq<Dependency>, ledger: LedgerState, n: nat, key: string)
    requires n <= |deps|
    requires forall j :: 0 <= j < n ==> deps[j].key != key
    ensures AgreeOn(ledger, EdgesEvaluated(ctx, deps, ledger, n).ledger, key)
  {
    hide Evaluated;
    if n > 0 {
      var run := EdgesEvaluated(ctx, deps, ledger, n - 1);
      RunIsLocal(ctx, deps, ledger, n - 1, key);
      EvaluationIsLocal(ctx, run.ledger, deps[n - 1], run.sequence, key);
      AgreeOnTransitive(ledger, run.ledger, EdgesEvaluated(ctx, deps, ledger, n).ledger, key);
    }
  }

  /** The outcome of an edge on its own, against the ledger the check started with. */
  ghost function OwnOutcome(ctx: Context, ledger: LedgerState, dep: Dependency): EdgeOutcome {
    Evaluated(ctx, ledger, dep, 0).outcome
  }

  /** Although the edges are evaluated one after the other over one changing ledger, no edge
      influences another: each gets the outcome it would get alone. */
  lemma {:induction false} EdgesAreIndependent(ctx: Context, deps: seq<Dependency>, ledger: LedgerState, n: nat)
    requires n <= |deps| && KeysDistinct(deps)
    ensures forall i :: 0 <= i < n ==> EdgesEvaluated(ctx, deps, ledger, n).edges[i] == OwnOutcome(ctx, ledger, deps[i])
  {
    hide Evaluated;
    if n > 0 {
      EdgesAreIndependent(ctx, deps, ledger, n - 1);
      var run := EdgesEvaluated(ctx, deps, ledger, n - 1);
      RunIsLocal(ctx, deps, ledger, n - 1, deps[n - 1].key);
      OutcomeReadsOneKey(ctx, ledger, run.ledger, deps[n - 1], 0, run.sequence);
    }
  }

  // --------------------------------------------------------- conflicts

  predicate Conflicted(conflicts: seq<EdgeConflict>, key: string) {
    exists i :: 0 <= i < |conflicts| && conflicts[i].dependency == key
  }

  predicate EdgeKeysDistinct(edges: seq<EdgeOutcome>) {
    forall i, j :: 0 <= i < j < |edges| ==> edges[i].dependency.key != edges[j].dependency.key
  }

  predicate NamesEdge(edges: seq<EdgeOutcome>, key: string) {
    exists i :: 0 <= i < |edges| && edges[i].dependency.key == key
  }

  /** Exactly when conflicts can all be applied: when each names an edge. Then precisely the
      conflicted edges are forced to undecided and the others are untouched. */
  lemma {:induction false} ConflictsReachTheirEdges(edges: seq<EdgeOutcome>, conflicts: seq<EdgeConflict>)
    requires EdgeKeysDistinct(edges)
    ensures ConflictsApplied(edges, conflicts).Some? <==>
            forall i :: 0 <= i < |conflicts| ==> NamesEdge(edges, conflicts[i].dependency)
    ensures ConflictsApplied(edges, conflicts).Some? ==>
              forall i :: 0 <= i < |edges| ==>
                ConflictsApplied(edges, conflicts).value[i]
                == if Conflicted(conflicts, edges[i].dependency.key) then Overridden(edges[i]) else edges[i]
  {
    hide IndexOfKey;
    if conflicts != [] {
      var last := |conflicts| - 1;
      ConflictsReachTheirEdges(edges, conflicts[..last]);
      assert forall i :: 0 <= i < last ==> conflicts[..last][i] == conflicts[i];
      match ConflictsApplied(edges, conflicts[..last])
      case None =>
      case Some(earlier) =>
        var key := conflicts[last].dependency;
        assert forall k :: Conflicted(conflicts, k) <==> Conflicted(conflicts[..last], k) || k == key;
        var i := IndexOfKey(earlier, key);
        assert forall j :: 0 <= j < |edges| ==> earlier[j].dependency == edges[j].dependency;
        assert i < |earlier| ==> NamesEdge(edges, key);
        assert NamesEdge(edges, key) ==> i < |earlier|;
    }
  }

  // ------------------------------------------------------------- events

  /** Events are numbered from `from`: the `k`-th carries the identifier of the `k`-th
      sequence number, which saturates at 65535. */
  predicate Numbered(events: seq<IrEvent>, now: Instant, from: nat) {
    forall k :: 0 <= k < |events| ==> events[k].eventId == EngineEventId(now, SequenceAfter(from, k))
  }

  /** The producer version the engine's own events carry. */
  function EngineKey(): ProducerKey {
    ProducerKey(ENGINE_PRODUCER, ENGINE_VERSION)
  }

  predicate FromTheEngine(e: IrEvent, ctx: Context) {
    && KeyOfEvent(e) == EngineKey() && e.computationId == Some(ctx.computation) && e.ts == ctx.now
    && (e.kind.ProbeChecked? || e.kind.Diagnostic?)
  }

  lemma NumberedConcat(a: seq<IrEvent>, b: seq<IrEvent>, now: Instant, from: nat)
    requires from <= 0xFFFF
    requires Numbered(a, now, from) && Numbered(b, now, SequenceAfter(from, |a|))
    ensures Numbered(a + b, now, from)
  {
    hide EngineEventId;
    forall k | |a| <= k < |a + b| ensures (a + b)[k].eventId == EngineEventId(now, SequenceAfter(from, k)) {
      assert (a + b)[k] == b[k - |a|];
      assert SequenceAfter(SequenceAfter(from, |a|), k - |a|) == SequenceAfter(from, k);
    }
  }

  lemma StepNumbered(ctx: Context, ledger: LedgerState, dep: Dependency, sequence: nat)
    requires sequence <= 0xFFFF
    ensures var events := Evaluated(ctx, ledger, dep, sequence).events;
            && |events| <= 2
            && Numbered(events, ctx.now, sequence)
            && forall i :: 0 <= i < |events| ==> FromTheEngine(events[i], ctx)
  {
    hide EngineEventId, LedgerAfter, SelectionOf, VolatileVerdict, ProbedVerdict, Unprobed, GateOpen, ProbeGone;
  }

  lemma {:induction false} RunNumbered(ctx: Context, deps: seq<Dependency>, ledger: LedgerState, n: nat)
    requires n <= |deps|
    ensures var run := EdgesEvaluated(ctx, deps, ledger, n);
            && |run.events| <= 2 * n
            && run.sequence == SequenceAfter(0, |run.events|)
            && Numbered(run.events, ctx.now, 0)
            && forall i :: 0 <= i < |run.events| ==> FromTheEngine(run.events[i], ctx)
  {
    hide Evaluated, EngineEventId;
    if n > 0 {
      RunNumbered(ctx, deps, ledger, n - 1);
      var run := EdgesEvaluated(ctx, deps, ledger, n - 1);
      StepNumbered(ctx, run.ledger, deps[n - 1], run.sequence);
      NumberedConcat(run.events, Evaluated(ctx, run.ledger, deps[n - 1], run.sequence).events, ctx.now, 0);
    }
  }

  lemma {:induction false} ConflictsNumbered(ctx: Context, conflicts: seq<EdgeConflict>, sequence: nat)
    requires sequence <= 0xFFFF
    ensures var events := ConflictEvents(ctx, conflicts, sequence);
            && |events| == |conflicts|
            && Numbered(events, ctx.now, sequence)
            && forall i :: 0 <= i < |events| ==> FromTheEngine(events[i], ctx)
  {
    hide EngineEventId;
    if conflicts != [] {
      ConflictsNumbered(ctx, conflicts[..|conflicts| - 1], sequence);
    }
  }

  /** The events one check emits. */
  ghost function EmittedEvents(ctx: Context, node: ComputationNode, ledger: LedgerState): seq<IrEvent> {
    var run := EdgesEvaluated(ctx, node.dependencies, ledger, |node.dependencies|);
    run.events + ConflictEvents(ctx, node.conflicts, run.sequence)
  }

  /** One check emits at most two events per dependency and one per conflict. Their
      identifiers are pairwise distinct exactly when there are at most 4096 of them, and
      then they increase in the order of emission. */
  lemma EmissionIsBounded(ctx: Context, node: ComputationNode, ledger: LedgerState)
    ensures var events := EmittedEvents(ctx, node, ledger);
            && |events| <= 2 * |node.dependencies| + |node.conflicts|
            && (forall e :: e in events ==> FromTheEngine(e, ctx))
            && ((forall i, j :: 0 <= i < j < |events| ==> events[i].eventId != events[j].eventId) <==> |events| <= 4096)
            && (|events| <= 4096 ==> forall i, j :: 0 <= i < j < |events| ==> events[i].eventId < events[j].eventId)
  {
    hide EngineEventId, EdgesEvaluated, ConflictEvents, EngineIdBytes;
    var events := EmittedEvents(ctx, node, ledger);
    var run := EdgesEvaluated(ctx, node.dependencies, ledger, |node.dependencies|);
    RunNumbered(ctx, node.dependencies, ledger, |node.dependencies|);
    ConflictsNumbered(ctx, node.conflicts, run.sequence);
    NumberedConcat(run.events, ConflictEvents(ctx, node.conflicts, run.sequence), ctx.now, 0);
    if |events| <= 4096 {
      forall i, j | 0 <= i < j < |events| ensures events[i].eventId < events[j].eventId {
        EngineIdsOrdered(ctx.now, i, j);
      }
    } else {
      EngineIdCollisions(ctx.now, 0, ctx.now, 4096);
      assert events[0].eventId == events[4096].eventId;
    }
  }
}

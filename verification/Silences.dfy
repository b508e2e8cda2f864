/** What the absence of events of a kind is taken to mean for a computation, and how that
    answer compares with the rule that decides whether a producer discharges an observation
    obligation. */
module Silences {
  import opened Wrappers
  import opened Ir
  import opened Coverage
  import opened Graph
  import opened ReverseIndex
  import opened Replays
  import Order

  datatype SilenceMeaning = Unobserved | PartiallyObserved(notes: set<PartialCoverage>) | ObservedAbsent

  /** Interpret the absence of a kind. Admissions are looked up under the kind's own name. */
  function InterpretSilence(c: ComputationCoverage, kind: EventKind): SilenceMeaning {
    if c.lookup.unregistered != {} || !CoveredBySome(c.lookup.entries, kind) then Unobserved
    else if NotesAt(c.partialNotes, kind.Wire()) != {} then PartiallyObserved(NotesAt(c.partialNotes, kind.Wire()))
    else ObservedAbsent
  }

  /** None if the computation is unknown or is not silent about the kind. */
  function Silence(graph: DerivedGraph, comp: string, kind: EventKind): Option<SilenceMeaning> {
    if comp !in graph.computations || graph.computations[comp].kindCounts[kind] > 0 then None
    else if comp !in graph.attribution then Some(Unobserved)
    else Some(InterpretSilence(graph.attribution[comp], kind))
  }

  // -------------------------------------------------- read off the log

  predicate HasEvents(log: seq<IrEvent>, comp: string) {
    exists e :: e in log && e.computationId == Some(comp)
  }

  predicate HasKind(log: seq<IrEvent>, comp: string, kind: EventKind) {
    exists e :: e in log && e.computationId == Some(comp) && e.kind == kind
  }

  /** The manifests in force for the producers of a computation. */
  function Contributing(log: seq<IrEvent>, manifests: Manifests, comp: string): set<CoverageManifest> {
    set k | k in ProducersOf(log, comp) && k in manifests :: manifests[k]
  }

  predicate AllRegistered(log: seq<IrEvent>, manifests: Manifests, comp: string) {
    ProducersOf(log, comp) <= manifests.Keys
  }

  /** Some contributor admits to something under the kind's own name. */
  predicate AdmitsByName(contributing: set<CoverageManifest>, kind: EventKind) {
    exists c :: c in contributing && kind.Wire() in c.partials
  }

  /** Some contributor discharges observation obligations for the kind. */
  predicate Discharged(contributing: set<CoverageManifest>, kind: EventKind) {
    exists c :: c in contributing && c.Discharges(kind)
  }

  lemma {:induction false} KindIsCounted(events: seq<IrEvent>, artifacts: seq<ArtifactAt>, comp: string,
                                         kind: EventKind, n: nat)
    requires n <= |events|
    ensures ProgressAfter(events, artifacts, comp, n).node.kindCounts[kind] > 0 <==>
            HasKind(events[..n], comp, kind)
  {
    hide Classify;
    if n > 0 {
      KindIsCounted(events, artifacts, comp, kind, n - 1);
      HasKindSnoc(events, comp, kind, n - 1);
    }
  }

  lemma HasKindSnoc(events: seq<IrEvent>, comp: string, kind: EventKind, n: nat)
    requires n < |events|
    ensures HasKind(events[..n + 1], comp, kind) <==>
            HasKind(events[..n], comp, kind) || (events[n].computationId == Some(comp) && events[n].kind == kind)
  {
    assert events[..n + 1] == events[..n] + [events[n]];
    assert events[n] in events[..n + 1];
  }

  lemma SameProducers(a: seq<IrEvent>, b: seq<IrEvent>, comp: string)
    requires forall e :: e in a <==> e in b
    ensures ProducersOf(a, comp) == ProducersOf(b, comp)
    ensures HasEvents(a, comp) <==> HasEvents(b, comp)
    ensures forall kind :: HasKind(a, comp, kind) <==> HasKind(b, comp, kind)
  {
    hide KeyOfEvent;
  }

  /** What a replayed graph knows of a computation, said of the log. */
  lemma ReplayedCoverage(graph: DerivedGraph, log: seq<IrEvent>, manifests: Manifests, comp: string, kind: EventKind)
    requires IsReplayOf(graph, log, manifests)
    ensures comp in graph.computations <==> HasEvents(log, comp)
    ensures comp in graph.computations ==>
              && (graph.computations[comp].kindCounts[kind] > 0 <==> HasKind(log, comp, kind))
              && comp in graph.attribution
              && (graph.attribution[comp].lookup.unregistered == {} <==> AllRegistered(log, manifests, comp))
              && graph.attribution[comp].lookup.entries == Contributing(log, manifests, comp)
              && NotesAt(graph.attribution[comp].partialNotes, kind.Wire())
                 == NotesFor(Contributing(log, manifests, comp), kind.Wire())
  {
    hide ProgressAfter, Agrees, NotesOf, NotesFor, NotesAt, ProducersOf, HasKind, Order.AreFindings, DivergentDefects,
      DefectsOf;
    var events := Order.Linearize(log);
    Order.LinearizeSorts(log);
    Order.PermutationMembers(log, events);
    SameProducers(log, events, comp);
    if comp in graph.computations {
      KindIsCounted(events, ArtifactPaths(events), comp, kind, |events|);
      assert events[..|events|] == events;
      NotesMeaning(Contributing(log, manifests, comp), kind.Wire());
      UnregisteredMeaning(manifests, ProducersOf(events, comp));
    }
  }

  lemma UnregisteredMeaning(manifests: Manifests, keys: set<ProducerKey>)
    ensures LookupOf(manifests, keys).unregistered == {} <==> keys <= manifests.Keys
  {
    assert forall k :: k in keys && k !in manifests ==> k in LookupOf(manifests, keys).unregistered;
  }

  /** The meaning of a silence, read off the log and the manifests. It is uninterpretable when a
      contributor is unregistered or none covers the kind; evidence of absence when all are
      registered, one covers it and none admits anything under its name; and suspect with
      exactly the admissions made under that name otherwise. */
  lemma SilenceReadsTheLog(graph: DerivedGraph, log: seq<IrEvent>, manifests: Manifests, comp: string,
                           kind: EventKind)
    requires IsReplayOf(graph, log, manifests)
    ensures var silence, contributing := Silence(graph, comp, kind), Contributing(log, manifests, comp);
            && (silence == None <==> !HasEvents(log, comp) || HasKind(log, comp, kind))
            && (silence.Some? ==>
                && (silence == Some(Unobserved) <==>
                      !AllRegistered(log, manifests, comp) || !CoveredBySome(contributing, kind))
                && (silence == Some(ObservedAbsent) <==>
                      && AllRegistered(log, manifests, comp) && CoveredBySome(contributing, kind)
                      && !AdmitsByName(contributing, kind))
                && (silence.value.PartiallyObserved? ==>
                      silence.value.notes == NotesFor(contributing, kind.Wire())))
  {
    hide IsReplayOf, HasEvents, HasKind, AllRegistered, Contributing, CoveredBySome, NotesFor, AdmitsByName, NotesAt;
    ReplayedCoverage(graph, log, manifests, comp, kind);
    NamedNotes(Contributing(log, manifests, comp), kind);
  }

  lemma NamedNotes(contributing: set<CoverageManifest>, kind: EventKind)
    ensures NotesFor(contributing, kind.Wire()) != {} <==> AdmitsByName(contributing, kind)
  {
    hide EventKind.Wire;
    if c :| c in contributing && kind.Wire() in c.partials {
      assert c.partials[kind.Wire()] in NotesFor(contributing, kind.Wire());
    }
  }

  // ------------------------------------- two rules for the same silence

  /** An admission under a wildcard reaches the kind and errs in the unsafe direction. */
  predicate BlindByFamily(c: CoverageManifest, kind: EventKind) {
    exists pattern :: pattern in c.partials && pattern != kind.Wire() && PatternMatches(pattern, kind)
                      && !c.partials[pattern].Discharges()
  }

  lemma DischargesByFamily(c: CoverageManifest, kind: EventKind)
    requires kind.Wire() !in c.partials
    ensures c.Discharges(kind) <==> c.Covers(kind) && !BlindByFamily(c, kind)
  {
    hide EventKind.Wire, PatternMatches;
  }

  /** The store's reading of a silence looks admissions up by the kind's own name; the rule for
      discharging obligations honours every matching pattern. So absence is claimed although no
      contributor could discharge the kind exactly when the computation is silent, all its
      producers are registered, some cover the kind, none admits anything under its name, and
      every one that covers it is blind under a wildcard. Conversely an absence some contributor
      could vouch for is withheld exactly when a producer is unregistered or one admits anything
      under the name, in whichever direction. */
  lemma AbsenceIsOverstatedExactlyWhen(graph: DerivedGraph, log: seq<IrEvent>, manifests: Manifests, comp: string,
                                       kind: EventKind)
    requires IsReplayOf(graph, log, manifests)
    ensures var silence, contributing := Silence(graph, comp, kind), Contributing(log, manifests, comp);
            && (silence == Some(ObservedAbsent) && !Discharged(contributing, kind) <==>
                  && HasEvents(log, comp) && !HasKind(log, comp, kind)
                  && AllRegistered(log, manifests, comp) && CoveredBySome(contributing, kind)
                  && !AdmitsByName(contributing, kind)
                  && forall c :: c in contributing && c.Covers(kind) ==> BlindByFamily(c, kind))
            && (silence.Some? && silence != Some(ObservedAbsent) && Discharged(contributing, kind) <==>
                  && HasEvents(log, comp) && !HasKind(log, comp, kind) && Discharged(contributing, kind)
                  && (!AllRegistered(log, manifests, comp) || AdmitsByName(contributing, kind)))
  {
    hide IsReplayOf, Silence, HasEvents, HasKind, AllRegistered, Contributing, BlindByFamily, PatternMatches,
      CoverageEntry.Discharges, CoverageEntry.Covers, EventKind.Wire, NotesFor;
    SilenceReadsTheLog(graph, log, manifests, comp, kind);
    forall c | c in Contributing(log, manifests, comp)
      ensures c.Discharges(kind) ==> c.Covers(kind)
      ensures !AdmitsByName(Contributing(log, manifests, comp), kind) ==>
                (c.Discharges(kind) <==> c.Covers(kind) && !BlindByFamily(c, kind))
    {
      DischargesMeansCovers(c, kind);
      if !AdmitsByName(Contributing(log, manifests, comp), kind) {
        DischargesByFamily(c, kind);
      }
    }
  }

  lemma DischargesMeansCovers(c: CoverageManifest, kind: EventKind)
    ensures c.Discharges(kind) ==> c.Covers(kind)
  {
  }

  // ------------------------------------------------------- an example

  /** An observer of the file system that admits to missing whole families of events. */
  function Watcher(): CoverageManifest {
    CoverageEntry("watch", "1", Observer, ["fs.*"], map["fs.*" := PartialCoverage(BlindInScope, "no subprocesses")])
  }

  function WatchedStart(): IrEvent {
    IrEvent(1, "watch", "1", "session", Some("build"), None, None, 0, ComputationStarted, Object(map[]), NotDecoded)
  }

  lemma WatcherFacts()
    ensures Watcher().Covers(FsRead) && BlindByFamily(Watcher(), FsRead) && FsRead.Wire() !in Watcher().partials
  {
    assert PatternMatches("fs.*", FsRead) by {
      assert "fs.*"[2..] == ".*" && "fs.*"[..2] == "fs";
    }
    assert Watcher().emits[0] == "fs.*" && "fs.*" in Watcher().partials;
    assert "fs.*" != FsRead.Wire() by {
      assert |"fs.*"| != |FsRead.Wire()|;
    }
  }

  /** The overstatement happens: this observer's silence about reads is taken as evidence that
      nothing was read, although it does not discharge reads. */
  lemma SilenceCanBeOverstated(graph: DerivedGraph)
    requires IsReplayOf(graph, [WatchedStart()], map[ProducerKey("watch", "1") := Watcher()])
    ensures Silence(graph, "build", FsRead) == Some(ObservedAbsent)
    ensures !Watcher().DischargesSubprocessObligation()
  {
    hide IsReplayOf, CoverageEntry.Covers, BlindByFamily, Watcher, EventKind.Wire, Silence;
    var log, manifests := [WatchedStart()], map[ProducerKey("watch", "1") := Watcher()];
    WatcherFacts();
    DischargesByFamily(Watcher(), FsRead);
    SilenceReadsTheLog(graph, log, manifests, "build", FsRead);
    assert WatchedStart() in log;
    assert ProducersOf(log, "build") == {ProducerKey("watch", "1")};
    assert Contributing(log, manifests, "build") == {Watcher()};
  }
}

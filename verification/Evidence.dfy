/** What complete evidence is, said of the log and the registered manifests alone. */
module Evidence {
  import opened Wrappers
  import opened Ir
  import opened Coverage
  import opened Graph
  import opened Replays
  import opened Engine
  import opened Provenance
  import opened EngineTheorems
  import opened FeedbackVerdicts
  import opened LogOrder
  import opened Classifications
  import Order

  // ------------------------------------------------------------ patterns

  /** The one dot of a two-part name. */
  lemma DotPlace(family: string, name: string)
    requires '.' !in family && '.' !in name
    ensures var wire := family + "." + name;
            && |wire| == |family| + 1 + |name| && wire[..|family|] == family
            && (forall i :: 0 <= i < |wire| ==> (wire[i] == '.' <==> i == |family|))
  {
    var wire := family + "." + name;
    assert forall i :: 0 <= i < |family| ==> wire[i] == family[i];
    assert forall i :: |family| < i < |wire| ==> wire[i] == name[i - |family| - 1];
  }

  /** A pattern reaches a kind by its own name, or by its family and a wildcard. */
  lemma FamilyOrName(family: string, name: string, pattern: string, kind: EventKind)
    requires kind.Wire() == family + "." + name && '.' !in family && '.' !in name
    requires name != "" && name[|name| - 1] != '*'
    ensures PatternMatches(pattern, kind) <==> pattern == family + "." + name || pattern == family + ".*"
  {
    hide EventKind.Wire;
    var wire := kind.Wire();
    DotPlace(family, name);
    assert wire[|wire| - 1] == name[|name| - 1];
    if |pattern| >= 2 && pattern[|pattern| - 2..] == ".*" {
      var prefix := pattern[..|pattern| - 2];
      assert pattern == prefix + ".*" && pattern[|pattern| - 1] == '*';
      assert pattern == family + ".*" <==> prefix == family by {
        assert (family + ".*")[..|family| + 2 - 2] == family;
      }
    } else {
      assert (family + ".*")[|family| + 2 - 2..] == ".*";
    }
  }

  /** The ten kinds of effect: their names and their families' wildcards. */
  function EffectPatterns(kind: EventKind): Option<(string, string)> {
    match kind
    case FsRead => Some(("fs.read", "fs.*"))
    case FsWrite => Some(("fs.write", "fs.*"))
    case FsStat => Some(("fs.stat", "fs.*"))
    case FsRename => Some(("fs.rename", "fs.*"))
    case FsUnlink => Some(("fs.unlink", "fs.*"))
    case FsDirlist => Some(("fs.dirlist", "fs.*"))
    case ProcSpawn => Some(("proc.spawn", "proc.*"))
    case ProcExit => Some(("proc.exit", "proc.*"))
    case NetConnect => Some(("net.connect", "net.*"))
    case NetFetch => Some(("net.fetch", "net.*"))
    case _ => None
  }

  lemma ContentPatterns(pattern: string, kind: EventKind)
    requires kind in [FsRead, FsWrite, FsStat]
    ensures EffectPatterns(kind).Some?
    ensures PatternMatches(pattern, kind) <==>
            pattern == EffectPatterns(kind).value.0 || pattern == EffectPatterns(kind).value.1
  {
    hide PatternMatches;
    match kind
    case FsRead => FamilyOrName("fs", "read", pattern, kind);
    case FsWrite => FamilyOrName("fs", "write", pattern, kind);
    case _ => FamilyOrName("fs", "stat", pattern, kind);
  }

  lemma NamePatterns(pattern: string, kind: EventKind)
    requires kind in [FsRename, FsUnlink, FsDirlist]
    ensures EffectPatterns(kind).Some?
    ensures PatternMatches(pattern, kind) <==>
            pattern == EffectPatterns(kind).value.0 || pattern == EffectPatterns(kind).value.1
  {
    hide PatternMatches;
    match kind
    case FsRename => FamilyOrName("fs", "rename", pattern, kind);
    case FsUnlink => FamilyOrName("fs", "unlink", pattern, kind);
    case _ => FamilyOrName("fs", "dirlist", pattern, kind);
  }

  lemma OtherPatterns(pattern: string, kind: EventKind)
    requires kind in [ProcSpawn, ProcExit, NetConnect, NetFetch]
    ensures EffectPatterns(kind).Some?
    ensures PatternMatches(pattern, kind) <==>
            pattern == EffectPatterns(kind).value.0 || pattern == EffectPatterns(kind).value.1
  {
    hide PatternMatches;
    match kind
    case ProcSpawn => FamilyOrName("proc", "spawn", pattern, kind);
    case ProcExit => FamilyOrName("proc", "exit", pattern, kind);
    case NetConnect => FamilyOrName("net", "connect", pattern, kind);
    case _ => FamilyOrName("net", "fetch", pattern, kind);
  }

  /** The manifest declares the kind, by name or by family. */
  predicate Declares(c: CoverageManifest, kind: EventKind) {
    EffectPatterns(kind).Some?
      && (EffectPatterns(kind).value.0 in c.emits || EffectPatterns(kind).value.1 in c.emits)
  }

  lemma EffectsAndPatterns(c: CoverageManifest, kind: EventKind)
    ensures IsEffectKind(kind) <==> EffectPatterns(kind).Some?
    ensures IsEffectKind(kind) ==> (c.Covers(kind) <==> Declares(c, kind))
  {
    hide PatternMatches;
    if IsEffectKind(kind) {
      forall i | 0 <= i < |c.emits|
        ensures PatternMatches(c.emits[i], kind) <==>
                c.emits[i] == EffectPatterns(kind).value.0 || c.emits[i] == EffectPatterns(kind).value.1 {
        if kind in [FsRead, FsWrite, FsStat] {
          ContentPatterns(c.emits[i], kind);
        } else if kind in [FsRename, FsUnlink, FsDirlist] {
          NamePatterns(c.emits[i], kind);
        } else {
          OtherPatterns(c.emits[i], kind);
        }
      }
    }
  }

  /** An observer that declares file reads and admits, about them, only to seeing too much. */
  predicate Watches(c: CoverageManifest) {
    && c.role.Observer?
    && ("fs.read" in c.emits || "fs.*" in c.emits)
    && forall pattern :: pattern in c.partials && (pattern == "fs.read" || pattern == "fs.*") ==>
         c.partials[pattern].reason == OverApproximates
  }

  lemma WatchesMeaning(c: CoverageManifest)
    ensures Watches(c) <==> c.DischargesSubprocessObligation()
  {
    hide PatternMatches;
    EffectsAndPatterns(c, FsRead);
    forall pattern ensures PatternMatches(pattern, FsRead) <==> pattern == "fs.read" || pattern == "fs.*" {
      ContentPatterns(pattern, FsRead);
    }
  }

  // ------------------------------------------------- complete evidence

  function ProducerOf(e: IrEvent): ProducerKey {
    ProducerKey(e.producer, e.producerVersion)
  }

  /** The manifest in force for the producer of one of the computation's events. */
  predicate Contributes(log: seq<IrEvent>, manifests: Manifests, comp: string, c: CoverageManifest) {
    exists e :: e in log && e.computationId == Some(comp) && ProducerOf(e) in manifests && manifests[ProducerOf(e)] == c
  }

  /** Every contributor is registered. */
  predicate AllKnown(log: seq<IrEvent>, manifests: Manifests, comp: string) {
    forall e :: e in log && e.computationId == Some(comp) ==> ProducerOf(e) in manifests
  }

  /** No event of the computation leaves a dependency in doubt. */
  ghost predicate NothingInDoubt(log: seq<IrEvent>, comp: string) {
    forall n :: 0 <= n < |Order.Linearize(log)| ==> !LeavesADoubt(Order.Linearize(log), comp, n)
  }

  ghost predicate SomeContributorDeclares(log: seq<IrEvent>, manifests: Manifests, comp: string, kind: EventKind) {
    exists c :: Contributes(log, manifests, comp, c) && Declares(c, kind)
  }

  /** Whatever effect was seen, some contributor declares to see its kind. */
  ghost predicate EffectsDeclared(log: seq<IrEvent>, manifests: Manifests, comp: string) {
    forall e :: e in log && e.computationId == Some(comp) && EffectPatterns(e.kind).Some? ==>
      SomeContributorDeclares(log, manifests, comp, e.kind)
  }

  /** The computation started a shell or an agent. */
  predicate StartsAShell(e: IrEvent) {
    e.kind.ToolInvoked? && (Says(e, "tool_kind", "bash") || Says(e, "tool_kind", "task"))
  }

  ghost predicate ShellsWatched(log: seq<IrEvent>, manifests: Manifests, comp: string) {
    (exists e :: e in log && e.computationId == Some(comp) && StartsAShell(e)) ==>
      exists c :: Contributes(log, manifests, comp, c) && Watches(c)
  }

  /** The first start in the log names a recipe by a well-formed hash. */
  ghost predicate RecipeKnown(log: seq<IrEvent>, comp: string) {
    exists i, hash :: 0 <= i < |log| && IsStart(log[i], comp)
                      && (forall j :: 0 <= j < i ==> !IsStart(log[j], comp))
                      && Says(log[i], "recipe_hash", hash) && IsHash(hash)
  }

  predicate IsStart(e: IrEvent, comp: string) {
    e.kind.ComputationStarted? && e.computationId == Some(comp)
  }

  lemma ContributesMeaning(log: seq<IrEvent>, graph: DerivedGraph, manifests: Manifests, comp: string)
    requires Replayed(log, graph, manifests) && comp in graph.computations
    ensures AttributionOf(graph, comp).unregistered == {} <==> AllKnown(log, manifests, comp)
    ensures forall c :: c in CoverageFor(graph, comp) <==>
              c == EngineCoverageEntry() || Contributes(log, manifests, comp, c)
  {
    hide IsReplayOf, AttributionOf, CoverageFor, Order.Linearize, EngineCoverageEntry;
    WhatIsRead(log, graph, manifests, comp);
    LinearizedMembers(log);
    var keys := ProducersOf(Order.Linearize(log), comp);
    forall e | e in log && e.computationId == Some(comp) ensures ProducerOf(e) in keys {
      assert e in Order.Linearize(log) && KeyOfEvent(e) == ProducerOf(e);
    }
    forall k | k in keys ensures exists e :: e in log && e.computationId == Some(comp) && ProducerOf(e) == k {
      var e :| e in Order.Linearize(log) && e.computationId == Some(comp) && KeyOfEvent(e) == k;
      assert ProducerOf(e) == k;
    }
  }

  lemma EngineDeclaresNoEffect(kind: EventKind)
    ensures !Declares(EngineCoverageEntry(), kind) && !Watches(EngineCoverageEntry())
  {
    assert |"probe.checked"| == 13 && |"diagnostic"| == 10;
    assert "probe.checked"[0] == 'p' && "diagnostic"[0] == 'd' && "diagnostic"[1] == 'i';
  }

  lemma EffectsMeaning(log: seq<IrEvent>, graph: DerivedGraph, manifests: Manifests, comp: string)
    requires Replayed(log, graph, manifests) && comp in graph.computations
    ensures (forall e :: e in RecordedEvents(log, comp) && IsEffectKind(e.kind) ==>
               CoveredBySome(CoverageFor(graph, comp), e.kind))
            <==> EffectsDeclared(log, manifests, comp)
  {
    hide IsReplayOf, CoverageFor, EngineCoverageEntry, Contributes, IsEffectKind, EffectPatterns, Declares,
      CoverageEntry.Covers;
    ContributesMeaning(log, graph, manifests, comp);
    forall kind ensures IsEffectKind(kind) <==> EffectPatterns(kind).Some?
                ensures IsEffectKind(kind) ==> (CoveredBySome(CoverageFor(graph, comp), kind) <==>
                                                SomeContributorDeclares(log, manifests, comp, kind))
    {
      EngineDeclaresNoEffect(kind);
      forall c {
        EffectsAndPatterns(c, kind);
      }
    }
  }

  lemma ShellsMeaning(log: seq<IrEvent>, graph: DerivedGraph, manifests: Manifests, comp: string)
    requires Replayed(log, graph, manifests) && comp in graph.computations
    ensures ((exists e :: e in RecordedEvents(log, comp) && IsSubprocessTool(e)) ==>
               HasFsCoveredObserver(CoverageFor(graph, comp)))
            <==> ShellsWatched(log, manifests, comp)
  {
    hide IsReplayOf, CoverageFor, EngineCoverageEntry, Contributes, Watches, Says, StartsAShell, IsSubprocessTool,
      CoverageEntry.DischargesSubprocessObligation;
    ContributesMeaning(log, graph, manifests, comp);
    EngineDeclaresNoEffect(FsRead);
    forall c {
      WatchesMeaning(c);
    }
    forall e ensures StartsAShell(e) <==> IsSubprocessTool(e) {
      ShellIsSubprocess(e);
    }
  }

  lemma ShellIsSubprocess(e: IrEvent)
    ensures StartsAShell(e) <==> IsSubprocessTool(e)
  {
  }

  lemma {:induction false} RecipeIsTheFirstStarts(log: seq<IrEvent>, comp: string)
    ensures RecipeOf(RecordedEvents(log, comp)).Some? <==> RecipeKnown(log, comp)
  {
    hide RecordedEvents, FirstOfKind, RecipeOfEvent, Says, IsHash, IsStart;
    if log == [] {
      NothingFirst(ComputationStarted, comp);
    } else {
      FirstOfStep(log, ComputationStarted, comp);
      RecipeIsTheFirstStarts(log[1..], comp);
      RecipeOfFirst(log, comp);
      StartIsStart(log[0], comp);
      RecipeSaid(log[0]);
      RecipeFront(log, comp);
    }
  }

  lemma RecipeOfFirst(log: seq<IrEvent>, comp: string)
    ensures RecipeOf(RecordedEvents(log, comp)) ==
            match FirstOf(log, ComputationStarted, comp) case None => None case Some(e) => RecipeOfEvent(e)
    ensures log != [] ==>
              RecipeOf(RecordedEvents(log[1..], comp)) ==
              match FirstOf(log[1..], ComputationStarted, comp) case None => None case Some(e) => RecipeOfEvent(e)
  {
    hide RecordedEvents, FirstOfKind, RecipeOfEvent;
  }

  lemma StartIsStart(e: IrEvent, comp: string)
    ensures IsStart(e, comp) <==> IsOf(e, ComputationStarted, comp)
  {
  }

  lemma RecipeSaid(e: IrEvent)
    ensures RecipeOfEvent(e).Some? <==> exists hash :: Says(e, "recipe_hash", hash) && IsHash(hash)
  {
    hide IsHash;
    if RecipeOfEvent(e).Some? {
      assert Says(e, "recipe_hash", RecipeOfEvent(e).value);
    }
  }

  /** Either the log begins with a start, which then decides, or its tail decides. */
  lemma RecipeFront(log: seq<IrEvent>, comp: string)
    requires log != []
    ensures IsStart(log[0], comp) ==>
              (RecipeKnown(log, comp) <==> exists hash :: Says(log[0], "recipe_hash", hash) && IsHash(hash))
    ensures !IsStart(log[0], comp) ==> (RecipeKnown(log, comp) <==> RecipeKnown(log[1..], comp))
  {
    hide IsStart, Says, IsHash;
    if IsStart(log[0], comp) {
      if hash :| Says(log[0], "recipe_hash", hash) && IsHash(hash) {
        assert log[0] == log[0];
      }
    } else {
      var tail := log[1..];
      if i, hash :| 0 <= i < |log| && IsStart(log[i], comp) && (forall j :: 0 <= j < i ==> !IsStart(log[j], comp))
                    && Says(log[i], "recipe_hash", hash) && IsHash(hash) {
        assert tail[i - 1] == log[i];
        assert forall j :: 0 <= j < i - 1 ==> tail[j] == log[j + 1];
      }
      if i, hash :| 0 <= i < |tail| && IsStart(tail[i], comp) && (forall j :: 0 <= j < i ==> !IsStart(tail[j], comp))
                    && Says(tail[i], "recipe_hash", hash) && IsHash(hash) {
        assert log[i + 1] == tail[i];
        assert forall j :: 1 <= j < i + 1 ==> log[j] == tail[j - 1];
      }
    }
  }

  /** Everything about a computation that could stand in the way of a usable verdict, apart from
      its edges. */
  ghost predicate BeyondDoubt(log: seq<IrEvent>, manifests: Manifests, comp: string) {
    && AllKnown(log, manifests, comp)
    && NothingInDoubt(log, comp)
    && EffectsDeclared(log, manifests, comp)
    && ShellsWatched(log, manifests, comp)
    && RecipeKnown(log, comp)
  }

  /** Complete evidence, read off the log and the manifests: every contributing producer is
      registered, no event leaves a doubt, every effect seen is declared by a contributor, a
      shell or an agent was watched by an observer that admits to no blindness about reads, and
      the first start names its recipe. */
  lemma EvidenceMeaning(log: seq<IrEvent>, graph: DerivedGraph, manifests: Manifests, comp: string)
    requires Replayed(log, graph, manifests) && comp in graph.computations
    ensures EvidenceComplete(log, graph, comp) <==> BeyondDoubt(log, manifests, comp)
  {
    hide IsReplayOf, NodeOf, CoverageFor, AttributionOf, RecipeOf, RecordedEvents, AllKnown, EffectsDeclared,
      ShellsWatched, RecipeKnown, IsEffectKind, CoveredBySome, IsSubprocessTool, HasFsCoveredObserver, LeavesADoubt,
      ExclusionReason.IsUnprovenDependency;
    ContributesMeaning(log, graph, manifests, comp);
    EffectsMeaning(log, graph, manifests, comp);
    ShellsMeaning(log, graph, manifests, comp);
    RecipeIsTheFirstStarts(log, comp);
    NodeIsReplayed(log, graph, manifests, comp);
    NodeIsUnprovenExactlyWhen(Order.Linearize(log), comp);
  }
}

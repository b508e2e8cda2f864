/** The derived graph: replaying the canonical log into per-computation nodes. */
module Graph {
  import opened Primitives
  import opened Wrappers
  import opened TrustClasses
  import opened Fingerprints
  import opened Dependencies
  import opened Paths
  import opened Ir
  import opened Coverage

  // ------------------------------------------------------------ records

  datatype ExclusionReason = ReadAfterOwnWrite | Impure | NoFingerprint | NakedVolatile | MalformedPayload {
    /** Does a dependency still exist at this key, merely unproven? */
    predicate IsUnprovenDependency() {
      NoFingerprint? || NakedVolatile? || MalformedPayload?
    }
  }

  datatype ExcludedEdge = ExcludedEdge(
    eventId: Uuid, kind: EventKind, key: Option<string>, scheme: Option<string>, reason: ExclusionReason)

  datatype EdgeConflict = EdgeConflict(
    dependency: string, firstEventId: Uuid, firstFingerprint: Fingerprint,
    conflictingEventId: Uuid, conflictingFingerprint: Fingerprint)

  datatype OutputRecord = OutputRecord(eventId: Uuid, path: string, hash: Option<string>)

  datatype CoverageObligation = CoverageObligation(eventId: Uuid, producer: string, toolName: string, toolKind: string)

  datatype GraphDefect =
    | OrphanEdgeEvent(eventId: Uuid, kind: EventKind, producer: string)
    | ArtifactProducerMismatch(eventId: Uuid, envelope: Option<string>, payload: string)
    | DivergentDuplicate(eventId: Uuid, producer: string)

  /** Which bucket each event of a computation fell into. */
  datatype Accounting = Accounting(
    edgeEvents: nat, outputs: nat, artifacts: nat, obligations: nat, excluded: nat, unmodeled: nat, total: nat)
  {
    predicate IsBalanced() {
      edgeEvents + outputs + artifacts + obligations + excluded + unmodeled == total
    }
  }

  datatype ComputationNode = ComputationNode(
    computationId: string,
    dependencies: seq<Dependency>,
    outputs: seq<OutputRecord>,
    artifacts: seq<string>,
    obligations: seq<CoverageObligation>,
    excluded: seq<ExcludedEdge>,
    conflicts: seq<EdgeConflict>,
    kindCounts: multiset<EventKind>,
    unmodeled: multiset<EventKind>,
    contributors: set<ProducerKey>,
    accounting: Accounting)

  function NewNode(comp: string): ComputationNode {
    ComputationNode(comp, [], [], [], [], [], [], multiset{}, multiset{}, {}, Accounting(0, 0, 0, 0, 0, 0, 0))
  }

  /** Kinds that must carry a computation id to be attributable. */
  predicate IsEdgeBearing(kind: EventKind) {
    kind in [FsRead, FsWrite, FsStat, FsRename, FsUnlink, FsDirlist, NetFetch, ProbeChecked, ArtifactProduced,
             ToolInvoked]
  }

  // ----------------------------------------------------- classification

  /** An artifact production located in canonical order. */
  datatype ArtifactAt = ArtifactAt(position: nat, path: Path, artifact: string, computation: Option<string>)

  function ArtifactOf(e: IrEvent, position: nat): Option<ArtifactAt> {
    if e.kind.ArtifactProduced? && e.payload.Text("artifact_id").Some? && e.payload.Text("path").Some?
    then Some(ArtifactAt(position, Components(e.payload.Text("path").value), e.payload.Text("artifact_id").value,
                         e.computationId))
    else None
  }

  function ArtifactPaths(events: seq<IrEvent>): seq<ArtifactAt> {
    if events == [] then []
    else
      var last := |events| - 1;
      ArtifactPaths(events[..last])
      + (match ArtifactOf(events[last], last) case None => [] case Some(a) => [a])
  }

  method CollectArtifactPaths(events: seq<IrEvent>) returns (out: seq<ArtifactAt>)
    ensures out == ArtifactPaths(events)
  {
    out := [];
    for position := 0 to |events|
      invariant out == ArtifactPaths(events[..position])
    {
      assert events[..position + 1][..position] == events[..position];
      match ArtifactOf(events[position], position)
      case None =>
      case Some(a) => out := out + [a];
    }
    assert events[..|events|] == events;
  }

  predicate Produces(a: ArtifactAt, path: Path, position: nat, comp: string) {
    a.position < position && a.path == path && a.computation != Some(comp)
  }

  /** The artifact of another computation that last produced `path` before `position`. */
  function ProducingArtifact(artifacts: seq<ArtifactAt>, path: Path, position: nat, comp: string): Option<string> {
    if artifacts == [] then None
    else
      var last := artifacts[|artifacts| - 1];
      if Produces(last, path, position, comp) then Some(last.artifact)
      else ProducingArtifact(artifacts[..|artifacts| - 1], path, position, comp)
  }

  datatype Outcome =
    | Edge(dependency: Dependency)
    | Output(output: OutputRecord)
    | Artifact(artifact: string, defect: Option<GraphDefect>)
    | Obligation(obligation: CoverageObligation)
    | Excluded(excludedEdge: ExcludedEdge)
    | Unmodeled

  function FileKey(path: string): string {
    FromSchemeKey("file", path)
  }

  function ExcludedFile(e: IrEvent, key: Option<string>, reason: ExclusionReason): Outcome {
    Excluded(ExcludedEdge(e.eventId, e.kind, key, Some("file"), reason))
  }

  function ClassifyRead(e: IrEvent, position: nat, written: set<Path>, artifacts: seq<ArtifactAt>,
                        comp: string): Outcome {
    match e.decoded
    case ReadPayload(path, hash, impure) =>
      if Components(path) in written then ExcludedFile(e, Some(FileKey(path)), ReadAfterOwnWrite)
      else if impure then ExcludedFile(e, Some(FileKey(path)), Impure)
      else if hash.None? then ExcludedFile(e, Some(FileKey(path)), NoFingerprint)
      else
        var producedBy := ProducingArtifact(artifacts, Components(path), position, comp);
        Edge(ExactFile(path, hash.value, e.ts).(producedBy := producedBy))
    case _ =>
      var raw := e.payload.Text("path");
      ExcludedFile(e, if raw.Some? then Some(FileKey(raw.value)) else None, MalformedPayload)
  }

  /** The path an `fs.write` event names, decoded or merely recoverable. */
  function WrittenPath(e: IrEvent): Option<Path> {
    if !e.kind.FsWrite? then None
    else match e.decoded {
      case WritePayload(path, _) => Some(Components(path))
      case _ =>
        var raw := e.payload.Text("path");
        if raw.Some? then Some(Components(raw.value)) else None
    }
  }

  function WrittenAfter(e: IrEvent, written: set<Path>): set<Path> {
    match WrittenPath(e)
    case None => written
    case Some(p) => written + {p}
  }

  function ClassifyWrite(e: IrEvent): Outcome {
    match e.decoded
    case WritePayload(path, hash) =>
      Output(OutputRecord(e.eventId, path, if hash.Some? then Some(hash.value) else None))
    case _ =>
      var raw := e.payload.Text("path");
      ExcludedFile(e, if raw.Some? then Some(FileKey(raw.value)) else None, MalformedPayload)
  }

  function ClassifyProbe(e: IrEvent): Outcome {
    var scheme := e.payload.Text("scheme");
    var rawKey := e.payload.Text("key");
    if scheme.None? || rawKey.None? then
      Excluded(ExcludedEdge(e.eventId, e.kind, None, scheme, MalformedPayload))
    else
      var id := FromSchemeKey(scheme.value, rawKey.value);
      var trust := match e.payload.Text("trust_class") case None => None case Some(t) => ParseTrustClass(t);
      var rawFp := e.payload.Text("observed_fingerprint");
      var ttl := e.payload.Unsigned("ttl_seconds");
      if trust.None? then
        Excluded(ExcludedEdge(e.eventId, e.kind, Some(id), scheme, MalformedPayload))
      else if rawFp.None? then
        Excluded(ExcludedEdge(e.eventId, e.kind, Some(id), scheme, NoFingerprint))
      else if Parse(rawFp.value).Err? then
        Excluded(ExcludedEdge(e.eventId, e.kind, Some(id), scheme, MalformedPayload))
      else if trust.value.Volatile? && ttl.None? then
        Excluded(ExcludedEdge(e.eventId, e.kind, Some(id), scheme, NakedVolatile))
      else
        Edge(Dependency(id, scheme.value, trust.value, Parse(rawFp.value).value, e.ts, None, ttl))
  }

  function ClassifyArtifact(e: IrEvent): Outcome {
    match e.payload.Text("artifact_id")
    case None => Excluded(ExcludedEdge(e.eventId, e.kind, None, None, MalformedPayload))
    case Some(id) =>
      var declared := e.payload.Text("produced_by");
      Artifact(id, if declared.Some? && declared != e.computationId
                   then Some(ArtifactProducerMismatch(e.eventId, e.computationId, declared.value)) else None)
  }

  predicate IsSubprocessTool(e: IrEvent) {
    e.kind.ToolInvoked? && (e.payload.Text("tool_kind") == Some("bash") || e.payload.Text("tool_kind") == Some("task"))
  }

  function ClassifyTool(e: IrEvent): Outcome {
    if IsSubprocessTool(e) then
      var name := e.payload.Text("tool_name");
      Obligation(CoverageObligation(e.eventId, e.producer, if name.Some? then name.value
                                    else "", e.payload.Text("tool_kind").value))
    else
      Unmodeled
  }

  function Classify(e: IrEvent, position: nat, written: set<Path>, artifacts: seq<ArtifactAt>, comp: string): Outcome {
    match e.kind
    case FsRead => ClassifyRead(e, position, written, artifacts, comp)
    case FsWrite => ClassifyWrite(e)
    case ProbeChecked => ClassifyProbe(e)
    case ArtifactProduced => ClassifyArtifact(e)
    case ToolInvoked => ClassifyTool(e)
    case _ => Unmodeled
  }

  // ------------------------------------------------------------ folding

  /** Position of the retained entry, and the event that produced it, by dependency id. */
  type EdgeIndex = map<string, (nat, Uuid)>

  /** Every dependency is indexed by its identity at its own position, so identities are
      unique and the index points at the retained entry. */
  ghost predicate Indexed(dependencies: seq<Dependency>, index: EdgeIndex) {
    && (forall id :: id in index ==> index[id].0 < |dependencies| && dependencies[index[id].0].Id() == id)
    && (forall i :: 0 <= i < |dependencies| ==> dependencies[i].Id() in index && index[dependencies[i].Id()].0 == i)
  }

  predicate Disagrees(first: Dependency, later: Dependency) {
    first.fingerprint != later.fingerprint || first.trustClass != later.trustClass
  }

  function ConflictBetween(first: Dependency, origin: Uuid, later: Dependency, event: Uuid): EdgeConflict {
    EdgeConflict(later.Id(), origin, first.fingerprint, event, later.fingerprint)
  }

  /** The edge part of booking: the retained edges, the index, and the conflicts. */
  function BookEdge(dependencies: seq<Dependency>, conflicts: seq<EdgeConflict>, index: EdgeIndex, event: Uuid,
                    dep: Dependency)
    : (r: (seq<Dependency>, seq<EdgeConflict>, EdgeIndex))
    requires Indexed(dependencies, index)
    ensures Indexed(r.0, r.2)
  {
    var id := dep.Id();
    if id !in index then
      (dependencies + [dep], conflicts, index[id := (|dependencies|, event)])
    else
      var (existing, origin) := index[id];
      var first := dependencies[existing];
      (dependencies,
       if Disagrees(first, dep) then conflicts + [ConflictBetween(first, origin, dep, event)] else conflicts,
       index)
  }

  function Tally(a: Accounting, outcome: Outcome): Accounting {
    var t := a.(total := a.total + 1);
    match outcome
    case Edge(_) => t.(edgeEvents := a.edgeEvents + 1)
    case Output(_) => t.(outputs := a.outputs + 1)
    case Artifact(_, _) => t.(artifacts := a.artifacts + 1)
    case Obligation(_) => t.(obligations := a.obligations + 1)
    case Excluded(_) => t.(excluded := a.excluded + 1)
    case Unmodeled => t.(unmodeled := a.unmodeled + 1)
  }

  /** Book one classified event on its node and index. */
  function Book(n: ComputationNode, index: EdgeIndex, e: IrEvent, outcome: Outcome): (r: (ComputationNode, EdgeIndex))
    requires Indexed(n.dependencies, index)
    ensures Indexed(r.0.dependencies, r.1)
  {
    var (dependencies, conflicts, index') :=
      if outcome.Edge? then BookEdge(n.dependencies, n.conflicts, index, e.eventId, outcome.dependency)
      else (n.dependencies, n.conflicts, index);
    (ComputationNode(
       n.computationId,
       dependencies,
       if outcome.Output? then n.outputs + [outcome.output] else n.outputs,
       if outcome.Artifact? then n.artifacts + [outcome.artifact] else n.artifacts,
       if outcome.Obligation? then n.obligations + [outcome.obligation] else n.obligations,
       if outcome.Excluded? then n.excluded + [outcome.excludedEdge] else n.excluded,
       conflicts,
       n.kindCounts + multiset{e.kind},
       if outcome.Unmodeled? then n.unmodeled + multiset{e.kind} else n.unmodeled,
       n.contributors,
       Tally(n.accounting, outcome)),
     index')
  }

  /** What replay knows about one computation part-way through the log. */
  datatype Progress = Progress(
    node: ComputationNode, index: EdgeIndex, written: set<Path>, contributors: set<ProducerKey>)
  {
    ghost predicate Valid() {
      Indexed(node.dependencies, index)
    }
  }

  function Nothing(comp: string): Progress {
    Progress(NewNode(comp), map[], {}, {})
  }

  function Advance(p: Progress, e: IrEvent, position: nat, artifacts: seq<ArtifactAt>, comp: string): (r: Progress)
    requires p.Valid()
    ensures r.Valid()
  {
    var (node, index) := Book(p.node, p.index, e, Classify(e, position, p.written, artifacts, comp));
    Progress(node, index, WrittenAfter(e, p.written), p.contributors + {KeyOfEvent(e)})
  }

  /** One computation's state after the first `n` canonical events. */
  function ProgressAfter(events: seq<IrEvent>, artifacts: seq<ArtifactAt>, comp: string, n: nat): (p: Progress)
    requires n <= |events|
    ensures p.Valid()
  {
    if n == 0 then Nothing(comp)
    else
      var p := ProgressAfter(events, artifacts, comp, n - 1);
      if events[n - 1].computationId == Some(comp)
      then Advance(p, events[n - 1], n - 1, artifacts, comp)
      else p
  }

  /** The finished node of a computation. */
  function NodeOf(events: seq<IrEvent>, comp: string): ComputationNode {
    var p := ProgressAfter(events, ArtifactPaths(events), comp, |events|);
    p.node.(contributors := p.contributors)
  }

  function ComputationsOf(events: seq<IrEvent>): set<string> {
    set e | e in events && e.computationId.Some? :: e.computationId.value
  }

  function DefectOf(e: IrEvent): seq<GraphDefect> {
    if e.computationId.None? then
      if IsEdgeBearing(e.kind) then [OrphanEdgeEvent(e.eventId, e.kind, e.producer)] else []
    else if e.kind.ArtifactProduced? then
      var o := ClassifyArtifact(e);
      if o.Artifact? && o.defect.Some? then [o.defect.value] else []
    else []
  }

  function DefectsOf(events: seq<IrEvent>): seq<GraphDefect> {
    if events == [] then []
    else DefectsOf(events[..|events| - 1]) + DefectOf(events[|events| - 1])
  }

  lemma DefectOfOutcome(e: IrEvent, position: nat, written: set<Path>, artifacts: seq<ArtifactAt>, comp: string)
    requires e.computationId == Some(comp)
    ensures var o := Classify(e, position, written, artifacts, comp);
            DefectOf(e) == if o.Artifact? && o.defect.Some? then [o.defect.value] else []
  {
  }

  /** The loop's nested per-computation maps, seen together. */
  datatype Maps = Maps(
    computations: map<string, ComputationNode>, edgeIndex: map<string, EdgeIndex>,
    written: map<string, set<Path>>, contributors: map<string, set<ProducerKey>>)
  {
    function Node(comp: string): ComputationNode {
      if comp in computations then computations[comp] else NewNode(comp)
    }

    function Index(comp: string): EdgeIndex {
      if comp in edgeIndex then edgeIndex[comp] else map[]
    }

    function Written(comp: string): set<Path> {
      if comp in written then written[comp] else {}
    }

    function Contributors(comp: string): set<ProducerKey> {
      if comp in contributors then contributors[comp] else {}
    }

    function Held(comp: string): Progress {
      Progress(Node(comp), Index(comp), Written(comp), Contributors(comp))
    }

    function With(comp: string, p: Progress): (m: Maps)
      ensures m.Held(comp) == p
      ensures forall other :: other != comp ==> m.Held(other) == Held(other)
    {
      Maps(computations[comp := p.node], edgeIndex[comp := p.index], written[comp := p.written],
           contributors[comp := p.contributors])
    }
  }

  /** The maps hold every computation's progress after `n` events, and nothing else. */
  ghost predicate InStep(maps: Maps, events: seq<IrEvent>, artifacts: seq<ArtifactAt>, n: nat)
    requires n <= |events|
  {
    && maps.computations.Keys == ComputationsOf(events[..n])
    && forall comp :: maps.Held(comp) == ProgressAfter(events, artifacts, comp, n)
  }

  lemma StepIn(maps: Maps, events: seq<IrEvent>, artifacts: seq<ArtifactAt>, n: nat, comp: string, p: Progress)
    requires n < |events| && InStep(maps, events, artifacts, n)
    requires events[n].computationId == Some(comp)
    requires maps.Held(comp).Valid() && p == Advance(maps.Held(comp), events[n], n, artifacts, comp)
    ensures InStep(maps.With(comp, p), events, artifacts, n + 1)
  {
    hide Advance, Maps.Held;
    assert events[..n + 1] == events[..n] + [events[n]];
    forall c ensures maps.With(comp, p).Held(c) == ProgressAfter(events, artifacts, c, n + 1) {
      assert maps.Held(c) == ProgressAfter(events, artifacts, c, n);
    }
  }

  lemma StepOut(maps: Maps, events: seq<IrEvent>, artifacts: seq<ArtifactAt>, n: nat)
    requires n < |events| && InStep(maps, events, artifacts, n)
    requires events[n].computationId.None?
    ensures InStep(maps, events, artifacts, n + 1)
  {
    assert events[..n + 1] == events[..n] + [events[n]];
  }

  /** Book one classified event on a node and its edge index. */
  method RecordOutcome(event: IrEvent, outcome: Outcome, before: ComputationNode, beforeIndex: EdgeIndex)
    returns (node: ComputationNode, index: EdgeIndex)
    requires Indexed(before.dependencies, beforeIndex)
    ensures (node, index) == Book(before, beforeIndex, event, outcome)
  {
    index := beforeIndex;
    var dependencies, conflicts := before.dependencies, before.conflicts;
    var outputs, artifacts, obligations, excluded := before.outputs, before.artifacts, before.obligations,
      before.excluded;
    var unmodeled, accounting := before.unmodeled, before.accounting.(total := before.accounting.total + 1);
    match outcome {
      case Edge(dep) =>
        accounting := accounting.(edgeEvents := accounting.edgeEvents + 1);
        var id := dep.Id();
        if id !in index {
          index := index[id := (|dependencies|, event.eventId)];
          dependencies := dependencies + [dep];
        } else {
          var (existing, origin) := index[id];
          var first := dependencies[existing];
          if Disagrees(first, dep) {
            conflicts := conflicts + [ConflictBetween(first, origin, dep, event.eventId)];
          }
        }
      case Output(o) =>
        accounting := accounting.(outputs := accounting.outputs + 1);
        outputs := outputs + [o];
      case Artifact(id, _) =>
        accounting := accounting.(artifacts := accounting.artifacts + 1);
        artifacts := artifacts + [id];
      case Obligation(o) =>
        accounting := accounting.(obligations := accounting.obligations + 1);
        obligations := obligations + [o];
      case Excluded(x) =>
        accounting := accounting.(excluded := accounting.excluded + 1);
        excluded := excluded + [x];
      case Unmodeled =>
        accounting := accounting.(unmodeled := accounting.unmodeled + 1);
        unmodeled := unmodeled + multiset{event.kind};
    }
    node := ComputationNode(before.computationId, dependencies, outputs, artifacts, obligations, excluded, conflicts,
                            before.kindCounts + multiset{event.kind}, unmodeled, before.contributors, accounting);
  }

  /** One pass over the canonical events, updating the per-computation maps in step. */
  method BuildNodes(events: seq<IrEvent>, artifacts: seq<ArtifactAt>)
    returns (computations: map<string, ComputationNode>, defects: seq<GraphDefect>)
    requires artifacts == ArtifactPaths(events)
    ensures computations.Keys == ComputationsOf(events)
    ensures forall comp :: comp in computations ==> computations[comp] == NodeOf(events, comp)
    ensures defects == DefectsOf(events)
  {
    var maps := Maps(map[], map[], map[], map[]);
    defects := [];
    for position := 0 to |events|
      invariant defects == DefectsOf(events[..position])
      invariant InStep(maps, events, artifacts, position)
    {
      var event := events[position];
      assert events[..position + 1][..position] == events[..position];
      if event.computationId.None? {
        if IsEdgeBearing(event.kind) {
          defects := defects + [OrphanEdgeEvent(event.eventId, event.kind, event.producer)];
        }
        StepOut(maps, events, artifacts, position);
      } else {
        var comp := event.computationId.value;
        assert maps.Held(comp) == ProgressAfter(events, artifacts, comp, position);
        var outcome := Classify(event, position, maps.Written(comp), artifacts, comp);
        DefectOfOutcome(event, position, maps.Written(comp), artifacts, comp);
        if outcome.Artifact? && outcome.defect.Some? {
          defects := defects + [outcome.defect.value];
        }
        var node, index := RecordOutcome(event, outcome, maps.Node(comp), maps.Index(comp));
        var progress := Progress(node, index, WrittenAfter(event, maps.Written(comp)),
                                 maps.Contributors(comp) + {KeyOfEvent(event)});
        StepIn(maps, events, artifacts, position, comp, progress);
        maps := maps.With(comp, progress);
      }
    }
    assert events[..|events|] == events;
    forall comp | comp in maps.computations
      ensures maps.computations[comp].(contributors := maps.Contributors(comp)) == NodeOf(events, comp)
    {
      assert maps.Held(comp) == ProgressAfter(events, artifacts, comp, |events|);
    }
    computations := map comp | comp in maps.computations ::
      maps.computations[comp].(contributors := maps.Contributors(comp));
  }

  // ---------------------------------------------------------- attribution

  type PartialNotes = map<string, set<PartialCoverage>>

  /** Which contributing producers of a computation are registered, and what they admit not to
      see, by the pattern they admit it for. */
  datatype ComputationCoverage = ComputationCoverage(
    computationId: string, lookup: CoverageLookup, partialNotes: PartialNotes)

  function NotesFor(entries: set<CoverageEntry>, pattern: string): set<PartialCoverage> {
    set c | c in entries && pattern in c.partials :: c.partials[pattern]
  }

  function NotesOf(entries: set<CoverageEntry>): PartialNotes {
    var patterns := set c, pattern | c in entries && pattern in c.partials :: pattern;
    map pattern | pattern in patterns :: NotesFor(entries, pattern)
  }

  function CoverageOf(manifests: Manifests, events: seq<IrEvent>, comp: string): ComputationCoverage {
    var lookup := LookupOf(manifests, ProducersOf(events, comp));
    ComputationCoverage(comp, lookup, NotesOf(lookup.entries))
  }

  function NotesAt(notes: PartialNotes, pattern: string): set<PartialCoverage> {
    if pattern in notes then notes[pattern] else {}
  }

  /** The notes hold what was there before and the manifest's admissions for these patterns. */
  ghost predicate Filed(before: PartialNotes, notes: PartialNotes, manifest: CoverageManifest, patterns: set<string>)
    requires patterns <= manifest.partials.Keys
  {
    && notes.Keys == before.Keys + patterns
    && forall p :: NotesAt(notes, p) == NotesAt(before, p) + if p in patterns then {manifest.partials[p]} else {}
  }

  lemma NoteOne(notes: PartialNotes, key: string, note: PartialCoverage, pattern: string)
    ensures NotesAt(notes[key := NotesAt(notes, key) + {note}], pattern)
            == NotesAt(notes, pattern) + if pattern == key then {note} else {}
  {
  }

  lemma FileOne(before: PartialNotes, notes: PartialNotes, manifest: CoverageManifest, patterns: set<string>,
                pattern: string)
    requires patterns <= manifest.partials.Keys && pattern in manifest.partials
    requires Filed(before, notes, manifest, patterns)
    ensures Filed(before, notes[pattern := NotesAt(notes, pattern) + {manifest.partials[pattern]}], manifest,
                  patterns + {pattern})
  {
    hide NotesAt;
    var after := notes[pattern := NotesAt(notes, pattern) + {manifest.partials[pattern]}];
    forall p ensures NotesAt(after, p) == NotesAt(before, p)
                                        + if p in patterns + {pattern} then {manifest.partials[p]} else {}
    {
      NoteOne(notes, pattern, manifest.partials[pattern], p);
    }
  }

  /** Every admission of one manifest, filed with those already there. */
  method NoteManifest(before: PartialNotes, manifest: CoverageManifest) returns (notes: PartialNotes)
    ensures Filed(before, notes, manifest, manifest.partials.Keys)
  {
    notes := before;
    var rest := manifest.partials.Keys;
    ghost var done: set<string> := {};
    assert Filed(before, notes, manifest, done);
    hide Filed, NotesAt;
    while rest != {}
      invariant rest <= manifest.partials.Keys && done == manifest.partials.Keys - rest
      invariant Filed(before, notes, manifest, done)
      decreases rest
    {
      var pattern :| pattern in rest;
      rest := rest - {pattern};
      FileOne(before, notes, manifest, done, pattern);
      notes := notes[pattern := NotesAt(notes, pattern) + {manifest.partials[pattern]}];
      done := done + {pattern};
    }
    assert done == manifest.partials.Keys;
  }

  lemma NotesGrow(entries: set<CoverageEntry>, entry: CoverageEntry, before: PartialNotes, after: PartialNotes)
    requires before == NotesOf(entries)
    requires Filed(before, after, entry, entry.partials.Keys)
    ensures after == NotesOf(entries + {entry})
  {
    hide NotesOf, NotesFor;
    var all := NotesOf(entries + {entry});
    forall pattern ensures pattern in after <==> pattern in all
                   ensures NotesAt(after, pattern) == NotesAt(all, pattern)
    {
      NotesMeaning(entries, pattern);
      NotesMeaning(entries + {entry}, pattern);
      NotesForGrow(entries, entry, pattern);
    }
    assert forall pattern :: pattern in after ==> after[pattern] == NotesAt(after, pattern) == all[pattern];
  }

  lemma NotesMeaning(entries: set<CoverageEntry>, pattern: string)
    ensures pattern in NotesOf(entries) <==> NotesFor(entries, pattern) != {}
    ensures NotesAt(NotesOf(entries), pattern) == NotesFor(entries, pattern)
  {
    if c :| c in entries && pattern in c.partials {
      assert c.partials[pattern] in NotesFor(entries, pattern);
    }
  }

  lemma NotesForGrow(entries: set<CoverageEntry>, entry: CoverageEntry, pattern: string)
    ensures NotesFor(entries + {entry}, pattern)
            == NotesFor(entries, pattern) + if pattern in entry.partials then {entry.partials[pattern]} else {}
  {
  }

  /** What the registered contributors admit, looked up manifest by manifest. */
  method CollectNotes(entries: set<CoverageEntry>, registry: CoverageRegistry) returns (notes: PartialNotes)
    requires registry.Valid()
    requires forall c :: c in entries ==> KeyOfManifest(c) in registry.manifests
                                          && registry.manifests[KeyOfManifest(c)] == c
    ensures notes == NotesOf(entries)
  {
    hide NotesOf, Filed;
    notes := map[];
    var rest := entries;
    assert entries - rest == {};
    NoNotes();
    while rest != {}
      invariant rest <= entries
      invariant notes == NotesOf(entries - rest)
      decreases rest
    {
      var entry :| entry in rest;
      var seen := entries - rest;
      rest := rest - {entry};
      assert entries - rest == seen + {entry};
      var before := notes;
      if KeyOfManifest(entry) in registry.manifests {
        notes := NoteManifest(notes, registry.manifests[KeyOfManifest(entry)]);
      }
      NotesGrow(seen, entry, before, notes);
    }
    assert entries - rest == entries;
  }

  lemma NoNotes()
    ensures NotesOf({}) == map[]
  {
  }

  /** The attribution of each computation. */
  method BuildAttribution(computations: map<string, ComputationNode>, events: seq<IrEvent>, registry: CoverageRegistry)
    returns (attribution: map<string, ComputationCoverage>)
    requires registry.Valid()
    ensures attribution == map comp | comp in computations :: CoverageOf(registry.manifests, events, comp)
  {
    hide NotesOf, ProducersOf;
    attribution := map[];
    var rest := computations.Keys;
    while rest != {}
      invariant rest <= computations.Keys
      invariant attribution == map comp | comp in computations.Keys - rest ::
                CoverageOf(registry.manifests, events, comp)
      decreases rest
    {
      var comp :| comp in rest;
      rest := rest - {comp};
      var lookup := registry.CoverageForComputation(events, comp);
      var notes := CollectNotes(lookup.entries, registry);
      attribution := attribution[comp := ComputationCoverage(comp, lookup, notes)];
    }
  }
}

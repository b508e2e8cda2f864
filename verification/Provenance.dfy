/** Where an artifact came from: the recipe, the adapter and the time span of its computation,
    read off the computation's recorded events. */
module Provenance {
  import opened Primitives
  import opened Wrappers
  import opened Text
  import opened SortedSets
  import opened Ir
  import opened Coverage
  import opened Certificates
  import opened Edges

  /** The first event of a kind, in the given order. */
  function FirstOfKind(events: seq<IrEvent>, kind: EventKind): Option<IrEvent> {
    if events == [] then None
    else if events[0].kind == kind then Some(events[0])
    else FirstOfKind(events[1..], kind)
  }

  /** The recipe hash of a `computation.started` event, if it carries a usable one. */
  function RecipeOfEvent(e: IrEvent): Option<Hash> {
    var raw := e.payload.Text("recipe_hash");
    if raw.Some? && IsHash(raw.value) then Some(raw.value) else None
  }

  /** What a start says about the computation. */
  datatype StartRecord = StartRecord(started: Instant, adapter: string, recipe: Option<string>,
                                     recipeHash: Option<Hash>)

  function StartSays(e: IrEvent): StartRecord {
    StartRecord(e.ts, AdapterName(KeyOfEvent(e)), e.payload.Text("recipe_id"), RecipeOfEvent(e))
  }

  /** The recipe hash of the first start in the given order. */
  function RecipeOf(events: seq<IrEvent>): Option<Hash> {
    match FirstOfKind(events, ComputationStarted)
    case None => None
    case Some(e) => RecipeOfEvent(e)
  }

  predicate IsEarliest(at: Instant, events: seq<IrEvent>) {
    (exists e :: e in events && e.ts == at) && forall e :: e in events ==> at <= e.ts
  }

  predicate IsLatest(at: Instant, events: seq<IrEvent>) {
    (exists e :: e in events && e.ts == at) && forall e :: e in events ==> e.ts <= at
  }

  lemma {:induction false} SpanExists(events: seq<IrEvent>)
    requires events != []
    ensures (exists at :: IsEarliest(at, events)) && exists at :: IsLatest(at, events)
  {
    var e, rest := events[0], events[1..];
    assert events == [e] + rest;
    if rest == [] {
      assert IsEarliest(e.ts, events) && IsLatest(e.ts, events);
    } else {
      SpanExists(rest);
      var low :| IsEarliest(low, rest);
      var high :| IsLatest(high, rest);
      assert IsEarliest(if e.ts < low then e.ts else low, events);
      assert IsLatest(if e.ts > high then e.ts else high, events);
    }
  }

  ghost function Earliest(events: seq<IrEvent>): (at: Instant)
    requires events != []
    ensures IsEarliest(at, events)
  {
    SpanExists(events);
    var at :| IsEarliest(at, events);
    at
  }

  ghost function Latest(events: seq<IrEvent>): (at: Instant)
    requires events != []
    ensures IsLatest(at, events)
  {
    SpanExists(events);
    var at :| IsLatest(at, events);
    at
  }

  // ------------------------------------------------------------ adapters

  predicate ProducerKeyLe(a: ProducerKey, b: ProducerKey) {
    if a.producer != b.producer then StrLe(a.producer, b.producer) else StrLe(a.version, b.version)
  }

  lemma ProducerKeyLeIsTotal()
    ensures TotalOrder(ProducerKeyLe)
  {
    forall a, b ensures ProducerKeyLe(a, b) || ProducerKeyLe(b, a) {
      StrLeTotal(a.producer, b.producer);
      StrLeTotal(a.version, b.version);
    }
    forall a, b | ProducerKeyLe(a, b) && ProducerKeyLe(b, a) ensures a == b {
      if a.producer == b.producer {
        StrLeAntisymmetric(a.version, b.version);
      } else {
        StrLeAntisymmetric(a.producer, b.producer);
      }
    }
    forall a, b, c | ProducerKeyLe(a, b) && ProducerKeyLe(b, c) ensures ProducerKeyLe(a, c) {
      ProducerKeyLeTransitive(a, b, c);
    }
  }

  lemma ProducerKeyLeTransitive(a: ProducerKey, b: ProducerKey, c: ProducerKey)
    requires ProducerKeyLe(a, b) && ProducerKeyLe(b, c)
    ensures ProducerKeyLe(a, c)
  {
    if a.producer == b.producer == c.producer {
      StrLeTransitive(a.version, b.version, c.version);
    } else if a.producer != b.producer && b.producer != c.producer {
      StrLeTransitive(a.producer, b.producer, c.producer);
      if a.producer == c.producer {
        StrLeAntisymmetric(a.producer, b.producer);
      }
    }
  }

  /** The contract's `<name>/<version>` form. */
  function AdapterName(key: ProducerKey): string {
    key.producer + "/" + key.version
  }

  function AdapterKeys(coverage: set<CoverageEntry>): set<ProducerKey> {
    set c | c in coverage && c.role.Adapter? :: KeyOfManifest(c)
  }

  /** The adapter the coverage names first, in producer and version order, or the engine. */
  ghost function CoveringAdapter(coverage: set<CoverageEntry>): string {
    ProducerKeyLeIsTotal();
    var keys := Ascending(AdapterKeys(coverage), ProducerKeyLe);
    AdapterName(if keys == [] then ProducerKey(ENGINE_PRODUCER, ENGINE_VERSION) else keys[0])
  }

  // ---------------------------------------------------------- the record

  /** The provenance record of a computation. */
  ghost function ProvenanceOf(comp: string, events: seq<IrEvent>, coverage: set<CoverageEntry>): ProducedBy {
    var start, end := FirstOfKind(events, ComputationStarted), FirstOfKind(events, ComputationEnded);
    var started := if start.Some? then start.value.ts else if events != [] then Earliest(events) else 0;
    ProducedBy(
      comp,
      if start.Some? then start.value.payload.Text("recipe_id") else None,
      RecipeOf(events),
      if start.Some? then AdapterName(KeyOfEvent(start.value)) else CoveringAdapter(coverage),
      started,
      if end.Some? then end.value.ts else if events != [] then Latest(events) else started)
  }

  method Span(events: seq<IrEvent>) returns (low: Instant, high: Instant)
    requires events != []
    ensures low == Earliest(events) && high == Latest(events)
  {
    low, high := events[0].ts, events[0].ts;
    for i := 1 to |events|
      invariant exists e :: e in events && e.ts == low
      invariant exists e :: e in events && e.ts == high
      invariant forall j :: 0 <= j < i ==> low <= events[j].ts <= high
    {
      if events[i].ts < low {
        low := events[i].ts;
      }
      if events[i].ts > high {
        high := events[i].ts;
      }
    }
  }

  method DescribeProvenance(comp: string, events: seq<IrEvent>, coverage: set<CoverageEntry>) returns (p: ProducedBy)
    ensures p == ProvenanceOf(comp, events, coverage)
  {
    hide RecipeOfEvent;
    var start, end := FirstOfKind(events, ComputationStarted), FirstOfKind(events, ComputationEnded);
    ProducerKeyLeIsTotal();
    var adapters := SortSet(AdapterKeys(coverage), ProducerKeyLe);
    var adapter := AdapterName(if |adapters| == 0 then ProducerKey(ENGINE_PRODUCER, ENGINE_VERSION) else adapters[0]);
    var started, ended := 0, 0;
    if |events| > 0 {
      started, ended := Span(events);
    }
    var recipe, recipeHash := None, None;
    if start.Some? {
      started, adapter := start.value.ts, AdapterName(KeyOfEvent(start.value));
      recipe, recipeHash := start.value.payload.Text("recipe_id"), RecipeOfEvent(start.value);
    }
    if end.Some? {
      ended := end.value.ts;
    }
    p := ProducedBy(comp, recipe, recipeHash, adapter, started, if |events| == 0 && end.None? then started else ended);
  }

  /** Only which events there are matters for the span. */
  lemma SpanReadsMembers(a: seq<IrEvent>, b: seq<IrEvent>)
    requires (forall e :: e in a <==> e in b) && a != []
    ensures b != [] && Earliest(a) == Earliest(b) && Latest(a) == Latest(b)
  {
    assert a[0] in b;
  }
}

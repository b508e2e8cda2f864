/** What every dependency and every conflict that replay records is guaranteed to look like. */
module RecordedEdges {
  import opened Primitives
  import opened TrustClasses
  import opened Fingerprints
  import opened Dependencies
  import opened Paths
  import opened Ir
  import opened Graph
  import opened FirstWins
  import opened GraphTheorems

  /** A recorded dependency is keyed by its own identity, declares a lifetime if volatile,
      and carries a fingerprint that survives being written out and read back. */
  ghost predicate WellRecorded(dep: Dependency) {
    && dep.Id() == dep.key
    && dep.IsConsistent()
    && Canonical(dep.fingerprint)
    && (dep.ttlSeconds.Some? ==> dep.ttlSeconds.value <= U64_MAX)
  }

  lemma ReadEdges(e: IrEvent, position: nat, written: set<Path>, artifacts: seq<ArtifactAt>, comp: string)
    ensures var outcome := ClassifyRead(e, position, written, artifacts, comp);
            outcome.Edge? ==> WellRecorded(outcome.dependency)
  {
    hide ProducingArtifact, Components, FromSchemeKey;
    match e.decoded
    case ReadPayload(path, hash, _) =>
      if hash.Some? {
        FileKeySpellings(path, hash.value, e.ts);
        assert Canonical(Fingerprint(ContentHash, hash.value));
      }
    case _ =>
  }

  lemma ProbeEdges(e: IrEvent)
    ensures var outcome := ClassifyProbe(e);
            outcome.Edge? ==> WellRecorded(outcome.dependency)
  {
    hide Parse, FromSchemeKey, Canonical, ParseTrustClass;
    var scheme, rawKey, rawFp := e.payload.Text("scheme"), e.payload.Text("key"),
      e.payload.Text("observed_fingerprint");
    if scheme.Some? && rawKey.Some? {
      FromSchemeKeyIdempotent(scheme.value, rawKey.value);
    }
    if rawFp.Some? && Parse(rawFp.value).Ok? {
      ParsedIsCanonical(rawFp.value);
    }
  }

  lemma ClassifiedEdges(e: IrEvent, position: nat, written: set<Path>, artifacts: seq<ArtifactAt>, comp: string)
    ensures var outcome := Classify(e, position, written, artifacts, comp);
            outcome.Edge? ==> WellRecorded(outcome.dependency)
  {
    hide ClassifyRead, ClassifyProbe, WellRecorded;
    ReadEdges(e, position, written, artifacts, comp);
    ProbeEdges(e);
  }

  lemma ObservedEdges(events: seq<IrEvent>, comp: string, n: nat)
    requires n < |events| && ObservationAt(events, comp, n).Some?
    ensures WellRecorded(ObservationAt(events, comp, n).value.dependency)
  {
    hide Classify, WellRecorded;
    ClassifiedEdges(events[n], n, OwnWrites(events, comp, n), ArtifactPaths(events), comp);
  }

  predicate KeysDistinct(deps: seq<Dependency>) {
    forall i, j :: 0 <= i < j < |deps| ==> deps[i].key != deps[j].key
  }

  ghost predicate NamesSome(conflict: EdgeConflict, deps: seq<Dependency>) {
    exists i :: 0 <= i < |deps| && deps[i].key == conflict.dependency
  }

  /** Every dependency of a replayed node is well recorded, no two share a key, and every
      conflict names one of them. */
  lemma NodesAreWellRecorded(events: seq<IrEvent>, comp: string)
    ensures var node := NodeOf(events, comp);
            && (forall d :: d in node.dependencies ==> WellRecorded(d))
            && KeysDistinct(node.dependencies)
            && (forall c :: c in node.conflicts ==> NamesSome(c, node.dependencies))
  {
    hide NodeOf, WellRecorded, ObservationAt, Dependency.Id;
    var node, obs := NodeOf(events, comp), ObservationsOf(events, comp);
    FirstObservationWins(events, comp);
    RetainedMembers(obs, |events|);
    forall d | d in node.dependencies ensures WellRecorded(d) && d.key == d.Id() {
      var m :| 0 <= m < |events| && obs[m].Some? && obs[m].value.dependency == d;
      ObservedEdges(events, comp, m);
      KeyIsIdentity(d);
    }
    ConflictMembers(obs, |events|);
    forall c | c in node.conflicts ensures NamesSome(c, node.dependencies) {
      var m :| 0 <= m < |events| && DissentsAt(obs, m) && ConflictAt(obs, m) == c;
      var first := obs[FirstOf(obs, obs[m].value.Id(), |events|)].value.dependency;
      assert first in node.dependencies;
      var i :| 0 <= i < |node.dependencies| && node.dependencies[i] == first;
      assert node.dependencies[i].key == c.dependency;
    }
  }

  lemma KeyIsIdentity(dep: Dependency)
    requires WellRecorded(dep)
    ensures dep.key == dep.Id()
  {
  }
}

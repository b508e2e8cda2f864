/** What replay makes of each event, said of the event's own members. */
module Classifications {
  import opened Wrappers
  import opened TrustClasses
  import opened Fingerprints
  import opened Dependencies
  import opened Paths
  import opened Ir
  import opened Graph
  import opened Coverage
  import opened Replays
  import opened GraphTheorems
  import Order

  // -------------------------------------------------- reading an event

  /** The payload has this text under this name. */
  predicate Says(e: IrEvent, name: string, value: string) {
    e.payload.Object? && name in e.payload.fields && e.payload.fields[name] == TextField(value)
  }

  predicate SaysSomething(e: IrEvent, name: string) {
    e.payload.Object? && name in e.payload.fields && e.payload.fields[name].TextField?
  }

  /** The payload has a count under this name that fits 64 bits. */
  predicate Counts(e: IrEvent, name: string) {
    && e.payload.Object? && name in e.payload.fields && e.payload.fields[name].NumberField?
    && e.payload.fields[name].number < 0x1_0000_0000_0000_0000
  }

  /** A write that names the path, in its typed payload or failing that in the raw one. */
  ghost predicate WritesTo(e: IrEvent, path: Path) {
    e.kind.FsWrite?
      && if e.decoded.WritePayload? then Components(e.decoded.path) == path
         else exists raw :: Says(e, "path", raw) && Components(raw) == path
  }

  /** An earlier canonical event of the computation wrote the path. */
  ghost predicate WroteBefore(events: seq<IrEvent>, comp: string, n: nat, path: Path)
    requires n <= |events|
  {
    exists m :: 0 <= m < n && events[m].computationId == Some(comp) && WritesTo(events[m], path)
  }

  lemma SaysIsText(e: IrEvent, name: string, value: string)
    ensures Says(e, name, value) <==> e.payload.Text(name) == Some(value)
    ensures SaysSomething(e, name) <==> e.payload.Text(name).Some?
  {
  }

  lemma WritesToMeaning(e: IrEvent, path: Path)
    ensures WritesTo(e, path) <==> WrittenPath(e) == Some(path)
  {
    hide Components;
    if raw :| Says(e, "path", raw) && Components(raw) == path {
      SaysIsText(e, "path", raw);
    }
    if e.payload.Text("path").Some? {
      SaysIsText(e, "path", e.payload.Text("path").value);
    }
  }

  lemma OwnWritesMeaning(events: seq<IrEvent>, comp: string, n: nat, path: Path)
    requires n <= |events|
    ensures path in OwnWrites(events, comp, n) <==> WroteBefore(events, comp, n, path)
  {
    hide WritesTo, WrittenPath;
    forall m | 0 <= m < n {
      WritesToMeaning(events[m], path);
    }
  }

  // ---------------------------------------------------------- outcomes

  /** The event is set aside for this reason, under this key. */
  ghost predicate SetAside(events: seq<IrEvent>, comp: string, n: nat, reason: ExclusionReason)
    requires n < |events|
  {
    var outcome := OutcomeAt(events, comp, n);
    outcome.Some? && outcome.value.Excluded? && outcome.value.excludedEdge.reason == reason
  }

  ghost predicate CountsAsEdge(events: seq<IrEvent>, comp: string, n: nat)
    requires n < |events|
  {
    OutcomeAt(events, comp, n).Some? && OutcomeAt(events, comp, n).value.Edge?
  }

  /** An exclusion carries the event, its kind, and nothing of another event. */
  lemma ExclusionNamesItsEvent(events: seq<IrEvent>, comp: string, n: nat)
    requires n < |events|
    ensures OutcomeAt(events, comp, n).Some? && OutcomeAt(events, comp, n).value.Excluded? ==>
              var x := OutcomeAt(events, comp, n).value.excludedEdge;
              && x.eventId == events[n].eventId && x.kind == events[n].kind
              && (events[n].kind.FsRead? || events[n].kind.FsWrite? || events[n].kind.ProbeChecked?
                  || events[n].kind.ArtifactProduced?)
  {
    hide OwnWrites, ArtifactPaths, Parse, FromSchemeKey, ProducingArtifact, Components;
  }

  /** What becomes of a read. Undecodable: malformed. Otherwise, of a path the computation wrote
      before: its own output. Otherwise, impure: set aside as such. Otherwise, without a hash:
      unproven for want of a fingerprint. Otherwise it is a dependency. */
  lemma ReadsAreJudged(events: seq<IrEvent>, comp: string, n: nat)
    requires n < |events| && events[n].computationId == Some(comp) && events[n].kind.FsRead?
    ensures var e := events[n];
            var own := e.decoded.ReadPayload? && WroteBefore(events, comp, n, Components(e.decoded.path));
            && (SetAside(events, comp, n, MalformedPayload) <==> !e.decoded.ReadPayload?)
            && (SetAside(events, comp, n, ReadAfterOwnWrite) <==> own)
            && (SetAside(events, comp, n, Impure) <==> e.decoded.ReadPayload? && !own && e.decoded.impure)
            && (SetAside(events, comp, n, NoFingerprint) <==>
                  e.decoded.ReadPayload? && !own && !e.decoded.impure && e.decoded.hash.None?)
            && (CountsAsEdge(events, comp, n) <==>
                  e.decoded.ReadPayload? && !own && !e.decoded.impure && e.decoded.hash.Some?)
            && !SetAside(events, comp, n, NakedVolatile)
  {
    hide OwnWrites, ArtifactPaths, ProducingArtifact, Components, FromSchemeKey, WroteBefore;
    if events[n].decoded.ReadPayload? {
      OwnWritesMeaning(events, comp, n, Components(events[n].decoded.path));
    }
  }

  /** The dependency a read is recorded as: the file by URL, exact, in the state of its hash, seen
      when it was read, and produced by whichever other computation last left an artifact at
      that path. */
  lemma ReadsAreRecorded(events: seq<IrEvent>, comp: string, n: nat)
    requires n < |events| && events[n].computationId == Some(comp) && events[n].kind.FsRead?
    requires CountsAsEdge(events, comp, n)
    ensures var e, dep := events[n], OutcomeAt(events, comp, n).value.dependency;
            && e.decoded.ReadPayload? && e.decoded.hash.Some?
            && dep.key == "file://" + e.decoded.path && dep.scheme == "file" && dep.trustClass == Exact
            && dep.fingerprint == Fingerprint(ContentHash, e.decoded.hash.value)
            && dep.observedAt == e.ts && dep.ttlSeconds.None?
            && dep.producedBy == LatestProducer(events, Components(e.decoded.path), comp, n)
  {
    hide OwnWrites, ArtifactPaths, ProducingArtifact, LatestProducer, Components, FromSchemeKey;
    if events[n].decoded.ReadPayload? {
      ArtifactPathsLocated(events, Components(events[n].decoded.path), comp, n);
    }
  }

  /** The key of a set-aside read or write: the file it names, in the typed payload or failing
      that in the raw one, or none. */
  lemma FilesAreKeyed(events: seq<IrEvent>, comp: string, n: nat)
    requires n < |events| && events[n].computationId == Some(comp)
    requires events[n].kind.FsRead? || events[n].kind.FsWrite?
    requires OutcomeAt(events, comp, n).value.Excluded?
    ensures var e, x := events[n], OutcomeAt(events, comp, n).value.excludedEdge;
            && x.scheme == Some("file")
            && (e.decoded.ReadPayload? && e.kind.FsRead? ==> x.key == Some(FromSchemeKey("file", e.decoded.path)))
            && (!(e.decoded.ReadPayload? && e.kind.FsRead?) ==>
                  && (x.key.Some? <==> SaysSomething(e, "path"))
                  && forall raw :: Says(e, "path", raw) ==> x.key == Some(FromSchemeKey("file", raw)))
  {
    hide OwnWrites, ArtifactPaths, ProducingArtifact, Components, FromSchemeKey;
  }

  /** The spellings of the four classes in a payload. */
  predicate NamesClass(e: IrEvent, name: string, c: TrustClass) {
    || (c.Exact? && Says(e, name, "exact"))
    || (c.Versioned? && Says(e, name, "versioned"))
    || (c.Heuristic? && Says(e, name, "heuristic"))
    || (c.Volatile? && Says(e, name, "volatile"))
  }

  predicate NamesSomeClass(e: IrEvent, name: string) {
    Says(e, name, "exact") || Says(e, name, "versioned") || Says(e, name, "heuristic") || Says(e, name, "volatile")
  }

  lemma ClassIsRead(e: IrEvent, name: string, c: TrustClass)
    ensures NamesClass(e, name, c) <==>
            e.payload.Text(name).Some? && ParseTrustClass(e.payload.Text(name).value) == Some(c)
    ensures NamesSomeClass(e, name) <==>
            e.payload.Text(name).Some? && ParseTrustClass(e.payload.Text(name).value).Some?
  {
    SpellingsDiffer();
  }

  lemma SpellingsDiffer()
    ensures "exact" != "versioned" && "exact" != "heuristic" && "exact" != "volatile"
    ensures "versioned" != "heuristic" && "versioned" != "volatile" && "heuristic" != "volatile"
  {
    assert "exact"[0] == 'e' && "versioned"[1] == 'e' && "heuristic"[0] == 'h' && "volatile"[1] == 'o';
  }

  ghost predicate ReadableFingerprint(e: IrEvent) {
    exists raw :: Says(e, "observed_fingerprint", raw) && Parse(raw).Ok?
  }

  /** What becomes of a probe report. It needs a scheme, a key and one of the four class names;
      then a fingerprint, which must be readable; and a volatile one needs a lifetime. The
      first of these that is missing decides. */
  lemma ReportsAreJudged(events: seq<IrEvent>, comp: string, n: nat)
    requires n < |events| && events[n].computationId == Some(comp) && events[n].kind.ProbeChecked?
    ensures var e := events[n];
            var named := SaysSomething(e, "scheme") && SaysSomething(e, "key") && NamesSomeClass(e, "trust_class");
            var naked := Says(e, "trust_class", "volatile") && !Counts(e, "ttl_seconds");
            && (SetAside(events, comp, n, MalformedPayload) <==>
                  !named || (SaysSomething(e, "observed_fingerprint") && !ReadableFingerprint(e)))
            && (SetAside(events, comp, n, NoFingerprint) <==> named && !SaysSomething(e, "observed_fingerprint"))
            && (SetAside(events, comp, n, NakedVolatile) <==> named && ReadableFingerprint(e) && naked)
            && (CountsAsEdge(events, comp, n) <==> named && ReadableFingerprint(e) && !naked)
            && !SetAside(events, comp, n, Impure) && !SetAside(events, comp, n, ReadAfterOwnWrite)
  {
    hide OwnWrites, ArtifactPaths, Parse, FromSchemeKey, ParseTrustClass;
    var e := events[n];
    ClassIsRead(e, "trust_class", Volatile);
    ReadableMeaning(e);
  }

  lemma ReadableMeaning(e: IrEvent)
    ensures ReadableFingerprint(e) <==>
            e.payload.Text("observed_fingerprint").Some? && Parse(e.payload.Text("observed_fingerprint").value).Ok?
  {
    hide Parse;
    if e.payload.Text("observed_fingerprint").Some? {
      assert Says(e, "observed_fingerprint", e.payload.Text("observed_fingerprint").value);
    }
  }

  /** The edge a counted report stands for, and the key and scheme of one set aside. */
  lemma ReportsAreRead(events: seq<IrEvent>, comp: string, n: nat, scheme: string, key: string, c: TrustClass,
                       raw: string)
    requires n < |events| && events[n].computationId == Some(comp) && events[n].kind.ProbeChecked?
    requires Says(events[n], "scheme", scheme) && Says(events[n], "key", key)
    ensures var outcome := OutcomeAt(events, comp, n).value;
            && (outcome.Excluded? ==> outcome.excludedEdge.key == Some(FromSchemeKey(scheme, key))
                                      && outcome.excludedEdge.scheme == Some(scheme))
            && (outcome.Edge? && NamesClass(events[n], "trust_class", c)
                && Says(events[n], "observed_fingerprint", raw) ==>
                  && Parse(raw).Ok?
                  && outcome.dependency.key == FromSchemeKey(scheme, key) && outcome.dependency.scheme == scheme
                  && outcome.dependency.trustClass == c && outcome.dependency.fingerprint == Parse(raw).value
                  && outcome.dependency.observedAt == events[n].ts && outcome.dependency.producedBy.None?
                  && (outcome.dependency.ttlSeconds.Some? <==> Counts(events[n], "ttl_seconds"))
                  && (Counts(events[n], "ttl_seconds") ==>
                        events[n].payload.fields["ttl_seconds"] == NumberField(outcome.dependency.ttlSeconds.value)))
  {
    hide OwnWrites, ArtifactPaths, Parse, FromSchemeKey, ParseTrustClass;
    ClassIsRead(events[n], "trust_class", c);
  }

  /** What becomes of every other event: a decodable write is an output, a production that names
      its artifact claims it, a tool that starts a shell or an agent is an obligation, and
      whatever is none of these is only counted. */
  lemma OthersAreJudged(events: seq<IrEvent>, comp: string, n: nat)
    requires n < |events| && events[n].computationId == Some(comp)
    requires !events[n].kind.FsRead? && !events[n].kind.ProbeChecked?
    ensures var e, outcome := events[n], OutcomeAt(events, comp, n).value;
            var shell := Says(e, "tool_kind", "bash") || Says(e, "tool_kind", "task");
            && (outcome.Output? <==> e.kind.FsWrite? && e.decoded.WritePayload?)
            && (outcome.Output? ==> outcome.output.eventId == e.eventId && outcome.output.path == e.decoded.path
                                    && outcome.output.hash == e.decoded.hash)
            && (outcome.Artifact? <==> e.kind.ArtifactProduced? && SaysSomething(e, "artifact_id"))
            && (outcome.Artifact? ==> Says(e, "artifact_id", outcome.artifact))
            && (outcome.Obligation? <==> e.kind.ToolInvoked? && shell)
            && (outcome.Obligation? ==> outcome.obligation.eventId == e.eventId
                                        && outcome.obligation.producer == e.producer
                                        && Says(e, "tool_kind", outcome.obligation.toolKind)
                                        && if SaysSomething(e, "tool_name")
                                           then Says(e, "tool_name", outcome.obligation.toolName)
                                           else outcome.obligation.toolName == "")
            && (SetAside(events, comp, n, MalformedPayload) <==>
                  || (e.kind.FsWrite? && !e.decoded.WritePayload?)
                  || (e.kind.ArtifactProduced? && !SaysSomething(e, "artifact_id")))
            && (outcome.Excluded? ==> outcome.excludedEdge.reason == MalformedPayload)
            && (outcome.Unmodeled? <==>
                  !e.kind.FsWrite? && !e.kind.ArtifactProduced? && !(e.kind.ToolInvoked? && shell))
  {
    hide OwnWrites, ArtifactPaths, FromSchemeKey, Components;
  }

  /** A production is at odds with its envelope exactly when it names another computation. */
  lemma MismatchesAreNoted(events: seq<IrEvent>, comp: string, n: nat)
    requires n < |events| && events[n].computationId == Some(comp)
    requires OutcomeAt(events, comp, n).value.Artifact?
    ensures var e, defect := events[n], OutcomeAt(events, comp, n).value.defect;
            && (defect.Some? <==> SaysSomething(e, "produced_by") && !Says(e, "produced_by", comp))
            && (defect.Some? ==>
                  && defect.value.ArtifactProducerMismatch? && defect.value.eventId == e.eventId
                  && defect.value.envelope == Some(comp) && Says(e, "produced_by", defect.value.payload))
  {
    hide OwnWrites, ArtifactPaths, FromSchemeKey, Components;
  }

  // ------------------------------------------------ left unproven

  /** The event shows that the computation depended on something, without showing what state it
      was in: it cannot be decoded, or names no readable state. */
  ghost predicate LeavesADoubt(events: seq<IrEvent>, comp: string, n: nat)
    requires n < |events|
  {
    var e := events[n];
    && e.computationId == Some(comp)
    && (|| (e.kind.FsRead? && (!e.decoded.ReadPayload?
              || (!e.decoded.impure && e.decoded.hash.None?
                  && !WroteBefore(events, comp, n, Components(e.decoded.path)))))
        || (e.kind.FsWrite? && !e.decoded.WritePayload?)
        || (e.kind.ArtifactProduced? && !SaysSomething(e, "artifact_id"))
        || (e.kind.ProbeChecked? && !ReportsAState(e)))
  }

  /** A report from which an edge can be recorded. */
  ghost predicate ReportsAState(e: IrEvent) {
    && SaysSomething(e, "scheme") && SaysSomething(e, "key") && NamesSomeClass(e, "trust_class")
    && ReadableFingerprint(e) && (Says(e, "trust_class", "volatile") ==> Counts(e, "ttl_seconds"))
  }

  lemma DoubtIsUnproven(events: seq<IrEvent>, comp: string, n: nat)
    requires n < |events|
    ensures LeavesADoubt(events, comp, n) <==>
            OutcomeAt(events, comp, n).Some? && OutcomeAt(events, comp, n).value.Excluded?
            && OutcomeAt(events, comp, n).value.excludedEdge.reason.IsUnprovenDependency()
  {
    hide OutcomeAt, WroteBefore, ReadableFingerprint, SaysSomething, Says, Counts, NamesSomeClass, Components;
    if events[n].computationId == Some(comp) {
      Belongs(events, comp, n);
      if events[n].kind.FsRead? {
        ReadsAreJudged(events, comp, n);
      } else if events[n].kind.ProbeChecked? {
        ReportsAreJudged(events, comp, n);
        ReadableIsSaid(events[n]);
      } else {
        OthersAreJudged(events, comp, n);
      }
    } else {
      assert OutcomeAt(events, comp, n).None? by { Foreign(events, comp, n); }
    }
  }

  lemma Belongs(events: seq<IrEvent>, comp: string, n: nat)
    requires n < |events| && events[n].computationId == Some(comp)
    ensures OutcomeAt(events, comp, n).Some?
  {
    hide Classify;
  }

  lemma Foreign(events: seq<IrEvent>, comp: string, n: nat)
    requires n < |events| && events[n].computationId != Some(comp)
    ensures OutcomeAt(events, comp, n).None?
  {
  }

  lemma ReadableIsSaid(e: IrEvent)
    ensures ReadableFingerprint(e) ==> SaysSomething(e, "observed_fingerprint")
  {
    hide Parse;
  }

  /** Exactly when a computation's node holds an exclusion that leaves a dependency unproven:
      when one of its events leaves a doubt. */
  lemma NodeIsUnprovenExactlyWhen(events: seq<IrEvent>, comp: string)
    ensures (exists x :: x in NodeOf(events, comp).excluded && x.reason.IsUnprovenDependency()) <==>
            exists n :: 0 <= n < |events| && LeavesADoubt(events, comp, n)
  {
    hide NodeOf, LeavesADoubt, OutcomeAt, ExclusionReason.IsUnprovenDependency;
    forall x {
      ExcludedHoldsExclusions(events, comp, x);
    }
    forall n | 0 <= n < |events| {
      DoubtIsUnproven(events, comp, n);
    }
    if n :| 0 <= n < |events| && LeavesADoubt(events, comp, n) {
      assert OutcomeAt(events, comp, n).value.excludedEdge in NodeOf(events, comp).excluded;
    }
  }

  // ------------------------------------------------- what the index reads

  /** The event says which identity its doubt is about. */
  ghost predicate DoubtsAbout(e: IrEvent, id: string) {
    || (e.kind.FsRead? && e.decoded.ReadPayload? && id == FromSchemeKey("file", e.decoded.path))
    || (e.kind.FsRead? && !e.decoded.ReadPayload?
        && exists raw :: Says(e, "path", raw) && id == FromSchemeKey("file", raw))
    || (e.kind.ProbeChecked? && ReportsOn(e, id))
  }

  ghost predicate ReportsOn(e: IrEvent, id: string) {
    exists scheme, key :: Says(e, "scheme", scheme) && Says(e, "key", key) && id == FromSchemeKey(scheme, key)
  }

  /** The event shows what state the computation saw the identity in. */
  ghost predicate ShowsStateOf(events: seq<IrEvent>, comp: string, n: nat, id: string)
    requires n < |events|
  {
    var e := events[n];
    && e.computationId == Some(comp)
    && (|| (e.kind.FsRead? && e.decoded.ReadPayload? && !e.decoded.impure && e.decoded.hash.Some?
            && !WroteBefore(events, comp, n, Components(e.decoded.path)) && id == "file://" + e.decoded.path)
        || (e.kind.ProbeChecked? && ReportsAState(e) && ReportsOn(e, id)))
  }

  lemma DoubtIsKeyed(events: seq<IrEvent>, comp: string, n: nat, id: string)
    requires n < |events|
    ensures LeavesUnprovenAt(events, comp, id, n) <==> LeavesADoubt(events, comp, n) && DoubtsAbout(events[n], id)
  {
    hide OutcomeAt, LeavesADoubt, ReportsAState, FromSchemeKey, Says, SaysSomething,
      ExclusionReason.IsUnprovenDependency;
    DoubtIsUnproven(events, comp, n);
    if OutcomeAt(events, comp, n).Some? && OutcomeAt(events, comp, n).value.Excluded? {
      ExclusionNamesItsEvent(events, comp, n);
      BelongsOrNot(events, comp, n);
      if events[n].kind.FsRead? {
        FilesAreKeyed(events, comp, n);
        SomethingSaid(events[n], "path");
      } else if events[n].kind.ProbeChecked? {
        ReportKeyed(events, comp, n, id);
      }
    }
  }

  lemma BelongsOrNot(events: seq<IrEvent>, comp: string, n: nat)
    requires n < |events|
    ensures OutcomeAt(events, comp, n).Some? <==> events[n].computationId == Some(comp)
  {
    hide Classify;
  }

  lemma SomethingSaid(e: IrEvent, name: string)
    ensures SaysSomething(e, name) <==> exists value :: Says(e, name, value)
  {
    if SaysSomething(e, name) {
      assert Says(e, name, e.payload.fields[name].text);
    }
  }

  lemma ReportKeyed(events: seq<IrEvent>, comp: string, n: nat, id: string)
    requires n < |events| && events[n].computationId == Some(comp) && events[n].kind.ProbeChecked?
    ensures var outcome := OutcomeAt(events, comp, n).value;
            && (outcome.Excluded? ==> (outcome.excludedEdge.key == Some(id) <==> ReportsOn(events[n], id)))
            && (outcome.Edge? ==> (outcome.dependency.Id() == id <==> ReportsOn(events[n], id)))
  {
    hide OwnWrites, ArtifactPaths, Parse, FromSchemeKey, ParseTrustClass;
    var e := events[n];
    var scheme, key := e.payload.Text("scheme"), e.payload.Text("key");
    if scheme.Some? && key.Some? {
      assert Says(e, "scheme", scheme.value) && Says(e, "key", key.value);
      FromSchemeKeyIdempotent(scheme.value, key.value);
    }
  }

  lemma StateIsRecorded(events: seq<IrEvent>, comp: string, n: nat, id: string)
    requires n < |events|
    ensures ObservesIn(events, comp, id, n) <==> ShowsStateOf(events, comp, n, id)
  {
    hide OutcomeAt, FromSchemeKey, WroteBefore, Components, ReportsOn, SaysSomething, Says, Counts, ReadableFingerprint,
      NamesSomeClass;
    BelongsOrNot(events, comp, n);
    if events[n].computationId == Some(comp) {
      if events[n].kind.FsRead? {
        ReadsAreJudged(events, comp, n);
        if CountsAsEdge(events, comp, n) {
          ReadsAreRecorded(events, comp, n);
          assert "file" + "://" == "file://";
          PrefixOfJoin("file", events[n].decoded.path);
          IdentityMeaning("file", "file://" + events[n].decoded.path);
        }
      } else if events[n].kind.ProbeChecked? {
        ReportsAreJudged(events, comp, n);
        ReportKeyed(events, comp, n, id);
      } else {
        OthersAreJudged(events, comp, n);
      }
    }
  }

  /** The reverse index, read off the members of the events: a computation stands under an
      identity as a consumer exactly when one of its events shows a state of it, and as unproven
      exactly when one leaves a doubt about it. */
  lemma IndexReadsMembers(graph: DerivedGraph, log: seq<IrEvent>, manifests: Manifests, comp: string, id: string)
    requires IsReplayOf(graph, log, manifests) && comp in graph.computations
    ensures var events, index := Order.Linearize(log), graph.reverseIndex;
            && (id in index && comp in index[id].consumingComputations <==>
                  exists n :: 0 <= n < |events| && ShowsStateOf(events, comp, n, id))
            && (id in index && comp in index[id].unprovenComputations <==>
                  exists n :: 0 <= n < |events| && LeavesADoubt(events, comp, n) && DoubtsAbout(events[n], id))
  {
    hide ObservesIn, LeavesUnprovenAt, ShowsStateOf, LeavesADoubt, DoubtsAbout, IsReplayOf, Order.Linearize;
    IndexReadsTheLog(graph, log, manifests, comp, id);
    var events := Order.Linearize(log);
    forall n | 0 <= n < |events|
      ensures LeavesUnprovenAt(events, comp, id, n) <==> LeavesADoubt(events, comp, n) && DoubtsAbout(events[n], id)
      ensures ObservesIn(events, comp, id, n) <==> ShowsStateOf(events, comp, n, id)
    {
      DoubtIsKeyed(events, comp, n, id);
      StateIsRecorded(events, comp, n, id);
    }
  }
}

/** Certificates and the invariants a certificate must satisfy. */
module Certificates {
  import opened Primitives
  import opened Wrappers
  import opened Dependencies
  import opened Ir
  import opened Coverage
  import opened Validity
  import Graph

  /** The certified artifact, as the event that produced it describes it. */
  datatype ArtifactRecord = ArtifactRecord(
    id: string, path: Option<string>, kind: string, contentHash: Hash, size: nat, comparator: Option<string>)

  /** Which computation produced the artifact, from what recipe, through which adapter, and
      when. */
  datatype ProducedBy = ProducedBy(
    computationId: string, recipe: Option<string>, recipeHash: Option<Hash>, adapter: string, started: Instant,
      ended: Instant)

  const CERTIFICATE_SCHEMA := "freshdag.certificate/v0.1"

  function Zeros(n: nat): (s: string)
    ensures |s| == n && forall i :: 0 <= i < n ==> s[i] == '0'
  {
    if n == 0 then "" else Zeros(n - 1) + "0"
  }

  /** The identifier a certificate holds while its own is being derived. */
  function ZeroHash(): Hash {
    var zero := "blake3:" + Zeros(64);
    assert zero[..7] == "blake3:";
    zero
  }

  datatype Certificate = Certificate(
    schema: string,
    certId: Hash,
    artifact: ArtifactRecord,
    producedBy: ProducedBy,
    dependsOn: seq<Dependency>,
    status: Status,
    reasons: seq<Reason>,
    coverage: set<CoverageEntry>,
    checkedAt: Instant)

  /** The hash of a serialized certificate. */
  type Identify = Certificate -> Hash

  /** A certificate is identified by its hash with the identifier itself zeroed out. */
  function DeriveCertId(c: Certificate, identify: Identify): Hash {
    identify(c.(certId := ZeroHash()))
  }

  datatype InvariantError =
    | SchemaMismatch(schema: string)
    | CoverageDeficitFound(toolKind: string)
    | ProducerMissing(producer: string)
    | ValidWithLowerTrust(key: string)
    | MissingRecipeHashFor(status: Status)
    | MissingReasons(status: Status)
    | NakedVolatileDependency(key: string)
    | EmptyObservationCoverage
  {
    /** An evaluation outcome downgrades with a reason; anything else is a malformed
        certificate. */
    function Downgrade(): Option<ReasonCode> {
      match this
      case CoverageDeficitFound(_) => Some(CoverageDeficit)
      case ProducerMissing(_) => Some(ProducerMissingFromCoverage)
      case _ => None
    }
  }

  function Declared(coverage: set<CoverageEntry>): set<string> {
    set c | c in coverage :: c.producer
  }

  /** The first event, in stream order, whose producer is not declared. */
  function FirstUndeclared(events: seq<IrEvent>, declared: set<string>): Option<string> {
    if events == [] then None
    else if events[0].producer !in declared then Some(events[0].producer)
    else FirstUndeclared(events[1..], declared)
  }

  /** The tool kind of the first subprocess invocation, in stream order. */
  function FirstSubprocess(events: seq<IrEvent>): Option<string> {
    if events == [] then None
    else if Graph.IsSubprocessTool(events[0]) then events[0].payload.Text("tool_kind")
    else FirstSubprocess(events[1..])
  }

  /** The contract's coverage rule: every producer is declared, and a valid certificate over
      a subprocess needs an observer that discharges it. */
  function CheckCoverageDeficit(status: Status, coverage: set<CoverageEntry>,
                                events: seq<IrEvent>): Option<InvariantError> {
    var missing := FirstUndeclared(events, Declared(coverage));
    if missing.Some? then Some(ProducerMissing(missing.value))
    else if !status.Valid? then None
    else if FirstSubprocess(events).Some? && !HasFsCoveredObserver(coverage)
    then Some(CoverageDeficitFound(FirstSubprocess(events).value))
    else None
  }

  lemma {:induction false} FirstUndeclaredMeaning(events: seq<IrEvent>, declared: set<string>)
    ensures FirstUndeclared(events, declared).None? <==> forall e :: e in events ==> e.producer in declared
    ensures FirstUndeclared(events, declared).Some? ==>
              exists e :: e in events && e.producer == FirstUndeclared(events, declared).value
                && e.producer !in declared
  {
    if events != [] {
      FirstUndeclaredMeaning(events[1..], declared);
      assert events == [events[0]] + events[1..];
    }
  }

  lemma {:induction false} FirstSubprocessMeaning(events: seq<IrEvent>)
    ensures FirstSubprocess(events).Some? <==> exists e :: e in events && Graph.IsSubprocessTool(e)
  {
    if events != [] {
      FirstSubprocessMeaning(events[1..]);
      assert events == [events[0]] + events[1..];
    }
  }

  /** The key of the first dependency satisfying a test, if any. */
  function FirstKey(dependsOn: seq<Dependency>, test: Dependency -> bool): Option<string> {
    if dependsOn == [] then None
    else if test(dependsOn[0]) then Some(dependsOn[0].key)
    else FirstKey(dependsOn[1..], test)
  }

  lemma {:induction false} FirstKeyMeaning(dependsOn: seq<Dependency>, test: Dependency -> bool)
    ensures FirstKey(dependsOn, test).None? <==> forall d :: d in dependsOn ==> !test(d)
  {
    if dependsOn != [] {
      FirstKeyMeaning(dependsOn[1..], test);
      assert dependsOn == [dependsOn[0]] + dependsOn[1..];
    }
  }

  /** The first violation of the certificate's own rules, if any. */
  function CheckInvariants(c: Certificate): Option<InvariantError> {
    var weak := FirstKey(c.dependsOn, (d: Dependency) => !d.trustClass.IsStrong());
    var naked := FirstKey(c.dependsOn, (d: Dependency) => !d.IsConsistent());
    if c.schema != CERTIFICATE_SCHEMA then Some(SchemaMismatch(c.schema))
    else if c.coverage == {} then Some(EmptyObservationCoverage)
    else if c.status.Valid? && weak.Some? then Some(ValidWithLowerTrust(weak.value))
    else if c.status.IsUsable() && c.producedBy.recipeHash.None? then Some(MissingRecipeHashFor(c.status))
    else if !c.status.Valid? && c.reasons == [] then Some(MissingReasons(c.status))
    else if naked.Some? then Some(NakedVolatileDependency(naked.value))
    else None
  }

  lemma CheckInvariantsMeaning(c: Certificate)
    ensures CheckInvariants(c).None? <==>
            && c.schema == CERTIFICATE_SCHEMA
            && c.coverage != {}
            && (c.status.Valid? ==> forall d :: d in c.dependsOn ==> d.trustClass.IsStrong())
            && (c.status.IsUsable() ==> c.producedBy.recipeHash.Some?)
            && (!c.status.Valid? ==> c.reasons != [])
            && (forall d :: d in c.dependsOn ==> d.IsConsistent())
    ensures CheckInvariants(c).Some? ==> CheckInvariants(c).value.Downgrade().None?
  {
    FirstKeyMeaning(c.dependsOn, (d: Dependency) => !d.trustClass.IsStrong());
    FirstKeyMeaning(c.dependsOn, (d: Dependency) => !d.IsConsistent());
  }
}

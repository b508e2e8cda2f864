/** Sealing: the edge outcomes become one certificate that meets its own rules, or an error. */
module Seal {
  import opened Primitives
  import opened Wrappers
  import opened Dependencies
  import opened Ir
  import opened Coverage
  import opened Validity
  import opened Certificates
  import Graph

  datatype EngineError =
    | UnknownArtifact(artifact: string)
    | AmbiguousArtifact(artifact: string, claimants: set<string>)
    | NondeterministicReplay
    | MalformedArtifactEvent(artifact: string, field: string)
    | MissingRecipeHash(status: Status)
    | MalformedCertificate(source: InvariantError)
    | CoverageAssemblyBug
    | Aggregation(mismatch: AggregationError)
    | InternalInconsistency

  /** Who assembled the coverage list. An undeclared producer that the engine has not accounted
      for is a fault of its own list, and in a document merely a reason. */
  datatype CoverageAuthority = EngineAssembled | FromDocument

  datatype EdgeOutcome = EdgeOutcome(dependency: Dependency, verdict: EdgeVerdict, reason: Option<ReasonCode>)

  datatype SealInput = SealInput(
    artifact: ArtifactRecord,
    producedBy: ProducedBy,
    edges: seq<EdgeOutcome>,
    artifactReasons: seq<ReasonCode>,
    coverage: set<CoverageEntry>,
    events: seq<IrEvent>,
    authority: CoverageAuthority,
    accountedMissing: set<string>,
    checkedAt: Instant,
    identify: Identify)

  // ------------------------------------------------------------ pieces

  /** Cause before symptom. */
  function ArtifactReasonRank(code: ReasonCode): nat {
    match code
    case CoverageDeficit => 0
    case ProducerMissingFromCoverage => 1
    case NoDependenciesObserved => 2
    case RecipeIdentityUnavailable => 3
    case UnprovenDependency => 4
    case _ => 255
  }

  function CapAtUnknown(status: Status): Status {
    if status.IsUsable() then Unknown else status
  }

  /** Artifact-scoped reasons that forbid a usable status. */
  predicate Caps(code: ReasonCode) {
    code.CoverageDeficit? || code.ProducerMissingFromCoverage? || code.RecipeIdentityUnavailable?
      || code.UnprovenDependency?
  }

  datatype GateOutcome = GateOutcome(reasons: seq<ReasonCode>, cap: bool)

  predicate HasUnaccountedProducer(coverage: set<CoverageEntry>, events: seq<IrEvent>, accounted: set<string>) {
    exists i :: 0 <= i < |events| && events[i].producer !in Declared(coverage) && events[i].producer !in accounted
  }

  /** Run the coverage rule and translate what it finds. */
  function RunGate(status: Status, coverage: set<CoverageEntry>, events: seq<IrEvent>, authority: CoverageAuthority,
                   accounted: set<string>): Result<GateOutcome, EngineError> {
    if authority.EngineAssembled? && HasUnaccountedProducer(coverage, events, accounted) then Err(CoverageAssemblyBug)
    else match CheckCoverageDeficit(status, coverage, events) {
      case None => Ok(GateOutcome([], false))
      case Some(violation) =>
        match violation.Downgrade()
        case None => Err(MalformedCertificate(violation))
        case Some(ProducerMissingFromCoverage) =>
          if !violation.ProducerMissing? then Err(InternalInconsistency)
          else if authority.EngineAssembled? && violation.producer !in accounted then Err(CoverageAssemblyBug)
          else Ok(GateOutcome([ProducerMissingFromCoverage], true))
        case Some(code) => Ok(GateOutcome([code], true))
    }
  }

  /** Append each code that is not there yet. */
  function Adopt(scoped: seq<ReasonCode>, found: seq<ReasonCode>): seq<ReasonCode> {
    if found == [] then scoped
    else
      var earlier := Adopt(scoped, found[..|found| - 1]);
      if found[|found| - 1] in earlier then earlier else earlier + [found[|found| - 1]]
  }

  function InsertByRank(code: ReasonCode, sorted: seq<ReasonCode>): seq<ReasonCode> {
    if sorted == [] || ArtifactReasonRank(code) <= ArtifactReasonRank(sorted[0]) then [code] + sorted
    else [sorted[0]] + InsertByRank(code, sorted[1..])
  }

  /** The stable sort of artifact-scoped reasons. */
  function SortByRank(codes: seq<ReasonCode>): seq<ReasonCode> {
    if codes == [] then [] else InsertByRank(codes[0], SortByRank(codes[1..]))
  }

  function ArtifactReasons(codes: seq<ReasonCode>): seq<Reason> {
    seq(|codes|, i requires 0 <= i < |codes| => Reason("", codes[i]))
  }

  function EdgeReasons(edges: seq<EdgeOutcome>): seq<Reason> {
    if edges == [] then []
    else
      var last := edges[|edges| - 1];
      EdgeReasons(edges[..|edges| - 1])
      + if last.reason.Some? then [Reason(last.dependency.key, last.reason.value)] else []
  }

  function KeysNamed(reasons: seq<Reason>): set<string> {
    set r | r in reasons && !r.code.IsArtifactScoped() :: r.key
  }

  function ArtifactCodes(reasons: seq<Reason>): seq<ReasonCode> {
    if reasons == [] then []
    else ArtifactCodes(reasons[..|reasons| - 1])
         + if reasons[|reasons| - 1].code.IsArtifactScoped() then [reasons[|reasons| - 1].code] else []
  }

  function Verdicts(edges: seq<EdgeOutcome>): (vs: seq<EdgeVerdict>)
    ensures |vs| == |edges|
  {
    seq(|edges|, i requires 0 <= i < |edges| => edges[i].verdict)
  }

  function Keys(edges: seq<EdgeOutcome>): (ks: seq<string>)
    ensures |ks| == |edges|
  {
    seq(|edges|, i requires 0 <= i < |edges| => edges[i].dependency.key)
  }

  function DependsOn(edges: seq<EdgeOutcome>): (ds: seq<Dependency>)
    ensures |ds| == |edges|
  {
    seq(|edges|, i requires 0 <= i < |edges| => edges[i].dependency)
  }

  /** The certificate before it is identified. */
  function Drafted(input: SealInput, status: Status, reasons: seq<Reason>): Certificate {
    Certificate(CERTIFICATE_SCHEMA, ZeroHash(), input.artifact, input.producedBy, DependsOn(input.edges), status,
                reasons,
                input.coverage, input.checkedAt)
  }

  // ------------------------------------------------------------- sealing

  method AdoptReasons(scoped: seq<ReasonCode>, found: seq<ReasonCode>) returns (r: seq<ReasonCode>)
    ensures r == Adopt(scoped, found)
  {
    r := scoped;
    for i := 0 to |found|
      invariant r == Adopt(scoped, found[..i])
    {
      assert found[..i + 1][..i] == found[..i];
      if found[i] !in r {
        r := r + [found[i]];
      }
    }
    assert found[..|found|] == found;
  }

  predicate CarriesArtifactReason(edges: seq<EdgeOutcome>) {
    exists i :: 0 <= i < |edges| && edges[i].reason.Some? && edges[i].reason.value.IsArtifactScoped()
  }

  /** The edges' reasons in order, unless one of them is not an edge's to give. */
  method CollectEdgeReasons(edges: seq<EdgeOutcome>) returns (r: Option<seq<Reason>>)
    ensures r == if CarriesArtifactReason(edges) then None else Some(EdgeReasons(edges))
  {
    var reasons: seq<Reason> := [];
    for i := 0 to |edges|
      invariant forall j :: 0 <= j < i && edges[j].reason.Some? ==> !edges[j].reason.value.IsArtifactScoped()
      invariant reasons == EdgeReasons(edges[..i])
    {
      assert edges[..i + 1][..i] == edges[..i];
      var edge := edges[i];
      if edge.reason.Some? {
        if edge.reason.value.IsArtifactScoped() {
          return None;
        }
        reasons := reasons + [Reason(edge.dependency.key, edge.reason.value)];
      }
    }
    assert edges[..|edges|] == edges;
    return Some(reasons);
  }

  /** Aggregate, gate and assemble. Every error means no certificate at all. */
  method SealCertificate(input: SealInput) returns (r: Result<Certificate, EngineError>)
    ensures r == Sealed(input)
  {
    hide RunGate, CheckInvariants, Aggregated, SortByRank, KeysNamed, Adopt, ArtifactCodes, ArtifactReasons, Caps,
      Drafted, DeriveCertId, EdgeReasons, CarriesArtifactReason;
    var aggregation := Aggregate(Verdicts(input.edges), Keys(input.edges));
    var aggregated;
    match aggregation {
      case Err(mismatch) => return Err(Aggregation(mismatch));
      case Ok(validity) => aggregated := validity;
    }
    var collected := CollectEdgeReasons(input.edges);
    if collected.None? {
      return Err(InternalInconsistency);
    }
    var edgeReasons := collected.value;
    if !aggregated.value.Valid? {
      var ours := set x | x in edgeReasons :: x.key;
      var theirs := KeysNamed(aggregated.reasons);
      if ours != theirs {
        return Err(InternalInconsistency);
      }
    }
    var scoped := AdoptReasons(input.artifactReasons, ArtifactCodes(aggregated.reasons));
    var status := aggregated.value;
    var gate := RunGate(status, input.coverage, input.events, input.authority, input.accountedMissing);
    if gate.Err? {
      return Err(gate.error);
    }
    scoped := AdoptReasons(scoped, gate.value.reasons);
    if input.producedBy.recipeHash.None? && status.IsUsable() && RecipeIdentityUnavailable !in scoped {
      scoped := scoped + [RecipeIdentityUnavailable];
    }
    var capped := gate.value.cap || exists i :: 0 <= i < |scoped| && Caps(scoped[i]);
    var finalStatus := if capped then CapAtUnknown(status) else status;
    scoped := SortByRank(scoped);
    var reasons := edgeReasons + ArtifactReasons(scoped);
    if finalStatus.Valid? {
      if reasons != [] {
        return Err(InternalInconsistency);
      }
    } else if reasons == [] {
      return Err(InternalInconsistency);
    }
    if finalStatus.IsUsable() && input.producedBy.recipeHash.None? {
      return Err(MissingRecipeHash(finalStatus));
    }
    var certificate := Drafted(input, finalStatus, reasons);
    var violation := CheckInvariants(certificate);
    if violation.Some? {
      return Err(MalformedCertificate(violation.value));
    }
    return Ok(certificate.(certId := DeriveCertId(certificate, input.identify)));
  }

  /** The artifact-scoped reasons once aggregation, the gate and the recipe rule have each
      added what was missing. */
  function ScopedReasons(input: SealInput, aggregated: Validity, gate: GateOutcome): seq<ReasonCode> {
    var scoped := Adopt(Adopt(input.artifactReasons, ArtifactCodes(aggregated.reasons)), gate.reasons);
    if input.producedBy.recipeHash.None? && aggregated.value.IsUsable() && RecipeIdentityUnavailable !in scoped
    then scoped + [RecipeIdentityUnavailable] else scoped
  }

  predicate AuditPasses(edges: seq<EdgeOutcome>, aggregated: Validity) {
    aggregated.value.Valid? || (set x | x in EdgeReasons(edges) :: x.key) == KeysNamed(aggregated.reasons)
  }

  function FinalStatus(status: Status, scoped: seq<ReasonCode>, gate: GateOutcome): Status {
    if gate.cap || exists i :: 0 <= i < |scoped| && Caps(scoped[i]) then CapAtUnknown(status) else status
  }

  /** What sealing returns, as a function of its input. */
  function Sealed(input: SealInput): Result<Certificate, EngineError> {
    var aggregated := Aggregated(Verdicts(input.edges), Keys(input.edges));
    if CarriesArtifactReason(input.edges) then Err(InternalInconsistency)
    else if !AuditPasses(input.edges, aggregated) then Err(InternalInconsistency)
    else match RunGate(aggregated.value, input.coverage, input.events, input.authority, input.accountedMissing) {
      case Err(e) => Err(e)
      case Ok(gate) =>
        var scoped := ScopedReasons(input, aggregated, gate);
        var status := FinalStatus(aggregated.value, scoped, gate);
        var reasons := EdgeReasons(input.edges) + ArtifactReasons(SortByRank(scoped));
        if status.Valid? != (reasons == []) then Err(InternalInconsistency)
        else if status.IsUsable() && input.producedBy.recipeHash.None? then Err(MissingRecipeHash(status))
        else
          var certificate := Drafted(input, status, reasons);
          match CheckInvariants(certificate)
          case Some(violation) => Err(MalformedCertificate(violation))
          case None => Ok(certificate.(certId := DeriveCertId(certificate, input.identify)))
    }
  }

  // ------------------------------------------------- what sealing means

  /** What the engine guarantees about what it hands over. */
  ghost predicate WellAssembled(input: SealInput) {
    && (forall i :: 0 <= i < |input.edges| ==> EdgeExplained(input.edges[i]))
    && (forall i :: 0 <= i < |input.edges| ==> input.edges[i].dependency.IsConsistent())
    && (forall i :: 0 <= i < |input.artifactReasons| ==> Caps(input.artifactReasons[i]))
    && input.coverage != {}
    && input.authority.EngineAssembled?
    && (forall e :: e in input.events ==>
        e.producer in Declared(input.coverage) || e.producer in input.accountedMissing)
    && (input.accountedMissing != {} ==> ProducerMissingFromCoverage in input.artifactReasons)
    && ((exists e :: e in input.events && Graph.IsSubprocessTool(e)) && !HasFsCoveredObserver(input.coverage)
        ==> CoverageDeficit in input.artifactReasons)
  }

  /** An edge carries an edge-scoped reason exactly when it is not a strong match, and a
      match records the dependency's own class. */
  predicate EdgeExplained(edge: EdgeOutcome) {
    && (edge.reason.Some? <==> ReasonFor(edge.verdict).Some?)
    && (edge.reason.Some? ==> !edge.reason.value.IsArtifactScoped())
    && (edge.verdict.Matched? ==> edge.verdict.recorded == edge.dependency.trustClass)
  }

  /** The status a well-assembled input must get. */
  function DueStatus(input: SealInput): Status {
    var status := Aggregated(Verdicts(input.edges), Keys(input.edges)).value;
    if input.artifactReasons != [] || input.producedBy.recipeHash.None? then CapAtUnknown(status) else status
  }

  lemma {:induction false} EdgeReasonsMembers(edges: seq<EdgeOutcome>)
    ensures forall r :: r in EdgeReasons(edges) <==>
              exists i :: 0 <= i < |edges| && edges[i].dependency.key == r.key && edges[i].reason == Some(r.code)
  {
    if edges != [] {
      EdgeReasonsMembers(edges[..|edges| - 1]);
    }
  }

  lemma {:induction false} ArtifactCodesMembers(reasons: seq<Reason>)
    ensures forall c :: c in ArtifactCodes(reasons) <==>
              exists i :: 0 <= i < |reasons| && reasons[i].code == c && c.IsArtifactScoped()
  {
    if reasons != [] {
      ArtifactCodesMembers(reasons[..|reasons| - 1]);
    }
  }

  lemma {:induction false} AdoptMembers(scoped: seq<ReasonCode>, found: seq<ReasonCode>)
    ensures forall c :: c in Adopt(scoped, found) <==> c in scoped || c in found
    ensures (forall c :: c in found ==> c in scoped) ==> Adopt(scoped, found) == scoped
  {
    if found != [] {
      var n := |found| - 1;
      AdoptMembers(scoped, found[..n]);
      assert found == found[..n] + [found[n]];
    }
  }

  predicate RankSorted(codes: seq<ReasonCode>) {
    forall i, j :: 0 <= i < j < |codes| ==> ArtifactReasonRank(codes[i]) <= ArtifactReasonRank(codes[j])
  }

  /** Sorting by rank keeps every reason and puts causes before symptoms. */
  lemma {:induction false} SortByRankSorts(codes: seq<ReasonCode>)
    ensures multiset(SortByRank(codes)) == multiset(codes)
    ensures |SortByRank(codes)| == |codes|
    ensures RankSorted(SortByRank(codes))
  {
    hide RankSorted, InsertByRank;
    if codes == [] {
      NoneSorted();
    } else {
      SortByRankSorts(codes[1..]);
      InsertByRankKeeps(codes[0], SortByRank(codes[1..]));
      InsertByRankSorts(codes[0], SortByRank(codes[1..]));
      assert codes == [codes[0]] + codes[1..];
    }
  }

  lemma {:induction false} InsertByRankKeeps(code: ReasonCode, sorted: seq<ReasonCode>)
    ensures multiset(InsertByRank(code, sorted)) == multiset{code} + multiset(sorted)
    ensures |InsertByRank(code, sorted)| == |sorted| + 1
    ensures forall c :: c in InsertByRank(code, sorted) ==> c == code || c in sorted
  {
    if sorted != [] {
      InsertByRankKeeps(code, sorted[1..]);
      assert sorted == [sorted[0]] + sorted[1..];
    }
  }

  lemma PrependKeepsRank(first: ReasonCode, rest: seq<ReasonCode>)
    requires RankSorted(rest) && forall c :: c in rest ==> ArtifactReasonRank(first) <= ArtifactReasonRank(c)
    ensures RankSorted([first] + rest)
  {
    hide ArtifactReasonRank;
    forall i, j | 0 <= i < j < |[first] + rest|
      ensures ArtifactReasonRank(([first] + rest)[i]) <= ArtifactReasonRank(([first] + rest)[j]) {
      assert ([first] + rest)[j] == rest[j - 1] && rest[j - 1] in rest;
      if i > 0 {
        assert ([first] + rest)[i] == rest[i - 1];
      }
    }
  }

  lemma HeadHasLeastRank(sorted: seq<ReasonCode>)
    requires RankSorted(sorted) && sorted != []
    ensures forall c :: c in sorted ==> ArtifactReasonRank(sorted[0]) <= ArtifactReasonRank(c)
    ensures RankSorted(sorted[1..]) && forall c :: c in sorted[1..] ==> c in sorted
  {
    hide ArtifactReasonRank;
    forall c | c in sorted ensures ArtifactReasonRank(sorted[0]) <= ArtifactReasonRank(c) {
      var i :| 0 <= i < |sorted| && sorted[i] == c;
    }
  }

  lemma {:induction false} InsertByRankSorts(code: ReasonCode, sorted: seq<ReasonCode>)
    requires RankSorted(sorted)
    ensures RankSorted(InsertByRank(code, sorted))
  {
    hide ArtifactReasonRank, RankSorted;
    if sorted == [] {
      PrependKeepsRank(code, sorted) by { NoneSorted(); }
    } else {
      HeadHasLeastRank(sorted);
      if ArtifactReasonRank(code) <= ArtifactReasonRank(sorted[0]) {
        PrependKeepsRank(code, sorted);
      } else {
        InsertByRankKeeps(code, sorted[1..]);
        InsertByRankSorts(code, sorted[1..]);
        PrependKeepsRank(sorted[0], InsertByRank(code, sorted[1..]));
      }
    }
  }

  lemma NoneSorted()
    ensures RankSorted([])
  {
  }

  /** The gate finds nothing a well-assembled input does not already say: whatever it
      reports is already among the artifact reasons. */
  lemma GateAddsNothing(input: SealInput, status: Status)
    requires WellAssembled(input)
    ensures var gate := RunGate(status, input.coverage, input.events, input.authority, input.accountedMissing);
            && gate.Ok?
            && (forall c :: c in gate.value.reasons ==> c in input.artifactReasons)
            && (gate.value.cap ==> input.artifactReasons != [])
  {
    hide Graph.IsSubprocessTool, HasFsCoveredObserver;
    FirstUndeclaredMeaning(input.events, Declared(input.coverage));
    FirstSubprocessMeaning(input.events);
    assert forall i :: 0 <= i < |input.events| ==> input.events[i] in input.events;
  }

  /** Every edge that is not a strong match carries a reason under its own key, so the
      self-audit compares equal sets. */
  lemma AuditAgrees(edges: seq<EdgeOutcome>)
    requires forall i :: 0 <= i < |edges| ==> EdgeExplained(edges[i])
    ensures AuditPasses(edges, Aggregated(Verdicts(edges), Keys(edges)))
  {
    var verdicts, keys := Verdicts(edges), Keys(edges);
    var aggregated := Aggregated(verdicts, keys);
    EdgeReasonsMembers(edges);
    ReasonsMembers(verdicts, keys);
    if !aggregated.value.Valid? && edges != [] {
      var ours := set x | x in EdgeReasons(edges) :: x.key;
      forall k ensures k in ours <==> k in KeysNamed(aggregated.reasons) {
        AuditKey(edges, k);
      }
    }
  }

  lemma AuditKey(edges: seq<EdgeOutcome>, k: string)
    requires forall i :: 0 <= i < |edges| ==> EdgeExplained(edges[i])
    ensures k in (set x | x in EdgeReasons(edges) :: x.key) <==> k in KeysNamed(ReasonsOf(Verdicts(edges), Keys(edges)))
  {
    hide EdgeReasons, ReasonsOf, ReasonFor, ReasonCode.IsArtifactScoped;
    var reasons := ReasonsOf(Verdicts(edges), Keys(edges));
    EdgeReasonsMembers(edges);
    ReasonsMembers(Verdicts(edges), Keys(edges));
    if x :| x in EdgeReasons(edges) && x.key == k {
      var i :| 0 <= i < |edges| && edges[i].dependency.key == k && edges[i].reason == Some(x.code);
      FlaggedIsNamed(edges, i);
    }
    if x :| x in reasons && !x.code.IsArtifactScoped() && x.key == k {
      var i :| 0 <= i < |edges| && Keys(edges)[i] == k && ReasonFor(Verdicts(edges)[i]) == Some(x.code);
      assert Reason(k, edges[i].reason.value) in EdgeReasons(edges);
    }
  }

  lemma FlaggedIsNamed(edges: seq<EdgeOutcome>, i: nat)
    requires i < |edges| && ReasonFor(edges[i].verdict).Some?
    ensures edges[i].dependency.key in KeysNamed(ReasonsOf(Verdicts(edges), Keys(edges)))
  {
    var r := Reason(edges[i].dependency.key, ReasonFor(edges[i].verdict).value);
    ReasonsMembers(Verdicts(edges), Keys(edges));
    ReasonForMeaning(edges[i].verdict);
    assert Keys(edges)[i] == r.key && ReasonFor(Verdicts(edges)[i]) == Some(r.code);
    assert r in ReasonsOf(Verdicts(edges), Keys(edges));
  }

  lemma {:induction false} NoCodesFromEdges(verdicts: seq<EdgeVerdict>, keys: seq<string>)
    requires |verdicts| == |keys|
    ensures ArtifactCodes(Aggregated(verdicts, keys).reasons) == if verdicts == [] then [NoDependenciesObserved] else []
  {
    var reasons := Aggregated(verdicts, keys).reasons;
    ReasonsMembers(verdicts, keys);
    ArtifactCodesMembers(reasons);
    if verdicts == [] {
      assert reasons[..0] == [];
    } else if ArtifactCodes(reasons) != [] {
      var c := ArtifactCodes(reasons)[0];
      assert c in ArtifactCodes(reasons);
      var i :| 0 <= i < |reasons| && reasons[i].code == c;
      assert reasons[i] in ReasonsOf(verdicts, keys);
      var j :| 0 <= j < |verdicts| && ReasonFor(verdicts[j]) == Some(c);
      ReasonForMeaning(verdicts[j]);
    }
  }

  /** The capping decision sees exactly the engine's own artifact reasons and a missing
      recipe. */
  lemma CappedExactly(input: SealInput, gate: GateOutcome)
    requires WellAssembled(input)
    requires RunGate(Aggregated(Verdicts(input.edges), Keys(input.edges)).value, input.coverage, input.events,
                     input.authority, input.accountedMissing) == Ok(gate)
    requires forall c :: c in gate.reasons ==> c in input.artifactReasons
    requires gate.cap ==> input.artifactReasons != []
    ensures var aggregated := Aggregated(Verdicts(input.edges), Keys(input.edges));
            var scoped := ScopedReasons(input, aggregated, gate);
            && FinalStatus(aggregated.value, scoped, gate) == DueStatus(input)
            && (scoped == [] <==> input.artifactReasons == [] && input.edges != []
                                  && (input.producedBy.recipeHash.Some? || !aggregated.value.IsUsable()))
  {
    hide RunGate, Aggregated, Graph.IsSubprocessTool, HasFsCoveredObserver, EdgeExplained;
    var aggregated := Aggregated(Verdicts(input.edges), Keys(input.edges));
    NoCodesFromEdges(Verdicts(input.edges), Keys(input.edges));
    var own := ArtifactCodes(aggregated.reasons);
    AdoptMembers(input.artifactReasons, own);
    AdoptMembers(Adopt(input.artifactReasons, own), gate.reasons);
    var adopted := Adopt(Adopt(input.artifactReasons, own), gate.reasons);
    assert adopted == Adopt(input.artifactReasons, own);
    assert forall c :: c in adopted <==> c in input.artifactReasons || c in own;
    var scoped := ScopedReasons(input, aggregated, gate);
    if input.artifactReasons != [] {
      assert input.artifactReasons[0] in adopted;
      assert input.artifactReasons[0] in scoped;
      assert Caps(input.artifactReasons[0]);
    } else if input.producedBy.recipeHash.None? && aggregated.value.IsUsable() {
      assert RecipeIdentityUnavailable in scoped;
    } else {
      assert scoped == adopted;
      assert forall i :: 0 <= i < |scoped| ==> scoped[i] in own;
      assert forall c :: c in own ==> !Caps(c);
    }
  }

  /** The edges' own reasons vanish exactly when every edge is a strong match. */
  lemma EdgeReasonsVanish(edges: seq<EdgeOutcome>)
    requires forall i :: 0 <= i < |edges| ==> EdgeExplained(edges[i])
    ensures EdgeReasons(edges) == [] <==> Fold(Verdicts(edges)).Valid?
  {
    hide EdgeReasons, Fold, ReasonCode.IsArtifactScoped;
    EdgeReasonsMembers(edges);
    FoldMeaning(Verdicts(edges));
    forall i | 0 <= i < |edges|
      ensures edges[i].reason.None? <==> edges[i].verdict.Matched? && edges[i].verdict.recorded.IsStrong() {
      ReasonForMeaning(edges[i].verdict);
    }
    if EdgeReasons(edges) == [] {
      assert forall i :: 0 <= i < |edges| && edges[i].reason.Some? ==>
               Reason(edges[i].dependency.key, edges[i].reason.value) in EdgeReasons(edges);
      forall v | v in Verdicts(edges) ensures v.Matched? && v.recorded.IsStrong() {
        var i :| 0 <= i < |edges| && edges[i].verdict == v;
      }
    } else {
      var r := EdgeReasons(edges)[0];
      assert r in EdgeReasons(edges);
      var i :| 0 <= i < |edges| && edges[i].reason == Some(r.code);
      assert Verdicts(edges)[i] in Verdicts(edges);
    }
  }

  /** Sealing what the engine assembles always yields a certificate. None of the self-audits
      fires, the gate changes nothing, and the status is the aggregate of the verdicts,
      capped at unknown exactly when there is an artifact-scoped reason or no recipe. */
  lemma SealingSucceeds(input: SealInput)
    requires WellAssembled(input)
    ensures Sealed(input).Ok?
    ensures Sealed(input).value.status == DueStatus(input)
    ensures Sealed(input).value.dependsOn == DependsOn(input.edges)
  {
    hide RunGate, Aggregated, ScopedReasons, FinalStatus, EdgeReasons, SortByRank, CheckInvariants, EdgeExplained,
      AuditPasses, Caps;
    var verdicts, keys := Verdicts(input.edges), Keys(input.edges);
    var aggregated := Aggregated(verdicts, keys);
    assert forall i :: 0 <= i < |input.edges| && input.edges[i].reason.Some? ==>
           !input.edges[i].reason.value.IsArtifactScoped() by {
      EdgesEdgeScoped(input.edges);
    }
    AuditAgrees(input.edges);
    GateAddsNothing(input, aggregated.value);
    var gate := RunGate(aggregated.value, input.coverage, input.events, input.authority, input.accountedMissing).value;
    CappedExactly(input, gate);
    EdgeReasonsVanish(input.edges);
    AggregateMeaning(verdicts, keys);
    FoldMeaning(verdicts);
    var scoped := ScopedReasons(input, aggregated, gate);
    SortByRankSorts(scoped);
    var status := DueStatus(input);
    var reasons := EdgeReasons(input.edges) + ArtifactReasons(SortByRank(scoped));
    assert |ArtifactReasons(SortByRank(scoped))| == |scoped|;
    assert reasons == [] <==> EdgeReasons(input.edges) == [] && scoped == [];
    assert status.Valid? <==>
           aggregated.value.Valid? && input.artifactReasons == [] && input.producedBy.recipeHash.Some?;
    assert status.Valid? <==> reasons == [];
    var certificate := Drafted(input, status, reasons);
    DependenciesHold(input.edges);
    CheckInvariantsMeaning(certificate);
    if status.Valid? {
      StrongThroughout(input.edges);
    }
    assert forall d :: d in certificate.dependsOn ==> d.IsConsistent();
  }

  lemma EdgesEdgeScoped(edges: seq<EdgeOutcome>)
    requires forall i :: 0 <= i < |edges| ==> EdgeExplained(edges[i])
    ensures forall i :: 0 <= i < |edges| && edges[i].reason.Some? ==> !edges[i].reason.value.IsArtifactScoped()
  {
  }

  lemma DependenciesHold(edges: seq<EdgeOutcome>)
    requires forall i :: 0 <= i < |edges| ==> edges[i].dependency.IsConsistent()
    ensures forall d :: d in DependsOn(edges) ==> d.IsConsistent()
  {
  }

  lemma StrongThroughout(edges: seq<EdgeOutcome>)
    requires forall i :: 0 <= i < |edges| ==> EdgeExplained(edges[i])
    requires Fold(Verdicts(edges)).Valid?
    ensures forall d :: d in DependsOn(edges) ==> d.trustClass.IsStrong()
  {
    FoldMeaning(Verdicts(edges));
    forall i | 0 <= i < |edges| ensures edges[i].dependency.trustClass.IsStrong() {
      assert Verdicts(edges)[i] in Verdicts(edges);
    }
  }

  /** A sealed certificate is identified by its own hash: deriving the identifier of what was
      emitted gives the identifier it carries. */
  lemma SealedIdentifiesItself(input: SealInput)
    requires Sealed(input).Ok?
    ensures Sealed(input).value.certId == DeriveCertId(Sealed(input).value, input.identify)
    ensures Sealed(input).value.schema == CERTIFICATE_SCHEMA
  {
    hide RunGate, Aggregated, ScopedReasons, FinalStatus, EdgeReasons, SortByRank, CheckInvariants, AuditPasses,
      ZeroHash;
  }

  /** A certificate under its own identifier. */
  function Identified(draft: Certificate, identify: Identify): Certificate {
    draft.(certId := DeriveCertId(draft, identify))
  }

  /** With nothing against the artifact as a whole, a certificate gives the edges' own reasons
      and no other. */
  lemma SealedPlainly(input: SealInput)
    requires WellAssembled(input) && input.artifactReasons == [] && input.producedBy.recipeHash.Some?
    requires input.edges != []
    ensures Sealed(input)
            == Ok(Identified(Drafted(input, DueStatus(input), EdgeReasons(input.edges)), input.identify))
  {
    hide RunGate, Aggregated, ScopedReasons, FinalStatus, EdgeReasons, CheckInvariants, EdgeExplained, AuditPasses,
      Caps, WellAssembled;
    SealingSucceeds(input);
    var aggregated := Aggregated(Verdicts(input.edges), Keys(input.edges));
    GateAddsNothing(input, aggregated.value);
    var gate := RunGate(aggregated.value, input.coverage, input.events, input.authority, input.accountedMissing).value;
    CappedExactly(input, gate);
    assert ScopedReasons(input, aggregated, gate) == [];
    assert EdgeReasons(input.edges) + [] == EdgeReasons(input.edges);
  }
}

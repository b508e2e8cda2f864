/** From per-edge verdicts to an artifact's status. */
module Validity {
  import opened Wrappers
  import opened TrustClasses
  import opened Fingerprints

  datatype Status = Valid | LikelyValid | Stale | Unknown {
    /** Lower is worse. */
    function Rank(): nat {
      match this
      case Stale => 0
      case Unknown => 1
      case LikelyValid => 2
      case Valid => 3
    }

    /** Valid or likely valid. */
    predicate IsUsable() {
      Valid? || LikelyValid?
    }
  }

  datatype EdgeVerdict =
    | Matched(recorded: TrustClass, observed: TrustClass, observedFp: Fingerprint)
    | Drifted
    | Undecided
  {
    function ToStatus(): Status {
      match this
      case Matched(recorded, _, _) => if recorded.IsStrong() then Valid else LikelyValid
      case Drifted => Stale
      case Undecided => Unknown
    }
  }

  datatype ReasonCode =
    | Drift | ProbeUnknown | NoProbeAvailable
    | TrustClassHeuristicCapsAtLikelyValid | TrustClassVolatileCapsAtLikelyValid
    | VolatileWithinTtlUnprobed | TtlExpired | ProbeTrustDemoted
    | CoverageDeficit | ProducerMissingFromCoverage | NoDependenciesObserved
    | DependencyChangedDuringComputation
    | RecipeIdentityUnavailable | UnprovenDependency
  {
    /** Concerns no edge in particular. */
    predicate IsArtifactScoped() {
      CoverageDeficit? || ProducerMissingFromCoverage? || NoDependenciesObserved?
      || RecipeIdentityUnavailable? || UnprovenDependency?
    }
  }

  /** A reason and the dependency it is about; artifact-scoped reasons name none. */
  datatype Reason = Reason(key: string, code: ReasonCode)

  datatype Validity = Validity(value: Status, reasons: seq<Reason>)

  /** The reason aggregation gives for one verdict, if it is not silently fine. */
  function ReasonFor(v: EdgeVerdict): Option<ReasonCode> {
    match v
    case Drifted => Some(Drift)
    case Undecided => Some(ProbeUnknown)
    case Matched(Heuristic, _, _) => Some(TrustClassHeuristicCapsAtLikelyValid)
    case Matched(Volatile, _, _) => Some(TrustClassVolatileCapsAtLikelyValid)
    case Matched(_, _, _) => None
  }

  function Worse(a: Status, b: Status): Status {
    if b.Rank() < a.Rank() then b else a
  }

  function Fold(verdicts: seq<EdgeVerdict>): Status {
    if verdicts == [] then Valid
    else Worse(Fold(verdicts[..|verdicts| - 1]), verdicts[|verdicts| - 1].ToStatus())
  }

  function ReasonsOf(verdicts: seq<EdgeVerdict>, keys: seq<string>): seq<Reason>
    requires |verdicts| == |keys|
  {
    if verdicts == [] then []
    else
      var n := |verdicts| - 1;
      ReasonsOf(verdicts[..n], keys[..n])
      + (match ReasonFor(verdicts[n]) case None => [] case Some(code) => [Reason(keys[n], code)])
  }

  function Aggregated(verdicts: seq<EdgeVerdict>, keys: seq<string>): Validity
    requires |verdicts| == |keys|
  {
    if verdicts == [] then Validity(Unknown, [Reason("", NoDependenciesObserved)])
    else Validity(Fold(verdicts), if Fold(verdicts).Valid? then [] else ReasonsOf(verdicts, keys))
  }

  datatype AggregationError = MismatchedLengths(verdicts: nat, keys: nat)

  /** Aggregate verdicts into a status with its reasons. Edge-scoped reasons are already in
      dependency order and there are no others to sort behind them. */
  method Aggregate(verdicts: seq<EdgeVerdict>, keys: seq<string>) returns (r: Result<Validity, AggregationError>)
    ensures r == if |verdicts| == |keys| then Ok(Aggregated(verdicts, keys))
            else Err(MismatchedLengths(|verdicts|, |keys|))
  {
    if |verdicts| != |keys| {
      return Err(MismatchedLengths(|verdicts|, |keys|));
    }
    if verdicts == [] {
      return Ok(Validity(Unknown, [Reason("", NoDependenciesObserved)]));
    }
    var status := Valid;
    var reasons: seq<Reason> := [];
    for i := 0 to |verdicts|
      invariant status == Fold(verdicts[..i])
      invariant reasons == ReasonsOf(verdicts[..i], keys[..i])
    {
      assert verdicts[..i + 1][..i] == verdicts[..i] && keys[..i + 1][..i] == keys[..i];
      var contribution := verdicts[i].ToStatus();
      if contribution.Rank() < status.Rank() {
        status := contribution;
      }
      match ReasonFor(verdicts[i])
      case None =>
      case Some(code) => reasons := reasons + [Reason(keys[i], code)];
    }
    assert verdicts[..|verdicts|] == verdicts && keys[..|keys|] == keys;
    if status.Valid? {
      reasons := [];
    }
    return Ok(Validity(status, reasons));
  }

  /** What the fold decides: drift anywhere outranks doubt anywhere, doubt outranks a weak
      match, and only strong matches throughout leave `valid`. */
  lemma {:induction false} FoldMeaning(verdicts: seq<EdgeVerdict>)
    ensures Fold(verdicts).Stale? <==> Drifted in verdicts
    ensures Fold(verdicts).Unknown? <==> Drifted !in verdicts && Undecided in verdicts
    ensures Fold(verdicts).Valid? <==> forall v :: v in verdicts ==> v.Matched? && v.recorded.IsStrong()
    ensures Fold(verdicts).LikelyValid? <==>
              && (forall v :: v in verdicts ==> v.Matched?)
              && (exists v :: v in verdicts && v.Matched? && !v.recorded.IsStrong())
  {
    if verdicts != [] {
      var init, last := verdicts[..|verdicts| - 1], verdicts[|verdicts| - 1];
      FoldMeaning(init);
      assert verdicts == init + [last];
      assert forall v :: v in verdicts <==> v in init || v == last;
    }
  }

  /** The same decision, position by position. */
  lemma {:induction false} FoldByPosition(verdicts: seq<EdgeVerdict>)
    ensures Fold(verdicts).Stale? <==> exists i :: 0 <= i < |verdicts| && verdicts[i].Drifted?
    ensures Fold(verdicts).IsUsable() <==> forall i :: 0 <= i < |verdicts| ==> verdicts[i].Matched?
    ensures Fold(verdicts).Valid? <==>
            forall i :: 0 <= i < |verdicts| ==> verdicts[i].Matched? && verdicts[i].recorded.IsStrong()
  {
    if verdicts != [] {
      var n := |verdicts| - 1;
      FoldByPosition(verdicts[..n]);
      assert forall i :: 0 <= i < n ==> verdicts[..n][i] == verdicts[i];
    }
  }

  lemma ReasonForMeaning(v: EdgeVerdict)
    ensures ReasonFor(v).None? <==> v.Matched? && v.recorded.IsStrong()
    ensures ReasonFor(v).Some? ==> !ReasonFor(v).value.IsArtifactScoped()
  {
  }

  lemma {:induction false} ReasonsMembers(verdicts: seq<EdgeVerdict>, keys: seq<string>)
    requires |verdicts| == |keys|
    ensures forall r :: r in ReasonsOf(verdicts, keys) <==>
              exists i :: 0 <= i < |verdicts| && keys[i] == r.key && ReasonFor(verdicts[i]) == Some(r.code)
  {
    if verdicts != [] {
      var n := |verdicts| - 1;
      ReasonsMembers(verdicts[..n], keys[..n]);
    }
  }

  /** The aggregate explains itself: no edges is unknown for want of evidence; otherwise a
      status short of valid carries exactly one reason per edge that is not a strong match,
      and valid carries none. */
  lemma AggregateMeaning(verdicts: seq<EdgeVerdict>, keys: seq<string>)
    requires |verdicts| == |keys|
    ensures var v := Aggregated(verdicts, keys);
            && (verdicts == [] ==> v == Validity(Unknown, [Reason("", NoDependenciesObserved)]))
            && (verdicts != [] ==> v.value == Fold(verdicts))
            && (v.value.Valid? <==> v.reasons == [])
            && (verdicts != [] && !v.value.Valid? ==>
                  forall r :: r in v.reasons <==>
                    exists i :: 0 <= i < |verdicts| && keys[i] == r.key && ReasonFor(verdicts[i]) == Some(r.code))
  {
    hide Fold, ReasonsOf;
    ReasonsMembers(verdicts, keys);
    FoldMeaning(verdicts);
    if verdicts != [] && !Fold(verdicts).Valid? {
      var v :| v in verdicts && !(v.Matched? && v.recorded.IsStrong());
      var i :| 0 <= i < |verdicts| && verdicts[i] == v;
      assert Reason(keys[i], ReasonFor(v).value) in ReasonsOf(verdicts, keys);
    }
  }

  /** The reason for each verdict: drift and doubt are named as such, a match of a weak class by its
      cap, and a match of a strong class not at all. */
  lemma VerdictReasons(v: EdgeVerdict)
    ensures ReasonFor(v) == Some(Drift) <==> v.Drifted?
    ensures ReasonFor(v) == Some(ProbeUnknown) <==> v.Undecided?
    ensures ReasonFor(v) == Some(TrustClassHeuristicCapsAtLikelyValid) <==> v.Matched? && v.recorded.Heuristic?
    ensures ReasonFor(v) == Some(TrustClassVolatileCapsAtLikelyValid) <==> v.Matched? && v.recorded.Volatile?
    ensures ReasonFor(v) == None <==> v.Matched? && (v.recorded.Exact? || v.recorded.Versioned?)
  {
  }
}

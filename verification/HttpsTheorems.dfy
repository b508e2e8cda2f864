/** What the `https` probe's answers are worth, against any server. */
module HttpsTheorems {
  import opened Wrappers
  import opened Text
  import opened TrustClasses
  import opened Fingerprints
  import opened Ir
  import opened Identifiers
  import opened Dependencies
  import opened Edges
  import opened Feedback
  import opened ETags
  import opened Https

  // ------------------------------------------------------ fetching ends

  /** The requests sent from a point of the loop on, in order. */
  ghost function Sent(out: Outside, config: Config, original: Url, plan: Plan, f: Fetching): seq<HttpRequest>
    decreases Slack(config, f)
  {
    var asked := Asked(f);
    [RequestOf(f, plan)] +
    match out.server(f.trace.requests, RequestOf(f, plan))
    case Err(_) => []
    case Ok(response) =>
      TurnsShrink(out, config, original, asked, response);
      match TurnOn(out, config, original, asked, response)
      case Again(next) => Sent(out, config, original, plan, next)
      case _ => []
  }

  ghost predicate InStep(f: Fetching) {
    f.trace.redirectHops == f.hops && |f.trace.chain| == f.hops + 1
  }

  /** Every request carries the planned condition, and goes out over TLS if it must. */
  predicate Proper(sent: seq<HttpRequest>, plan: Plan, secure: bool) {
    forall i :: 0 <= i < |sent| ==> sent[i].condition == plan.Condition() && (secure ==> sent[i].url.scheme == "https")
  }

  lemma ProperStep(first: HttpRequest, rest: seq<HttpRequest>, plan: Plan, secure: bool, later: bool)
    requires first.condition == plan.Condition() && (secure ==> first.url.scheme == "https" && later)
    requires Proper(rest, plan, later)
    ensures Proper([first] + rest, plan, secure)
  {
  }

  lemma OneProper(first: HttpRequest, plan: Plan, secure: bool)
    requires first.condition == plan.Condition() && (secure ==> first.url.scheme == "https")
    ensures Proper([first], plan, secure)
  {
  }

  lemma TurnKeepsStep(out: Outside, config: Config, original: Url, f: Fetching, response: HttpResponse)
    requires InStep(f) && f.hops <= config.maxRedirects
    ensures var turn := TurnOn(out, config, original, f, response);
            turn.Again? ==>
              && InStep(turn.next) && turn.next.hops <= config.maxRedirects
              && turn.next.trace.requests == f.trace.requests
              && (f.current.scheme == "https" ==> turn.next.current.scheme == "https")
              && Slack(config, turn.next) < Slack(config, f)
    ensures var turn := TurnOn(out, config, original, f, response);
            turn.Settle? ==>
              && turn.settled.response == response
              && (if turn.settled.NotModified? then response.status == 304 else 200 <= response.status <= 299)
  {
    hide SameOrigin;
  }

  /** What the loop keeps, whatever the server answers. */
  lemma {:induction false} FetchKeepsStep(out: Outside, config: Config, original: Url, plan: Plan, f: Fetching)
    requires InStep(f) && f.hops <= config.maxRedirects
    ensures var (result, after) := FetchFrom(out, config, original, plan, f);
            var sent := Sent(out, config, original, plan, f);
            && InStep(after) && after.hops <= config.maxRedirects
            && after.trace.requests == f.trace.requests + |sent|
            && |sent| <= Slack(config, f) + 1
            && Proper(sent, plan, f.current.scheme == "https")
            && (result.Ok? ==>
                  && out.server(after.trace.requests - 1, sent[|sent| - 1]) == Ok(result.value.response)
                  && (if result.value.NotModified? then result.value.response.status == 304
                      else 200 <= result.value.response.status <= 299))
    decreases Slack(config, f)
  {
    hide TurnOn, Slack, Plan.Condition, Proper, InStep, RateNoted;
    var asked := Asked(f);
    AskingKeepsStep(config, f);
    var secure, first := f.current.scheme == "https", RequestOf(f, plan);
    OneProper(first, plan, secure);
    assert [first] + [] == [first];
    match out.server(f.trace.requests, first)
    case Err(_) =>
    case Ok(response) =>
      TurnKeepsStep(out, config, original, asked, response);
      AskingKeepsStep(config, asked);
      match TurnOn(out, config, original, asked, response)
      case Again(next) =>
        FetchKeepsStep(out, config, original, plan, next);
        ProperStep(first, Sent(out, config, original, plan, next), plan, secure, next.current.scheme == "https");
      case _ =>
  }

  lemma AskingKeepsStep(config: Config, f: Fetching)
    ensures Slack(config, Asked(f)) == Slack(config, f) && (InStep(Asked(f)) <==> InStep(f))
    ensures forall response :: InStep(RateNoted(f, response)) <==> InStep(f)
    ensures forall response ::
              RateNoted(f, response).trace.requests == f.trace.requests && RateNoted(f, response).hops == f.hops
  {
  }

  /** Against any server the fetch sends at most two requests more than the redirect budget,
      follows exactly as many hops as the chain it reports is long beyond its first entry,
      sends the planned condition every time, never leaves TLS once on it, and settles only
      on the server's actual answer to its last request, a 304 or a 2xx. */
  lemma FetchIsBounded(out: Outside, config: Config, original: Url, plan: Plan, key: string,
                       diagnostics: seq<DiagnosticCode>)
    ensures var start := FetchStart(config, original, plan, Trace(diagnostics, 0, 0, [key], None, 0));
            var (result, after) := FetchFrom(out, config, original, plan, start);
            var sent := Sent(out, config, original, plan, start);
            && after.trace.requests == |sent| <= config.maxRedirects + 2
            && after.trace.redirectHops == |after.trace.chain| - 1 <= config.maxRedirects
            && Proper(sent, plan, original.scheme == "https")
            && (result.Ok? ==>
                  && out.server(|sent| - 1, sent[|sent| - 1]) == Ok(result.value.response)
                  && (if result.value.NotModified? then result.value.response.status == 304
                      else 200 <= result.value.response.status <= 299))
  {
    hide FetchFrom, Sent;
    FetchKeepsStep(out, config, original, plan,
                   FetchStart(config, original, plan, Trace(diagnostics, 0, 0, [key], None, 0)));
  }

  // ------------------------------------------------- chunks and bodies

  /** The bytes a stream delivers before it ends or fails. */
  function Delivered(parts: seq<BodyRead>): seq<Byte> {
    if parts == [] || parts[0].ReadFailed? || parts[0].bytes == [] then [] else parts[0].bytes + Delivered(parts[1..])
  }

  /** Does the stream fail rather than end? */
  predicate Fails(parts: seq<BodyRead>) {
    parts != [] && (parts[0].ReadFailed? || (parts[0].bytes != [] && Fails(parts[1..])))
  }

  /** How much has been read once the cap is exceeded: whole reads, the last of which exceeds
      it. */
  function ExceededAt(parts: seq<BodyRead>, cap: nat, sofar: nat): nat {
    if parts == [] || parts[0].ReadFailed? || parts[0].bytes == [] then sofar
    else if sofar + |parts[0].bytes| > cap then sofar + |parts[0].bytes|
    else ExceededAt(parts[1..], cap, sofar + |parts[0].bytes|)
  }

  lemma {:induction false} ReadBodyMeaning(parts: seq<BodyRead>, cap: nat, hashed: seq<Byte>)
    requires |hashed| <= cap
    ensures ReadBody(parts, cap, hashed) ==
            if |hashed| + |Delivered(parts)| > cap then TooLong(ExceededAt(parts, cap, |hashed|))
            else if Fails(parts) then Broken
            else Whole(hashed + Delivered(parts))
  {
    if parts == [] || parts[0].ReadFailed? || parts[0].bytes == [] {
      assert hashed + [] == hashed;
    } else if |hashed| + |parts[0].bytes| <= cap {
      ReadBodyMeaning(parts[1..], cap, hashed + parts[0].bytes);
      assert (hashed + parts[0].bytes) + Delivered(parts[1..]) == hashed + Delivered(parts);
    }
  }

  /** How a body is cut into reads does not matter: the loop decides what hashing the
      delivered bytes at once would decide, over the cap before anything else and a failed
      read within it. */
  lemma ChunkingIsIrrelevant(out: Outside, config: Config, hash: string, c: Classification, parts: seq<BodyRead>)
    ensures DecideContentHash(out, config, hash, c, Some(parts)) ==
            if |Delivered(parts)| > config.maxFetchBytes then Err(TooLongReason(config))
            else if Fails(parts) then Err(GiveReason("transport-body-read-failed", true))
            else
              var observed := Fingerprint(ContentHash, out.HashOf(Delivered(parts)));
              Ok(if observed.payload == hash then MatchResult(observed, ExactUnlessForbidden(c))
                 else DriftResult(observed, ExactUnlessForbidden(c)))
  {
    hide ReadBody;
    ReadBodyMeaning(parts, config.maxFetchBytes, []);
    assert [] + Delivered(parts) == Delivered(parts);
  }

  // ------------------------------------------------ what a match means

  /** Our own comparison of a fresh representation with the recorded state: the same
      validator byte for byte, the same immutability, or the same hash of the whole body. */
  ghost predicate Confirmed(out: Outside, config: Config, plan: Plan, response: HttpResponse) {
    var headers := response.headers;
    match plan
    case IfNoneMatch(wire, _) =>
      headers.etags != [] && ParseETag(headers.etags[0]).Ok? && ParseETag(headers.etags[0]).value.Wire() == wire
    case IfModifiedSince(date) => headers.lastModified == Some(date) && out.isFixdate(date)
    case Immutable => headers.cacheControl.immutable && !headers.cacheControl.ForbidsCaching()
    case ContentHashPlan(hash) =>
      response.body.Some?
      && var parts := response.body.value;
         |Delivered(parts)| <= config.maxFetchBytes && !Fails(parts) && out.HashOf(Delivered(parts)) == hash
  }

  /** What fetching a key comes to, when the key and the recorded fingerprint permit a fetch. */
  ghost function FetchedFor(out: Outside, config: Config, key: string, recorded: Fingerprint): Option<(Plan,
    Result<Settled, Unresolved>)> {
    match GateUrl(out, config, key)
    case Err(_) => None
    case Ok(original) =>
      match PlanFor(out, config, key, recorded)
      case Err(_) => None
      case Ok(plan) =>
        var start := Trace([], 0, 0, [key], None, 0);
        var gated := if original.scheme == "http" then start.Diag(PlaintextTransport) else start;
        Some((plan, FetchFrom(out, config, original, plan, FetchStart(config, original, plan, gated)).0))
  }

  lemma DecidesConfirmed(out: Outside, config: Config, plan: Plan, response: HttpResponse)
    ensures var decided := DecideOk(out, config, plan, Classify(out, response.headers), response.body);
            (decided.Ok? && decided.value.MatchResult? <==> Confirmed(out, config, plan, response))
  {
    hide DecideContentHash;
    if plan.ContentHashPlan? {
      var c := Classify(out, response.headers);
      match response.body
      case None => NoBody(out, config, plan.hash, c);
      case Some(parts) => ChunkingIsIrrelevant(out, config, plan.hash, c, parts);
    }
  }

  lemma NoBody(out: Outside, config: Config, hash: string, c: Classification)
    ensures DecideContentHash(out, config, hash, c, None).Err?
  {
  }

  /** The whole check says match exactly when it settled on a response without conflicting
      entity tags that is either a 304 or a 2xx whose validator, immutability or whole-body
      hash is the recorded one. No failure, refusal or lost validator ever becomes a match. */
  lemma MatchMeaning(out: Outside, config: Config, key: string, recorded: Fingerprint)
    ensures Https.Checked(out, config, key, recorded).result.MatchResult? <==>
            && FetchedFor(out, config, key, recorded).Some?
            && var (plan, settled) := FetchedFor(out, config, key, recorded).value;
               && settled.Ok? && !Ambiguous(settled.value.response.headers)
               && (settled.value.NotModified? || Confirmed(out, config, plan, settled.value.response))
  {
    hide FetchFrom, Classify, ClassifyDiagnostics, DecideOk, DecideDiagnostics, Ambiguous, Confirmed, AnnouncesDemotion,
      PlanFor,
         GateUrl;
    if FetchedFor(out, config, key, recorded).Some? {
      var (plan, settled) := FetchedFor(out, config, key, recorded).value;
      if settled.Ok? {
        DecidesConfirmed(out, config, plan, settled.value.response);
      }
    }
  }

  /** The tag a response carries, if it carries a well-formed one. */
  function TagOf(headers: Headers): Option<string> {
    if headers.etags == [] || ParseETag(headers.etags[0]).Err? then None
    else Some(ParseETag(headers.etags[0]).value.Wire())
  }

  /** The state a fresh representation shows that is comparable with the record and different from
      it: another entity tag; another valid date, or none but a tag; or another hash of a whole
      body within the cap. */
  ghost function Changed(out: Outside, config: Config, recorded: Fingerprint, response: HttpResponse)
    : Option<Fingerprint> {
    var tag, date := TagOf(response.headers), response.headers.lastModified;
    match recorded.kind
    case Etag =>
      if tag.Some? && ParseETag(recorded.payload).Ok? && tag.value != ParseETag(recorded.payload).value.Wire()
      then Some(Fingerprint(Etag, tag.value)) else None
    case Mtime =>
      if date.Some? && out.isFixdate(date.value)
      then if date.value != recorded.payload then Some(Fingerprint(Mtime, date.value)) else None
      else if tag.Some? then Some(Fingerprint(Etag, tag.value)) else None
    case ContentHash =>
      if response.body.Some? && |Delivered(response.body.value)| <= config.maxFetchBytes
         && !Fails(response.body.value) && out.HashOf(Delivered(response.body.value)) != recorded.payload
      then Some(Fingerprint(ContentHash, out.HashOf(Delivered(response.body.value)))) else None
    case _ => None
  }

  lemma DecidesChanged(out: Outside, config: Config, key: string, recorded: Fingerprint, plan: Plan,
                       response: HttpResponse)
    requires PlanFor(out, config, key, recorded) == Ok(plan)
    ensures var decided := DecideOk(out, config, plan, Classify(out, response.headers), response.body);
            && (decided.Ok? && decided.value.DriftResult? <==> Changed(out, config, recorded, response).Some?)
            && (decided.Ok? && decided.value.DriftResult? ==>
                  decided.value.observedFp == Changed(out, config, recorded, response).value)
  {
    hide DecideContentHash, ParseETag, Fails, Delivered;
    if plan.ContentHashPlan? {
      var c := Classify(out, response.headers);
      match response.body
      case None => NoBody(out, config, plan.hash, c);
      case Some(parts) => ChunkingIsIrrelevant(out, config, plan.hash, c, parts);
    }
  }

  /** The whole check says drift exactly when it settled on a 2xx without conflicting entity tags
      that shows a comparable state different from the record, and reports that state. What is
      neither a match nor a drift is undecided. */
  lemma DriftMeaning(out: Outside, config: Config, key: string, recorded: Fingerprint)
    ensures var result := Https.Checked(out, config, key, recorded).result;
            && (result.DriftResult? <==>
                  && FetchedFor(out, config, key, recorded).Some?
                  && var settled := FetchedFor(out, config, key, recorded).value.1;
                     && settled.Ok? && settled.value.Representation? && !Ambiguous(settled.value.response.headers)
                     && Changed(out, config, recorded, settled.value.response).Some?)
            && (result.DriftResult? ==>
                  Some(result.observedFp)
                  == Changed(out, config, recorded, FetchedFor(out, config, key, recorded).value.1.value.response))
  {
    hide FetchFrom, Classify, ClassifyDiagnostics, DecideOk, DecideDiagnostics, Ambiguous, Changed, AnnouncesDemotion,
      PlanFor, GateUrl;
    if FetchedFor(out, config, key, recorded).Some? {
      var (plan, settled) := FetchedFor(out, config, key, recorded).value;
      if settled.Ok? {
        DecidesChanged(out, config, key, recorded, plan, settled.value.response);
      }
    }
  }

  // --------------------------------------------------- the observed class

  /** The class a response observes, read off its headers. */
  lemma ObservedClassMeaning(out: Outside, headers: Headers)
    ensures var c, cc := Classify(out, headers), headers.cacheControl;
            var dated := headers.lastModified.Some? && out.isFixdate(headers.lastModified.value);
            var forbids := cc.noStore || cc.mustRevalidate;
            && (c.trustClass == Volatile <==> forbids || (!cc.immutable && TagOf(headers).None? && !dated))
            && (c.trustClass == Versioned <==>
                  !forbids && (cc.immutable || (TagOf(headers).Some? && TagOf(headers).value[..1] != "W")))
            && (c.trustClass == Heuristic <==>
                  !forbids && !cc.immutable
                  && if TagOf(headers).Some? then TagOf(headers).value[..1] == "W" else dated)
  {
    hide ParseOpaque;
    if headers.etags != [] && ParseETag(headers.etags[0]).Ok? {
      WireShape(headers.etags[0]);
    }
  }

  lemma WireShape(raw: string)
    requires ParseETag(raw).Ok?
    ensures var wire := ParseETag(raw).value.Wire();
            && wire != "" && (wire[..1] == "W" <==> ParseETag(raw).value.weak)
  {
    WeakExactlyWhenMarked(raw);
    WireIsNormal(raw);
    var wire := ParseETag(raw).value.Wire();
    assert wire != "" ==> wire[..1][0] == wire[0];
  }

  /** The class a record of this kind stands for. */
  function RecordedClass(recorded: Fingerprint): TrustClass {
    match recorded.kind
    case Etag =>
      if ParseETag(recorded.payload).Ok? && ParseETag(recorded.payload).value.Wire()[..1] == "W" then Heuristic
      else Versioned
    case Mtime => Heuristic
    case ContentHash => Exact
    case _ => Versioned
  }

  /** The class a decided check reports: on a 304 the recorded one unless the response said
      something of its own; for a body hash the strongest, for a kept promise of immutability a
      versioned one, each unless caching is forbidden; otherwise the observed one. */
  lemma ReportedClassMeaning(out: Outside, config: Config, key: string, recorded: Fingerprint)
    requires !Https.Checked(out, config, key, recorded).result.UnknownResult?
    ensures FetchedFor(out, config, key, recorded).Some? && FetchedFor(out, config, key, recorded).value.1.Ok?
    ensures var settled := FetchedFor(out, config, key, recorded).value.1.value;
            var c, cc := Classify(out, settled.response.headers), settled.response.headers.cacheControl;
            var forbids := cc.noStore || cc.mustRevalidate;
            Https.Checked(out, config, key, recorded).result.observedClass ==
            if settled.NotModified? then
              if forbids || c.HasValidator() then c.trustClass else RecordedClass(recorded)
            else match recorded.kind
            case ContentHash => if forbids then Volatile else Exact
            case Custom => Versioned
            case _ => c.trustClass
  {
    hide FetchFrom, ClassifyDiagnostics, DecideDiagnostics, Ambiguous, AnnouncesDemotion, GateUrl, ParseETag, ReadBody,
      Outside.HashOf, ClassOf;
    if recorded.kind.Etag? && ParseETag(recorded.payload).Ok? {
      WireShape(recorded.payload);
    }
  }

  // ------------------------------------------ what is asked, and what ends it

  /** Can the recorded state be checked at all? */
  predicate Checkable(out: Outside, config: Config, key: string, recorded: Fingerprint) {
    match recorded.kind
    case Etag => ParseETag(recorded.payload).Ok?
    case Mtime => out.isFixdate(recorded.payload)
    case ContentHash =>
      IsHash(recorded.payload)
      && (config.contentHashFallback == Always
          || (config.contentHashFallback.ForKeys? && key in config.contentHashFallback.keys))
    case Custom => recorded.payload == "immutable"
    case Version => false
  }

  /** A request is made exactly for an `https` URL, or an `http` one where that is allowed, whose
      record can be checked; and it carries the recorded tag in normal form, the recorded date,
      or no condition. */
  lemma RequestMeaning(out: Outside, config: Config, key: string, recorded: Fingerprint)
    ensures FetchedFor(out, config, key, recorded).Some? <==>
            && out.parseUrl(key).Some?
            && (var scheme := out.parseUrl(key).value.scheme;
                scheme == "https" || (scheme == "http" && config.allowPlaintextHttp))
            && Checkable(out, config, key, recorded)
    ensures FetchedFor(out, config, key, recorded).Some? ==>
              FetchedFor(out, config, key, recorded).value.0.Condition() ==
              match recorded.kind
              case Etag => Some(IfNoneMatchHeader(ParseETag(recorded.payload).value.Wire()))
              case Mtime => Some(IfModifiedSinceHeader(recorded.payload))
              case _ => None
  {
    hide FetchFrom, ParseETag, IsHash;
    assert "https" != "http";
  }

  /** Where a redirect may lead: to `https`, or to `http` from `http`. */
  function NextHop(out: Outside, current: Url, location: Option<string>): Option<Url> {
    if location.None? then None
    else
      var next := out.join(current, location.value);
      if next.Some? && (next.value.scheme == "https" || (next.value.scheme == "http" && current.scheme != "https"))
      then next else None
  }

  lemma HopMeaning(out: Outside, current: Url, location: Option<string>)
    ensures var hop := ResolveNextHop(out, current, location);
            && (hop.Ok? <==> NextHop(out, current, location).Some?)
            && (hop.Ok? ==> Some(hop.value) == NextHop(out, current, location))
            && (hop.Err? ==> !hop.error.retryable)
  {
    assert |"https"| != |"http"|;
  }

  /** The one HEAD was refused as such. */
  predicate HeadRefused(f: Fetching, status: nat) {
    status == 405 && f.verb.Head? && !f.headRetried
  }

  /** What one response leads to. A 304 or a 2xx settles. A 405 to the one HEAD is asked again as
      a GET. A redirect is followed while hops remain and it leads somewhere it may. Everything
      else ends undecided. */
  lemma TurnMeaning(out: Outside, config: Config, original: Url, f: Fetching, response: HttpResponse)
    ensures var turn, status := TurnOn(out, config, original, f, response), response.status;
            var hop := NextHop(out, f.current, response.headers.location);
            && (turn.Settle? <==> status == 304 || 200 <= status <= 299)
            && (turn.Settle? ==> turn.settled.response == response
                                 && (turn.settled.NotModified? <==> status == 304))
            && (turn.Again? <==>
                  || HeadRefused(f, status)
                  || (300 <= status <= 399 && status != 304 && f.hops < config.maxRedirects && hop.Some?))
  {
    hide GiveReason, Decimal, ResolveNextHop, SameOrigin, NextHop, Trace.Diag;
    HopMeaning(out, f.current, response.headers.location);
  }

  lemma RetryMeaning(out: Outside, config: Config, original: Url, f: Fetching, response: HttpResponse)
    ensures var turn, status := TurnOn(out, config, original, f, response), response.status;
            turn.GiveUp? ==> (turn.unresolved.retryable <==> status == 429 || 500 <= status <= 599)
  {
    hide Decimal, ResolveNextHop, SameOrigin, NextHop, Trace.Diag;
    HopMeaning(out, f.current, response.headers.location);
  }

  /** How the next round differs: a redirect moves on, keeping the verb; a refused HEAD is sent to
      the same place as a GET. */
  lemma NextRoundMeaning(out: Outside, config: Config, original: Url, f: Fetching, response: HttpResponse)
    requires TurnOn(out, config, original, f, response).Again?
    ensures var next := TurnOn(out, config, original, f, response).next;
            if HeadRefused(f, response.status)
            then next.current == f.current && next.hops == f.hops && next.verb == Get && next.headRetried
            else && Some(next.current) == NextHop(out, f.current, response.headers.location)
                 && next.hops == f.hops + 1 && next.verb == f.verb && next.headRetried == f.headRetried
                 && (CrossOriginRedirect in next.trace.diagnostics <==>
                       CrossOriginRedirect in f.trace.diagnostics
                       || original.scheme != next.current.scheme || original.host != next.current.host
                       || original.port != next.current.port)
  {
    hide GiveReason, Decimal, ResolveNextHop, NextHop;
    HopMeaning(out, f.current, response.headers.location);
  }

  lemma Reasons()
    ensures forall reason, retryable :: GiveReason(reason, retryable).retryable == retryable
  {
  }

  /** The last thing the server answered before fetching ended. */
  ghost function LastAnswer(out: Outside, config: Config, original: Url, plan: Plan, f: Fetching)
    : Result<HttpResponse, TransportError>
    decreases Slack(config, f)
  {
    var answer := out.server(f.trace.requests, RequestOf(f, plan));
    match answer
    case Err(_) => answer
    case Ok(response) =>
      TurnsShrink(out, config, original, Asked(f), response);
      match TurnOn(out, config, original, Asked(f), response)
      case Again(next) => LastAnswer(out, config, original, plan, next)
      case _ => answer
  }

  /** Fetching comes to what the last answer says: it settles on a 304 or a 2xx, and otherwise
      gives up, to be retried exactly when the transport says so or the server was over its rate
      or in error. */
  lemma {:induction false} LastAnswerDecides(out: Outside, config: Config, original: Url, plan: Plan, f: Fetching)
    ensures var result, answer := FetchFrom(out, config, original, plan, f).0,
                                  LastAnswer(out, config, original, plan, f);
            && (result.Ok? <==>
                  answer.Ok? && (answer.value.status == 304 || 200 <= answer.value.status <= 299))
            && (result.Ok? ==>
                  && answer == Ok(result.value.response)
                  && (result.value.NotModified? <==> result.value.response.status == 304)
                  && (result.value.Representation? ==> 200 <= result.value.response.status <= 299))
            && (result.Err? ==>
                  (result.error.retryable <==>
                     match answer
                     case Err(e) => e.retryable
                     case Ok(response) => response.status == 429 || 500 <= response.status <= 599))
    decreases Slack(config, f)
  {
    hide TurnOn, GiveReason;
    Reasons();
    match out.server(f.trace.requests, RequestOf(f, plan))
    case Err(_) =>
    case Ok(response) =>
      TurnsShrink(out, config, original, Asked(f), response);
      TurnMeaning(out, config, original, Asked(f), response);
      RetryMeaning(out, config, original, Asked(f), response);
      match TurnOn(out, config, original, Asked(f), response)
      case Again(next) => LastAnswerDecides(out, config, original, plan, next);
      case _ =>
  }

  /** The last answer of the fetch a check makes. */
  ghost function LastAnswerTo(out: Outside, config: Config, key: string, recorded: Fingerprint)
    : Result<HttpResponse, TransportError>
    requires FetchedFor(out, config, key, recorded).Some?
  {
    var original, plan := GateUrl(out, config, key).value, PlanFor(out, config, key, recorded).value;
    var start := Trace([], 0, 0, [key], None, 0);
    var gated := if original.scheme == "http" then start.Diag(PlaintextTransport) else start;
    LastAnswer(out, config, original, plan, FetchStart(config, original, plan, gated))
  }

  lemma DecidesUndecided(out: Outside, config: Config, key: string, recorded: Fingerprint, plan: Plan,
                         response: HttpResponse)
    requires PlanFor(out, config, key, recorded) == Ok(plan)
    ensures var decided := DecideOk(out, config, plan, Classify(out, response.headers), response.body);
            && (decided.Ok? ==> !decided.value.UnknownResult?)
            && (decided.Err? && decided.error.retryable <==>
                  && recorded.kind.ContentHash? && response.body.Some? && Fails(response.body.value)
                  && |Delivered(response.body.value)| <= config.maxFetchBytes)
  {
    hide ReadBody, Classify, ParseETag, IsHash, Outside.HashOf, Decimal;
    if response.body.Some? {
      ReadBodyMeaning(response.body.value, config.maxFetchBytes, []);
    }
  }

  lemma PlanRetry(out: Outside, config: Config, key: string, recorded: Fingerprint)
    ensures PlanFor(out, config, key, recorded).Err? ==>
              (PlanFor(out, config, key, recorded).error.retryable <==>
                 recorded.kind.ContentHash? && !config.contentHashFallback.EnabledFor(key))
  {
    hide ParseETag, IsHash, FingerprintKind.WirePrefix, ETagError.Token;
  }

  lemma GateIsFinal(out: Outside, config: Config, key: string)
    ensures GateUrl(out, config, key).Err? ==> !GateUrl(out, config, key).error.retryable
    ensures GateUrl(out, config, key).Ok? <==>
            && out.parseUrl(key).Some?
            && (var scheme := out.parseUrl(key).value.scheme;
                scheme == "https" || (scheme == "http" && config.allowPlaintextHttp))
  {
  }

  /** When an undecided check is worth another try: hashing is not enabled for the key of an allowed
      URL; or the last answer was a retryable transport error, a 429 or a 5xx; or the body of an
      otherwise good answer broke off before the cap. */
  lemma RetryableExactlyWhen(out: Outside, config: Config, key: string, recorded: Fingerprint)
    ensures var fetched := FetchedFor(out, config, key, recorded);
            Https.Checked(out, config, key, recorded).result == UnknownResult(true) <==>
            if fetched.None? then
              && out.parseUrl(key).Some?
              && (var scheme := out.parseUrl(key).value.scheme;
                  scheme == "https" || (scheme == "http" && config.allowPlaintextHttp))
              && recorded.kind.ContentHash? && !config.contentHashFallback.EnabledFor(key)
            else
              var answer := LastAnswerTo(out, config, key, recorded);
              if answer.Err? then answer.error.retryable
              else
                var response := answer.value;
                || response.status == 429 || 500 <= response.status <= 599
                || (&& 200 <= response.status <= 299 && !Ambiguous(response.headers)
                    && recorded.kind.ContentHash? && response.body.Some? && Fails(response.body.value)
                    && |Delivered(response.body.value)| <= config.maxFetchBytes)
  {
    hide FetchFrom, LastAnswer, Classify, ClassifyDiagnostics, DecideOk, DecideDiagnostics, Ambiguous,
      AnnouncesDemotion, PlanFor, GateUrl, AmbiguousTag, ChargedBytes;
    PlanRetry(out, config, key, recorded);
    GateIsFinal(out, config, key);
    if FetchedFor(out, config, key, recorded).Some? {
      var original, plan := GateUrl(out, config, key).value, PlanFor(out, config, key, recorded).value;
      var start := Trace([], 0, 0, [key], None, 0);
      var gated := if original.scheme == "http" then start.Diag(PlaintextTransport) else start;
      var f := FetchStart(config, original, plan, gated);
      LastAnswerDecides(out, config, original, plan, f);
      var settled := FetchFrom(out, config, original, plan, f).0;
      if settled.Ok? {
        DecidesUndecided(out, config, key, recorded, plan, settled.value.response);
        AmbiguityIsFinal(settled.value.response.headers);
      }
    }
  }

  lemma AmbiguityIsFinal(headers: Headers)
    ensures !AmbiguousTag(headers).retryable
  {
    hide GiveReason, Decimal;
    Reasons();
  }

  /** A hash recorded with another algorithm can never be confirmed: the probe always hashes
      with BLAKE3, so every readable body within the cap is reported as drift. */
  lemma OtherAlgorithmsNeverMatch(out: Outside, config: Config, plan: Plan, response: HttpResponse)
    requires plan.ContentHashPlan? && IsHash(plan.hash) && plan.hash[..7] == "sha256:"
    ensures !Confirmed(out, config, plan, response)
  {
    if response.body.Some? {
      var observed := out.HashOf(Delivered(response.body.value));
      assert observed[0] == 'b' && plan.hash[0] == plan.hash[..7][0] == 's';
    }
  }

  /** A match reports the recorded fingerprint itself, except that a fresh entity tag is
      reported in normal form: exactly when a 2xx confirmed a tag that was recorded in another
      spelling does the reported fingerprint differ from the recorded one. */
  lemma MatchedFingerprint(out: Outside, config: Config, key: string, recorded: Fingerprint)
    requires Https.Checked(out, config, key, recorded).result.MatchResult?
    ensures FetchedFor(out, config, key, recorded).Some? && FetchedFor(out, config, key, recorded).value.1.Ok?
    ensures var settled := FetchedFor(out, config, key, recorded).value.1.value;
            Https.Checked(out, config, key, recorded).result.observedFp == recorded <==>
            settled.NotModified? || !recorded.kind.Etag? || ParseETag(recorded.payload).value.Wire() == recorded.payload
  {
    hide FetchFrom, ClassifyDiagnostics, DecideDiagnostics, Ambiguous, AnnouncesDemotion, GateUrl, ParseETag, ReadBody;
    MatchMeaning(out, config, key, recorded);
  }

  /** What that means once the answer is appended to the log: a match of this probe leaves the
      graph unmoved, except exactly when it renamed the recorded entity tag, which replay then
      takes for a change of the dependency. */
  lemma MatchesFeedBack(out: Outside, config: Config, dep: Dependency)
    requires Canonical(dep.fingerprint) && Https.Checked(out, config, dep.key, dep.fingerprint).result.MatchResult?
    ensures FetchedFor(out, config, dep.key, dep.fingerprint).Some?
            && FetchedFor(out, config, dep.key, dep.fingerprint).value.1.Ok?
    ensures var settled := FetchedFor(out, config, dep.key, dep.fingerprint).value.1.value;
            Faithful(Https.Checked(out, config, dep.key, dep.fingerprint).result, dep) <==>
            settled.NotModified? || !dep.fingerprint.kind.Etag?
            || ParseETag(dep.fingerprint.payload).value.Wire() == dep.fingerprint.payload
  {
    hide Https.Checked, Faithful, FetchedFor, ParseETag;
    MatchedFingerprint(out, config, dep.key, dep.fingerprint);
    MatchedIsCanonical(out, config, dep.key, dep.fingerprint);
    FaithfulMeaning(Https.Checked(out, config, dep.key, dep.fingerprint).result, dep);
  }

  lemma MatchedIsCanonical(out: Outside, config: Config, key: string, recorded: Fingerprint)
    requires Canonical(recorded) && Https.Checked(out, config, key, recorded).result.MatchResult?
    ensures Canonical(Https.Checked(out, config, key, recorded).result.observedFp)
  {
    hide FetchFrom, ClassifyDiagnostics, DecideDiagnostics, Ambiguous, AnnouncesDemotion, GateUrl, ReadBody, Trim,
      IsTagChar;
    MatchMeaning(out, config, key, recorded);
  }

  // --------------------------------------------------- silent demotions

  /** How much weaker a decided answer's class is than the recorded one, and whether the check
      said so. */
  ghost predicate SilentlyDemoted(plan: Plan, c: Classification, result: ProbeResult) {
    && !result.UnknownResult?
    && result.observedClass.IsDemotionFrom(plan.RecordedTrustClass())
    && !AnnouncesDemotion(plan, c)
  }

  /** Demotions are meant never to be silent. A decided answer is silently weaker than the
      record exactly when the server forbids caching on a response without any validator. */
  lemma DemotionIsAnnouncedUnless(out: Outside, config: Config, recorded: Fingerprint, plan: Plan, settled: Settled)
    ensures var c := Classify(out, settled.response.headers);
            var decided := if settled.NotModified? then Ok(DecideNotModified(recorded, plan, c))
                           else DecideOk(out, config, plan, c, settled.response.body);
            decided.Ok? ==>
              (SilentlyDemoted(plan, c, decided.value) <==> c.cacheControl.ForbidsCaching() && !c.HasValidator())
  {
    hide ReadBody, ParseETag, Outside.HashOf;
  }

  // --------------------------------------------------- the running account

  /** Entity tags conflict when some field differs from the first. */
  lemma AmbiguousMeaning(headers: Headers)
    ensures Ambiguous(headers) <==> exists tag :: tag in headers.etags && tag != headers.etags[0]
  {
    if tag :| tag in headers.etags && tag != headers.etags[0] {
      var j :| 0 <= j < |headers.etags| && headers.etags[j] == tag;
      assert headers.etags[0] != headers.etags[j];
    }
    if i, j :| 0 <= i < j < |headers.etags| && headers.etags[i] != headers.etags[j] {
      assert headers.etags[i] in headers.etags && headers.etags[j] in headers.etags;
    }
  }

  /** A reason is cut after 512 characters. */
  lemma ReasonsAreCut(reason: string, retryable: bool)
    ensures |GiveReason(reason, retryable).reason| <= 512 && GiveReason(reason, retryable).reason <= reason
    ensures |reason| <= 512 ==> GiveReason(reason, retryable).reason == reason
    ensures |reason| > 512 ==> |GiveReason(reason, retryable).reason| == 512
  {
  }

  /** The first request of a fetch: for the key's own URL, a HEAD if that is preferred and no body
      is needed. If that is refused, the second is a GET for the same. */
  lemma FirstRequestMeaning(out: Outside, config: Config, original: Url, plan: Plan, trace: Trace)
    ensures var sent := Sent(out, config, original, plan, FetchStart(config, original, plan, trace));
            && sent != [] && sent[0].url == original && sent[0].condition == plan.Condition()
            && (sent[0].verb == Head <==> config.preferHead && !plan.ContentHashPlan?)
            && (var answer := out.server(trace.requests, sent[0]);
                sent[0].verb == Head && answer.Ok? && answer.value.status == 405 ==>
                  |sent| >= 2 && sent[1] == sent[0].(verb := Get))
  {
    hide TurnOn;
    var f := FetchStart(config, original, plan, trace);
    match out.server(f.trace.requests, RequestOf(f, plan))
    case Err(_) =>
    case Ok(response) =>
      TurnMeaning(out, config, original, Asked(f), response);
      if HeadRefused(Asked(f), response.status) {
        NextRoundMeaning(out, config, original, Asked(f), response);
      }
  }

  /** What a body costs: all of it within the cap, everything read up to where the cap was
      exceeded, and nothing if a read failed before. */
  lemma ChargeMeaning(config: Config, body: Option<seq<BodyRead>>)
    ensures ChargedBytes(config, body) ==
            match body
            case None => 0
            case Some(parts) =>
              if |Delivered(parts)| > config.maxFetchBytes then ExceededAt(parts, config.maxFetchBytes, 0)
              else if Fails(parts) then 0
              else |Delivered(parts)|
  {
    hide ReadBody;
    if body.Some? {
      ReadBodyMeaning(body.value, config.maxFetchBytes, []);
    }
  }

  /** When to come back is kept exactly from a 429 that ended the fetch. */
  lemma {:induction false} RateLimitIsNoted(out: Outside, config: Config, original: Url, plan: Plan, f: Fetching)
    ensures var (result, after) := FetchFrom(out, config, original, plan, f);
            var answer := LastAnswer(out, config, original, plan, f);
            && (answer.Ok? && answer.value.status == 429 ==>
                  after.trace.retryAfter == answer.value.headers.retryAfter
                  && RateLimited in after.trace.diagnostics)
            && (!(answer.Ok? && answer.value.status == 429) ==>
                  after.trace.retryAfter == f.trace.retryAfter
                  && (RateLimited in after.trace.diagnostics <==> RateLimited in f.trace.diagnostics))
    decreases Slack(config, f)
  {
    hide TurnOn;
    match out.server(f.trace.requests, RequestOf(f, plan))
    case Err(_) =>
    case Ok(response) =>
      TurnsShrink(out, config, original, Asked(f), response);
      TurnMeaning(out, config, original, Asked(f), response);
      TurnNotes(out, config, original, Asked(f), response);
      match TurnOn(out, config, original, Asked(f), response)
      case Again(next) => RateLimitIsNoted(out, config, original, plan, next);
      case _ =>
  }

  /** Going round again notes only a refused HEAD or a redirect to another origin. */
  lemma TurnNotes(out: Outside, config: Config, original: Url, f: Fetching, response: HttpResponse)
    ensures var turn := TurnOn(out, config, original, f, response);
            turn.Again? ==>
              && turn.next.trace.retryAfter == f.trace.retryAfter
              && turn.next.trace.bodyBytes == f.trace.bodyBytes
              && (forall code :: code != HeadNotAllowed && code != CrossOriginRedirect ==>
                    (code in turn.next.trace.diagnostics <==> code in f.trace.diagnostics))
              && (HeadNotAllowed in turn.next.trace.diagnostics <==>
                    HeadNotAllowed in f.trace.diagnostics || HeadRefused(f, response.status))
  {
    hide GiveReason, Decimal, ResolveNextHop, SameOrigin;
  }

  /** Fetching notes nothing about what it finds. */
  lemma {:induction false} FetchNotes(out: Outside, config: Config, original: Url, plan: Plan, f: Fetching,
                                      code: DiagnosticCode)
    requires code != HeadNotAllowed && code != CrossOriginRedirect && code != RateLimited
    ensures code in FetchFrom(out, config, original, plan, f).1.trace.diagnostics <==> code in f.trace.diagnostics
    decreases Slack(config, f)
  {
    hide TurnOn;
    match out.server(f.trace.requests, RequestOf(f, plan))
    case Err(_) =>
    case Ok(response) =>
      TurnsShrink(out, config, original, Asked(f), response);
      TurnNotes(out, config, original, Asked(f), response);
      match TurnOn(out, config, original, Asked(f), response)
      case Again(next) => FetchNotes(out, config, original, plan, next, code);
      case _ =>
  }

  /** What is noted about a settled response. */
  ghost predicate Noted(out: Outside, recorded: Fingerprint, settled: Settled, code: DiagnosticCode) {
    var headers, cc := settled.response.headers, settled.response.headers.cacheControl;
    var forbids := cc.noStore || cc.mustRevalidate;
    var dated := headers.lastModified.Some? && out.isFixdate(headers.lastModified.value);
    var tagged := TagOf(headers).Some?;
    var renewed := settled.Representation?;
    match code
    case DuplicateEtag => |headers.etags| > 1
    case MalformedEtag => !Ambiguous(headers) && headers.etags != [] && !tagged
    case ContradictoryCacheControl => !Ambiguous(headers) && forbids && cc.immutable
    case RepresentationRecorded => !Ambiguous(headers) && headers.contentType.Some?
    case ContentHashFallbackUsed => !Ambiguous(headers) && renewed && recorded.kind.ContentHash?
    case EtagInstability =>
      && !Ambiguous(headers) && renewed
      && (|| (recorded.kind.Etag? && tagged && ParseETag(recorded.payload).Ok?
              && TagOf(headers).value == ParseETag(recorded.payload).value.Wire())
          || (recorded.kind.Mtime? && dated && headers.lastModified.value == recorded.payload))
    case TrustDemoted =>
      && !Ambiguous(headers)
      && (|| ((tagged || dated || cc.immutable)
              && Weaker(Classify(out, headers).trustClass, RecordedClass(recorded)))
          || (renewed && recorded.kind.Etag? && !tagged)
          || (renewed && recorded.kind.Mtime? && !dated && !tagged)
          || (renewed && recorded.kind.Custom? && (forbids || !cc.immutable)))
    case _ => false
  }

  lemma ClassifyNotes(headers: Headers, code: DiagnosticCode)
    ensures code in ClassifyDiagnostics(headers) <==>
            || (code == DuplicateEtag && |headers.etags| > 1)
            || (code == MalformedEtag && !Ambiguous(headers) && headers.etags != [] && TagOf(headers).None?)
            || (code == ContradictoryCacheControl && !Ambiguous(headers) && headers.cacheControl.immutable
                && (headers.cacheControl.noStore || headers.cacheControl.mustRevalidate))
  {
    hide Ambiguous, ParseETag;
  }

  lemma DecideNotes(out: Outside, config: Config, key: string, recorded: Fingerprint, plan: Plan, headers: Headers,
                    code: DiagnosticCode)
    requires PlanFor(out, config, key, recorded) == Ok(plan)
    ensures var cc := headers.cacheControl;
            var dated := headers.lastModified.Some? && out.isFixdate(headers.lastModified.value);
            var tagged := TagOf(headers).Some?;
            code in DecideDiagnostics(plan, Classify(out, headers)) <==>
            || (code == ContentHashFallbackUsed && recorded.kind.ContentHash?)
            || (code == EtagInstability && recorded.kind.Etag? && tagged && ParseETag(recorded.payload).Ok?
                && TagOf(headers).value == ParseETag(recorded.payload).value.Wire())
            || (code == EtagInstability && recorded.kind.Mtime? && dated
                && headers.lastModified.value == recorded.payload)
            || (code == TrustDemoted && recorded.kind.Etag? && !tagged)
            || (code == TrustDemoted && recorded.kind.Mtime? && !dated && !tagged)
            || (code == TrustDemoted && recorded.kind.Custom?
                && (cc.noStore || cc.mustRevalidate || !cc.immutable))
  {
    hide Ambiguous, ParseETag, ClassOf;
  }

  lemma AnnounceNotes(out: Outside, config: Config, key: string, recorded: Fingerprint, plan: Plan, headers: Headers)
    requires PlanFor(out, config, key, recorded) == Ok(plan)
    ensures var dated := headers.lastModified.Some? && out.isFixdate(headers.lastModified.value);
            AnnouncesDemotion(plan, Classify(out, headers)) <==>
            && (TagOf(headers).Some? || dated || headers.cacheControl.immutable)
            && Weaker(Classify(out, headers).trustClass, RecordedClass(recorded))
  {
    hide Ambiguous, ParseETag, ClassOf;
    WeakerMeaning(Classify(out, headers).trustClass, plan.RecordedTrustClass());
    if recorded.kind.Etag? && ParseETag(recorded.payload).Ok? {
      WireShape(recorded.payload);
    }
  }

  lemma ConcludedNotes(out: Outside, config: Config, key: string, recorded: Fingerprint, plan: Plan, settled: Settled,
                       f: Fetching, code: DiagnosticCode)
    requires PlanFor(out, config, key, recorded) == Ok(plan)
    ensures code in Concluded(out, config, recorded, plan, (Ok(settled), f)).trace.diagnostics <==>
            code in f.trace.diagnostics || Noted(out, recorded, settled, code)
  {
    hide PlanFor, DecideOk, ChargedBytes, Ambiguous, ParseETag, Classify, AnnouncesDemotion, TagOf, ClassifyDiagnostics,
      DecideDiagnostics, Weaker, RecordedClass;
    var headers := settled.response.headers;
    ClassifyNotes(headers, code);
    DecideNotes(out, config, key, recorded, plan, headers, code);
    AnnounceNotes(out, config, key, recorded, plan, headers);
  }

  /** What a check that settled says about the response: each diagnostic exactly when there was
      cause for it. */
  lemma DiagnosticsMeaning(out: Outside, config: Config, key: string, recorded: Fingerprint, code: DiagnosticCode)
    requires FetchedFor(out, config, key, recorded).Some? && FetchedFor(out, config, key, recorded).value.1.Ok?
    requires code != HeadNotAllowed && code != CrossOriginRedirect && code != RateLimited
    ensures code in Https.Checked(out, config, key, recorded).trace.diagnostics <==>
            || Noted(out, recorded, FetchedFor(out, config, key, recorded).value.1.value, code)
            || (code == PlaintextTransport && out.parseUrl(key).value.scheme == "http")
  {
    hide FetchFrom, Concluded, Noted, GateUrl, PlanFor;
    var original := GateUrl(out, config, key).value;
    assert original == out.parseUrl(key).value by {
      GatedUrl(out, config, key);
    }
    var plan := PlanFor(out, config, key, recorded).value;
    var start := Trace([], 0, 0, [key], None, 0);
    var gated := if original.scheme == "http" then start.Diag(PlaintextTransport) else start;
    var f := FetchStart(config, original, plan, gated);
    FetchNotes(out, config, original, plan, f, code);
    var fetched := FetchFrom(out, config, original, plan, f);
    ConcludedNotes(out, config, key, recorded, plan, fetched.0.value, fetched.1, code);
  }

  lemma GatedUrl(out: Outside, config: Config, key: string)
    ensures GateUrl(out, config, key).Ok? ==>
              out.parseUrl(key).Some? && GateUrl(out, config, key).value == out.parseUrl(key).value
  {
  }
}

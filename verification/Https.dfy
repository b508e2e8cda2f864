/** The `https` probe: planning a conditional request, following redirects, and deciding
    whether the representation is still the recorded one. */
module Https {
  import opened Wrappers
  import opened Text
  import opened TrustClasses
  import opened Fingerprints
  import opened Ir
  import opened Identifiers
  import opened Edges
  import opened ETags

  // ------------------------------------------------------------- outside

  /** A parsed absolute URL: what redirect policy looks at, and its text. */
  datatype Url = Url(scheme: string, host: Option<string>, port: Option<nat>, text: string)

  datatype HttpMethod = Head | Get

  datatype Condition = IfNoneMatchHeader(wire: string) | IfModifiedSinceHeader(date: string)

  datatype HttpRequest = HttpRequest(url: Url, verb: HttpMethod, condition: Option<Condition>)

  datatype CacheControl = CacheControl(noStore: bool, mustRevalidate: bool, immutable: bool) {
    predicate ForbidsCaching() {
      noStore || mustRevalidate
    }
  }

  datatype RetryAfter = Seconds(seconds: nat) | HttpDate(date: string)

  /** The header fields the probe reads, trimmed and with empty ones dropped. */
  datatype Headers = Headers(
    etags: seq<string>, lastModified: Option<string>, cacheControl: CacheControl, location: Option<string>,
    contentType: Option<string>, retryAfter: Option<RetryAfter>)

  /** One read of a body stream. An empty read is the end of the body. */
  datatype BodyRead = Chunk(bytes: seq<Byte>) | ReadFailed

  datatype HttpResponse = HttpResponse(status: nat, headers: Headers, body: Option<seq<BodyRead>>)

  datatype TransportError = TransportError(reason: string, retryable: bool)

  /** Everything outside the probe: URL parsing and joining, date syntax, the hash function,
      and a server that answers the `n`-th request as it likes. */
  datatype Outside = Outside(
    parseUrl: string -> Option<Url>,
    join: (Url, string) -> Option<Url>,
    isFixdate: string -> bool,
    blake3: seq<Byte> -> string,
    server: (nat, HttpRequest) -> Result<HttpResponse, TransportError>)
  {
    /** The wire form of the content hash of a body. */
    function HashOf(body: seq<Byte>): string {
      "blake3:" + blake3(body)
    }
  }

  datatype ContentHashFallback = Never | ForKeys(keys: set<string>) | Always {
    predicate EnabledFor(key: string) {
      Always? || (ForKeys? && key in keys)
    }
  }

  type U8 = n: nat | n <= 255

  datatype Config = Config(
    maxRedirects: U8, maxFetchBytes: nat, contentHashFallback: ContentHashFallback, allowPlaintextHttp: bool,
      preferHead: bool)

  datatype DiagnosticCode =
    | PlaintextTransport | HeadNotAllowed | CrossOriginRedirect | RateLimited | DuplicateEtag | MalformedEtag
    | ContradictoryCacheControl | TrustDemoted | RepresentationRecorded | EtagInstability | ContentHashFallbackUsed

  /** Why a check ends undecided. */
  datatype Unresolved = Unresolved(reason: string, retryable: bool)

  const MAX_REASON_BYTES: nat := 512

  function GiveReason(reason: string, retryable: bool): Unresolved {
    Unresolved(if |reason| > MAX_REASON_BYTES then reason[..MAX_REASON_BYTES] else reason, retryable)
  }

  // ------------------------------------------------------------- planning

  datatype Plan =
    | IfNoneMatch(wire: string, weak: bool)
    | IfModifiedSince(date: string)
    | Immutable
    | ContentHashPlan(hash: string)
  {
    /** How strong a recorded fingerprint of this kind is. */
    function RecordedTrustClass(): TrustClass {
      match this
      case IfNoneMatch(_, weak) => if weak then Heuristic else Versioned
      case IfModifiedSince(_) => Heuristic
      case Immutable => Versioned
      case ContentHashPlan(_) => Exact
    }

    function Condition(): Option<Condition> {
      match this
      case IfNoneMatch(wire, _) => Some(IfNoneMatchHeader(wire))
      case IfModifiedSince(date) => Some(IfModifiedSinceHeader(date))
      case _ => None
    }
  }

  function GateUrl(out: Outside, config: Config, key: string): Result<Url, Unresolved> {
    match out.parseUrl(key)
    case None => Err(GiveReason("malformed-dependency-key", false))
    case Some(url) =>
      if url.scheme == "https" || (url.scheme == "http" && config.allowPlaintextHttp) then Ok(url)
      else if url.scheme == "http" then Err(GiveReason("plaintext-http-refused", false))
      else Err(GiveReason("unsupported-url-scheme=" + (if |url.scheme| > 32 then url.scheme[..32] else url.scheme),
                          false))
  }

  function PlanFor(out: Outside, config: Config, key: string, recorded: Fingerprint): Result<Plan, Unresolved> {
    match recorded.kind
    case Etag =>
      (match ParseETag(recorded.payload)
       case Ok(tag) => Ok(IfNoneMatch(tag.Wire(), tag.weak))
       case Err(e) => Err(GiveReason("recorded-fingerprint-malformed etag=" + e.Token(), false)))
    case Mtime =>
      if out.isFixdate(recorded.payload) then Ok(IfModifiedSince(recorded.payload))
      else Err(GiveReason("recorded-fingerprint-malformed mtime=not-imf-fixdate", false))
    case ContentHash =>
      if !config.contentHashFallback.EnabledFor(key) then Err(GiveReason("content-hash-fallback-required", true))
      else if IsHash(recorded.payload) then Ok(ContentHashPlan(recorded.payload))
      else Err(GiveReason("recorded-fingerprint-malformed content-hash", false))
    case _ =>
      if recorded.kind.Custom? && recorded.payload == "immutable" then Ok(Immutable)
      else Err(GiveReason("unsupported-fingerprint-kind=" + recorded.kind.WirePrefix(), false))
  }

  // ------------------------------------------------------------ redirects

  function ResolveNextHop(out: Outside, current: Url, location: Option<string>): Result<Url, Unresolved> {
    match location
    case None => Err(GiveReason("redirect-without-location", false))
    case Some(l) =>
      match out.join(current, l)
      case None => Err(GiveReason("redirect-location-unparseable", false))
      case Some(next) =>
        if next.scheme == "https" then Ok(next)
        else if next.scheme == "http" then
          if current.scheme == "https" then Err(GiveReason("cross-scheme-downgrade-refused", false)) else Ok(next)
        else Err(GiveReason("redirect-unsupported-scheme", false))
  }

  predicate SameOrigin(a: Url, b: Url) {
    a.scheme == b.scheme && a.host == b.host && a.port == b.port
  }

  /** The response fetching settled on: the server's own claim that nothing changed, or a
      representation whose equality is ours to establish. */
  datatype Settled = NotModified(response: HttpResponse) | Representation(response: HttpResponse)

  /** The running account of one check. */
  datatype Trace = Trace(diagnostics: seq<DiagnosticCode>, requests: nat, redirectHops: nat, chain: seq<string>,
    retryAfter: Option<RetryAfter>, bodyBytes: nat)
  {
    function Diag(code: DiagnosticCode): Trace {
      this.(diagnostics := diagnostics + [code])
    }
  }

  /** Where the fetch loop stands. */
  datatype Fetching = Fetching(current: Url, hops: nat, headRetried: bool, verb: HttpMethod, trace: Trace)

  /** One response: settle, give up, or go round again. */
  datatype Turn = Settle(settled: Settled) | GiveUp(unresolved: Unresolved) | Again(next: Fetching)

  function TurnOn(out: Outside, config: Config, original: Url, f: Fetching, response: HttpResponse): Turn {
    var status := response.status;
    if status == 304 then Settle(NotModified(response))
    else if status == 405 && f.verb.Head? && !f.headRetried then
      Again(f.(headRetried := true, verb := Get, trace := f.trace.Diag(HeadNotAllowed)))
    else if 200 <= status <= 299 then Settle(Representation(response))
    else if 300 <= status <= 399 then
      if f.hops >= config.maxRedirects
        then GiveUp(GiveReason("redirect-chain-too-deep max-redirects=" + Decimal(config.maxRedirects), false))
      else
        match ResolveNextHop(out, f.current, response.headers.location)
        case Err(refusal) => GiveUp(refusal)
        case Ok(next) =>
          var counted := f.trace.(redirectHops := f.hops + 1);
          var told := if SameOrigin(original, next) then counted else counted.Diag(CrossOriginRedirect);
          Again(f.(current := next, hops := f.hops + 1, trace := told.(chain := told.chain + [next.text])))
    else if status == 401 || status == 403
      then GiveUp(GiveReason("auth-required http-status=" + Decimal(status), false))
    else if status == 429 then GiveUp(GiveReason("rate-limited http-status=429", true))
    else if 400 <= status <= 499 then GiveUp(GiveReason("http-status=" + Decimal(status), false))
    else if 500 <= status <= 599 then GiveUp(GiveReason("http-status=" + Decimal(status), true))
    else GiveUp(GiveReason("unexpected-http-status=" + Decimal(status), false))
  }

  /** Rounds the loop can still make after this one. */
  function Slack(config: Config, f: Fetching): nat {
    (if f.hops < config.maxRedirects then config.maxRedirects - f.hops else 0)
      + (if f.verb.Head? && !f.headRetried then 1 else 0)
  }

  function Asked(f: Fetching): Fetching {
    f.(trace := f.trace.(requests := f.trace.requests + 1))
  }

  function RequestOf(f: Fetching, plan: Plan): HttpRequest {
    HttpRequest(f.current, f.verb, plan.Condition())
  }

  /** A rate limit is noted with the server's hint when to come back. */
  function RateNoted(f: Fetching, response: HttpResponse): Fetching {
    if response.status == 429
    then f.(trace := f.trace.(retryAfter := response.headers.retryAfter).Diag(RateLimited))
    else f
  }

  /** What fetching comes to, from any point of the loop. */
  function FetchFrom(out: Outside, config: Config, original: Url, plan: Plan, f: Fetching): (Result<Settled,
    Unresolved>, Fetching)
    decreases Slack(config, f)
  {
    var asked := Asked(f);
    match out.server(f.trace.requests, RequestOf(f, plan))
    case Err(e) => (Err(GiveReason(e.reason, e.retryable)), asked)
    case Ok(response) =>
      match TurnOn(out, config, original, asked, response)
      case Settle(settled) => (Ok(settled), asked)
      case GiveUp(unresolved) =>
        (Err(unresolved), RateNoted(asked, response))
      case Again(next) => FetchFrom(out, config, original, plan, next)
  }

  function FetchStart(config: Config, original: Url, plan: Plan, trace: Trace): Fetching {
    Fetching(original, 0, false, if plan.ContentHashPlan? || !config.preferHead then Get else Head, trace)
  }

  /** Issue requests until a response that is not a redirect. */
  method Fetch(out: Outside, config: Config, original: Url, plan: Plan, trace: Trace)
    returns (r: Result<Settled, Unresolved>, after: Trace)
    ensures var (result, f) := FetchFrom(out, config, original, plan, FetchStart(config, original, plan, trace));
            r == result && after == f.trace
  {
    hide TurnOn, ResolveNextHop;
    var f := FetchStart(config, original, plan, trace);
    while true
      invariant FetchFrom(out, config, original, plan, f)
                == FetchFrom(out, config, original, plan, FetchStart(config, original, plan, trace))
      decreases Slack(config, f)
    {
      var request := RequestOf(f, plan);
      var answer := out.server(f.trace.requests, request);
      ghost var before := f;
      f := Asked(f);
      match answer {
        case Err(e) => return Err(GiveReason(e.reason, e.retryable)), f.trace;
        case Ok(response) =>
          TurnsShrink(out, config, original, f, response);
          match TurnOn(out, config, original, f, response) {
            case Settle(settled) => return Ok(settled), f.trace;
            case GiveUp(unresolved) =>
              return Err(unresolved), RateNoted(f, response).trace;
            case Again(next) => f := next;
          }
      }
    }
  }

  /** Going round again uses up slack, so the loop ends whatever the server does. */
  lemma TurnsShrink(out: Outside, config: Config, original: Url, f: Fetching, response: HttpResponse)
    ensures var turn := TurnOn(out, config, original, f, response);
            turn.Again? ==> Slack(config, turn.next) < Slack(config, f)
  {
    hide ResolveNextHop, SameOrigin;
  }

  // ------------------------------------------------------- classification

  datatype Classification = Classification(
    etag: Option<ETag>, lastModified: Option<string>, cacheControl: CacheControl, trustClass: TrustClass)
  {
    predicate HasValidator() {
      etag.Some? || lastModified.Some? || cacheControl.immutable
    }
  }

  function ObservedTag(headers: Headers): Option<ETag> {
    if headers.etags == [] then None
    else match ParseETag(headers.etags[0]) case Ok(tag) => Some(tag) case Err(_) => None
  }

  function ClassOf(etag: Option<ETag>, lastModified: Option<string>, cc: CacheControl): TrustClass {
    if cc.ForbidsCaching() then Volatile
    else if cc.immutable then Versioned
    else if etag.Some? then if etag.value.weak then Heuristic else Versioned
    else if lastModified.Some? then Heuristic
    else Volatile
  }

  /** Repeated tags that disagree leave no single validator. */
  predicate Ambiguous(headers: Headers) {
    exists i, j :: 0 <= i < j < |headers.etags| && headers.etags[i] != headers.etags[j]
  }

  function Classify(out: Outside, headers: Headers): Classification {
    var etag := ObservedTag(headers);
    var lastModified :=
      if headers.lastModified.Some? && out.isFixdate(headers.lastModified.value) then headers.lastModified else None;
    Classification(etag, lastModified, headers.cacheControl, ClassOf(etag, lastModified, headers.cacheControl))
  }

  function ClassifyDiagnostics(headers: Headers): seq<DiagnosticCode> {
    (if |headers.etags| > 1 then [DuplicateEtag] else [])
    + (if Ambiguous(headers) then []
       else (if headers.etags != [] && ObservedTag(headers).None? then [MalformedEtag] else [])
            + (if headers.cacheControl.ForbidsCaching() && headers.cacheControl.immutable
               then [ContradictoryCacheControl] else []))
  }

  // ------------------------------------------------------------- deciding

  function DecideNotModified(recorded: Fingerprint, plan: Plan, c: Classification): ProbeResult {
    MatchResult(recorded, if c.HasValidator() || c.cacheControl.ForbidsCaching() then c.trustClass
                else plan.RecordedTrustClass())
  }

  /** How a body stream comes out: its bytes, a failed read, or over the cap. */
  datatype BodyOutcome = Whole(bytes: seq<Byte>) | Broken | TooLong(total: nat)

  function ReadBody(parts: seq<BodyRead>, cap: nat, hashed: seq<Byte>): BodyOutcome {
    if parts == [] then Whole(hashed)
    else
      match parts[0]
      case ReadFailed => Broken
      case Chunk(bytes) =>
        if bytes == [] then Whole(hashed)
        else if |hashed| + |bytes| > cap then TooLong(|hashed| + |bytes|)
        else ReadBody(parts[1..], cap, hashed + bytes)
  }

  function TooLongReason(config: Config): Unresolved {
    GiveReason("body-exceeds-max-fetch-bytes max-fetch-bytes=" + Decimal(config.maxFetchBytes), false)
  }

  function ExactUnlessForbidden(c: Classification): TrustClass {
    if c.cacheControl.ForbidsCaching() then Volatile else Exact
  }

  function DecideContentHash(out: Outside, config: Config, hash: string, c: Classification, body: Option<seq<BodyRead>>)
    : Result<ProbeResult, Unresolved> {
    match body
    case None => Err(GiveReason("content-hash-fallback-no-body", false))
    case Some(parts) =>
      match ReadBody(parts, config.maxFetchBytes, [])
      case Broken => Err(GiveReason("transport-body-read-failed", true))
      case TooLong(_) => Err(TooLongReason(config))
      case Whole(bytes) =>
        var observed := Fingerprint(ContentHash, out.HashOf(bytes));
        Ok(if observed.payload == hash then MatchResult(observed, ExactUnlessForbidden(c))
           else DriftResult(observed, ExactUnlessForbidden(c)))
  }

  /** The body bytes charged to the check. A failed read charges nothing. */
  function ChargedBytes(config: Config, body: Option<seq<BodyRead>>): nat {
    match body
    case None => 0
    case Some(parts) =>
      match ReadBody(parts, config.maxFetchBytes, [])
      case Whole(bytes) => |bytes|
      case Broken => 0
      case TooLong(total) => total
  }

  /** Stream the body through the hash, stopping at the cap. */
  method StreamContentHash(out: Outside, config: Config, hash: string, c: Classification, body: Option<seq<BodyRead>>)
    returns (r: Result<ProbeResult, Unresolved>, bodyBytes: nat)
    ensures r == DecideContentHash(out, config, hash, c, body) && bodyBytes == ChargedBytes(config, body)
  {
    if body.None? {
      return Err(GiveReason("content-hash-fallback-no-body", false)), 0;
    }
    var parts := body.value;
    var hashed: seq<Byte> := [];
    var total, i := 0, 0;
    while i < |parts|
      invariant 0 <= i <= |parts| && total == |hashed|
      invariant ReadBody(parts[i..], config.maxFetchBytes, hashed) == ReadBody(parts, config.maxFetchBytes, [])
    {
      assert parts[i..][1..] == parts[i + 1..];
      match parts[i] {
        case ReadFailed => return Err(GiveReason("transport-body-read-failed", true)), 0;
        case Chunk(bytes) =>
          if |bytes| == 0 {
            break;
          }
          total := total + |bytes|;
          if total > config.maxFetchBytes {
            return Err(TooLongReason(config)), total;
          }
          hashed := hashed + bytes;
          i := i + 1;
      }
    }
    var observed := Fingerprint(ContentHash, out.HashOf(hashed));
    var observedClass := if c.cacheControl.ForbidsCaching() then Volatile else Exact;
    if observed.payload == hash {
      return Ok(MatchResult(observed, observedClass)), total;
    }
    return Ok(DriftResult(observed, observedClass)), total;
  }

  function DecideOk(out: Outside, config: Config, plan: Plan, c: Classification, body: Option<seq<BodyRead>>)
    : Result<ProbeResult, Unresolved> {
    match plan
    case ContentHashPlan(hash) => DecideContentHash(out, config, hash, c, body)
    case IfNoneMatch(wire, _) =>
      if c.etag.None? then Err(GiveReason("version-signal-lost", false))
      else
        var observed := Fingerprint(Etag, c.etag.value.Wire());
        Ok(if c.etag.value.Wire() == wire then MatchResult(observed, c.trustClass)
           else DriftResult(observed, c.trustClass))
    case IfModifiedSince(date) =>
      if c.lastModified.Some? then
        var observed := Fingerprint(Mtime, c.lastModified.value);
        Ok(if c.lastModified.value == date then MatchResult(observed, c.trustClass)
           else DriftResult(observed, c.trustClass))
      else if c.etag.Some? then Ok(DriftResult(Fingerprint(Etag, c.etag.value.Wire()), c.trustClass))
      else Err(GiveReason("version-signal-lost last-modified", false))
    case Immutable =>
      if c.cacheControl.immutable && !c.cacheControl.ForbidsCaching()
      then Ok(MatchResult(Fingerprint(Custom, "immutable"), Versioned))
      else Err(GiveReason("version-signal-lost immutable", false))
  }

  function DecideDiagnostics(plan: Plan, c: Classification): seq<DiagnosticCode> {
    match plan
    case ContentHashPlan(_) => [ContentHashFallbackUsed]
    case IfNoneMatch(wire, _) =>
      if c.etag.None? then [TrustDemoted] else if c.etag.value.Wire() == wire then [EtagInstability] else []
    case IfModifiedSince(date) =>
      if c.lastModified.Some? then if c.lastModified.value == date then [EtagInstability] else []
      else if c.etag.Some? then [] else [TrustDemoted]
    case Immutable =>
      if c.cacheControl.immutable && !c.cacheControl.ForbidsCaching() then [] else [TrustDemoted]
  }

  // ------------------------------------------------------------ the check

  datatype CheckReport = CheckReport(result: ProbeResult, reason: string, trace: Trace)

  /** An unresolved check reports an unknown and why. */
  function Undecided(u: Unresolved, trace: Trace): CheckReport {
    CheckReport(UnknownResult(u.retryable), u.reason, trace)
  }

  function Reported(r: Result<ProbeResult, Unresolved>, trace: Trace): CheckReport {
    match r
    case Ok(result) => CheckReport(result, "", trace)
    case Err(u) => Undecided(u, trace)
  }

  function AmbiguousTag(headers: Headers): Unresolved {
    GiveReason("ambiguous-etag distinct-fields=" + Decimal(|set tag | tag in headers.etags|), false)
  }

  /** Is the observed class weaker than the recorded one, by a response that has a
      validator? */
  predicate AnnouncesDemotion(plan: Plan, c: Classification) {
    c.HasValidator() && c.trustClass.IsDemotionFrom(plan.RecordedTrustClass())
  }

  /** The whole check of one dependency key. */
  method CheckDetailed(out: Outside, config: Config, key: string, recorded: Fingerprint) returns (report: CheckReport)
    ensures report == Checked(out, config, key, recorded)
  {
    hide FetchFrom, GateUrl, PlanFor, AmbiguousTag, Classify, ClassifyDiagnostics, DecideOk, DecideDiagnostics,
      DecideContentHash, Ambiguous;
    var trace := Trace([], 0, 0, [key], None, 0);
    var gated := GateUrl(out, config, key);
    match gated {
      case Err(u) => return Undecided(u, trace);
      case Ok(_) =>
    }
    var original := gated.value;
    if original.scheme == "http" {
      trace := trace.Diag(PlaintextTransport);
    }
    var planned := PlanFor(out, config, key, recorded);
    match planned {
      case Err(u) => return Undecided(u, trace);
      case Ok(_) =>
    }
    var plan := planned.value;
    var fetched, fetchTrace := Fetch(out, config, original, plan, trace);
    match fetched {
      case Err(u) => return Undecided(u, fetchTrace);
      case Ok(_) =>
    }
    var settled := fetched.value;
    trace := fetchTrace.(diagnostics := fetchTrace.diagnostics + ClassifyDiagnostics(settled.response.headers));
    if Ambiguous(settled.response.headers) {
      return Undecided(AmbiguousTag(settled.response.headers), trace);
    }
    var c := Classify(out, settled.response.headers);
    if settled.response.headers.contentType.Some? {
      trace := trace.Diag(RepresentationRecorded);
    }
    if AnnouncesDemotion(plan, c) {
      trace := trace.Diag(TrustDemoted);
    }
    match settled {
      case NotModified(_) => return CheckReport(DecideNotModified(recorded, plan, c), "", trace);
      case Representation(response) =>
        trace := trace.(diagnostics := trace.diagnostics + DecideDiagnostics(plan, c));
        var decided;
        if plan.ContentHashPlan? {
          var total;
          decided, total := StreamContentHash(out, config, plan.hash, c, response.body);
          trace := trace.(bodyBytes := total);
          assert decided
                 == DecideOk(out, config, plan, c,
                             response.body) by { HashPlanDecides(out, config, plan, c, response.body); }
        } else {
          decided := DecideOk(out, config, plan, c, response.body);
        }
        return Reported(decided, trace);
    }
  }

  lemma HashPlanDecides(out: Outside, config: Config, plan: Plan, c: Classification, body: Option<seq<BodyRead>>)
    requires plan.ContentHashPlan?
    ensures DecideOk(out, config, plan, c, body) == DecideContentHash(out, config, plan.hash, c, body)
  {
  }

  /** The report of a check, as a function of the configuration, the recorded fingerprint and
      everything outside. */
  function Checked(out: Outside, config: Config, key: string, recorded: Fingerprint): CheckReport {
    var start := Trace([], 0, 0, [key], None, 0);
    match GateUrl(out, config, key)
    case Err(u) => Undecided(u, start)
    case Ok(original) =>
      var gated := if original.scheme == "http" then start.Diag(PlaintextTransport) else start;
      match PlanFor(out, config, key, recorded)
      case Err(u) => Undecided(u, gated)
      case Ok(plan) => Concluded(out, config, recorded, plan,
                                 FetchFrom(out, config, original, plan, FetchStart(config, original, plan, gated)))
  }

  /** What is concluded from what fetching came to. */
  function Concluded(out: Outside, config: Config, recorded: Fingerprint, plan: Plan,
                     fetched: (Result<Settled, Unresolved>, Fetching))
    : CheckReport {
    var trace := fetched.1.trace;
    match fetched.0
    case Err(u) => Undecided(u, trace)
    case Ok(settled) =>
      var headers := settled.response.headers;
      var classified := trace.(diagnostics := trace.diagnostics + ClassifyDiagnostics(headers));
      if Ambiguous(headers) then Undecided(AmbiguousTag(headers), classified)
      else
        var c := Classify(out, headers);
        var noted := if headers.contentType.Some? then classified.Diag(RepresentationRecorded) else classified;
        var told := if AnnouncesDemotion(plan, c) then noted.Diag(TrustDemoted) else noted;
        match settled
        case NotModified(_) => CheckReport(DecideNotModified(recorded, plan, c), "", told)
        case Representation(response) =>
          Reported(DecideOk(out, config, plan, c, response.body),
                   told.(diagnostics := told.diagnostics + DecideDiagnostics(plan, c),
                         bodyBytes := if plan.ContentHashPlan? then ChargedBytes(config, response.body)
                           else told.bodyBytes))
  }
}

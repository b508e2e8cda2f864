/** Two answers of the `https` probe that its own promises rule out. */
module HttpsExamples {
  import opened Wrappers
  import opened Text
  import opened TrustClasses
  import opened Fingerprints
  import opened Dependencies
  import opened Edges
  import opened ETags
  import opened Https
  import opened Feedback

  const PAGE := "https://example.org/"

  /** A world in which every URL parses and the server always answers alike. */
  function Always(response: HttpResponse): Outside {
    Outside(text => Some(Url("https", Some("example.org"), None, text)), (base, location) => None, text => true,
            body => "", (n, request) => Ok(response))
  }

  function Defaults(): Config {
    Config(5, 1000, ContentHashFallback.Never, false, false)
  }

  lemma FirstAnswerSettles(response: HttpResponse, recorded: Fingerprint, plan: Plan)
    requires PlanFor(Always(response), Defaults(), PAGE, recorded) == Ok(plan)
    requires response.status == 304 || response.status == 200
    ensures var settled := if response.status == 304 then NotModified(response) else Representation(response);
            exists f: Fetching ::
              && f.trace == Trace([], 1, 0, [PAGE], None, 0)
              && Https.Checked(Always(response), Defaults(), PAGE, recorded)
                 == Concluded(Always(response), Defaults(), recorded, plan, (Ok(settled), f))
  {
    hide PlanFor, Concluded;
    var out, config := Always(response), Defaults();
    var original := Url("https", Some("example.org"), None, PAGE);
    assert GateUrl(out, config, PAGE) == Ok(original);
    var f := FetchStart(config, original, plan, Trace([], 0, 0, [PAGE], None, 0));
    assert Asked(f).trace == Trace([], 1, 0, [PAGE], None, 0);
  }

  // ----------------------------------------------------- a silent demotion

  /** The server says nothing changed, forbids storing the answer, and gives no validator. */
  function Unstorable(): HttpResponse {
    HttpResponse(304, Headers([], None, CacheControl(true, false, false), None, None, None), None)
  }

  lemma ParseStrong()
    ensures ParseETag("\"a\"") == Ok(ETag(false, "\"a\""))
  {
    var raw := "\"a\"";
    TrimmedAlready(raw);
    assert raw[0] == '"' && "W/"[0] == 'W' && "w/"[0] == 'w';
    assert SplitOnce(raw, '/').None? by {
      assert raw[1..] == "a\"" && raw[1..][1..] == "\"" && raw[1..][1..][1..] == "";
    }
  }

  /** A check that ends in a match weaker than the record, without a word about it. */
  lemma DemotionCanBeSilent()
    ensures var recorded := Fingerprint(Etag, "\"a\"");
            var report := Https.Checked(Always(Unstorable()), Defaults(), PAGE, recorded);
            && report.result == MatchResult(recorded, Volatile)
            && PlanFor(Always(Unstorable()), Defaults(), PAGE, recorded).Ok?
            && PlanFor(Always(Unstorable()), Defaults(), PAGE, recorded).value.RecordedTrustClass() == Versioned
            && report.trace.diagnostics == []
  {
    hide ParseETag, Https.Checked;
    var recorded := Fingerprint(Etag, "\"a\"");
    ParseStrong();
    FirstAnswerSettles(Unstorable(), recorded, IfNoneMatch("\"a\"", false));
  }

  // ------------------------------------------------------ a renamed match

  /** A weak tag, as the server spells it and as it was once recorded. */
  const SENT := "W/\"a\""
  const RECORDED := "w/\"a\""

  function Sending(): HttpResponse {
    HttpResponse(200, Headers([SENT], None, CacheControl(false, false, false), None, None, None), None)
  }

  lemma ParseWeak(raw: string)
    requires raw == SENT || raw == RECORDED
    ensures ParseETag(raw) == Ok(ETag(true, "\"a\""))
    ensures ETag(true, "\"a\"").Wire() == SENT
  {
    TrimmedAlready(raw);
    assert raw[2..] == "\"a\"";
    assert raw[..2] == "W/" || raw[..2] == "w/";
  }

  /** A match that replay takes for a change: the tag is the recorded one, reported in another
      spelling. */
  lemma MatchCanBeUnfaithful(dep: Dependency)
    requires dep.key == PAGE && dep.fingerprint == Fingerprint(Etag, RECORDED)
    ensures var report := Https.Checked(Always(Sending()), Defaults(), PAGE, dep.fingerprint);
            && report.result == MatchResult(Fingerprint(Etag, SENT), Heuristic)
            && !Faithful(report.result, dep)
  {
    hide ParseETag, Https.Checked, Faithful;
    ParseWeak(SENT);
    ParseWeak(RECORDED);
    FirstAnswerSettles(Sending(), dep.fingerprint, IfNoneMatch(SENT, true));
    assert Canonical(Fingerprint(Etag, SENT));
    FaithfulMeaning(Https.Checked(Always(Sending()), Defaults(), PAGE, dep.fingerprint).result, dep);
    assert SENT[0] != RECORDED[0];
  }
}

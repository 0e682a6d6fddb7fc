/**
 * The webhook intake handler: retry suppression, the URL-verification
 * handshake, and turning a chat message into at most one crawl-job start.
 * Each call is a pure function from the decoded request and the
 * configuration to the HTTP response and the effects it causes: the
 * messages posted and the job runs started.
 */
module IntakeHandler {
  import opened Wrappers
  import Text
  import UrlParse
  import Slack

  const RetryHeader := "X-Slack-Retry-Num"
  const UrlVerificationType := "url_verification"
  const EventCallbackType := "event_callback"
  const VerificationFailed := "verification failed"
  const InvalidUrlMessage := "Invalid URL"
  const AvoidRetry := "Avoid retry"
  const ValidRequest := "Valid request"
  const InvalidRequest := "Invalid request"
  const RootUrlArgument := "--root_url"
  const EventUserArgument := "--event_user"

  /** Settings fixed for the life of the process. */
  datatype Config = Config(verificationToken: string, channel: string, jobName: string)

  /** The channel and job name the deployed handler uses, around a verification token. */
  function DeployedConfig(verificationToken: string): Config
  {
    Config(verificationToken, "sitemap_generator", "sitemap-generator-tf")
  }

  /** The `event` object of a callback; a missing key is None. Only the presence of client_msg_id matters. */
  datatype SlackEvent = SlackEvent(clientMsgId: Option<string>, text: Option<string>, user: Option<string>)

  /** The decoded JSON body: `type`, `token`, `challenge`, `event`; a missing key is None. */
  datatype Payload = Payload(kind: Option<string>, token: Option<string>, challenge: Option<string>, event: Option<SlackEvent>)

  /** An inbound webhook call: its headers and its already decoded body. */
  datatype Request = Request(headers: map<string, string>, body: Payload)

  /** The value that json.dumps serializes: a plain string, or the object {"challenge": ...}. */
  datatype ReplyBody = Plain(message: string) | ChallengeReply(challenge: string)

  datatype Response = Response(isBase64Encoded: bool, statusCode: int, headers: map<string, string>, body: ReplyBody)

  /** One start_job_run call: the job name and its argument map. */
  datatype JobRun = JobRun(jobName: string, arguments: map<string, string>)

  /** What handling a request produces: the response, the messages posted and the jobs started. */
  datatype Outcome = Outcome(response: Response, posts: seq<Slack.Notification>, jobRuns: seq<JobRun>)

  /** What check_to_process_url produces: the root URL or None, and the messages it posted. */
  datatype UrlCheck = UrlCheck(rootUrl: Option<string>, posts: seq<Slack.Notification>)

  /** Every reply: status 200, a JSON content type, not base64-encoded. */
  function Reply(body: ReplyBody): Response
  {
    Response(false, 200, map["Content-Type" := "application/json"], body)
  }

  predicate IsAngle(c: char) { c == '<' || c == '>' }

  /**
   * text.strip("<>"): the angle brackets the chat platform puts around a
   * link. What is left neither starts nor ends with one, and text that
   * neither starts nor ends with one is left as it is.
   */
  function StripAngles(text: string): (r: string)
    ensures |r| <= |text|
    ensures r != [] ==> !IsAngle(r[0]) && !IsAngle(r[|r| - 1])
    ensures (forall k :: 0 <= k < |text| ==> IsAngle(text[k])) ==> r == []
    ensures text == [] || (!IsAngle(text[0]) && !IsAngle(text[|text| - 1])) ==> r == text
  {
    Text.Strip(text, IsAngle)
  }

  /**
   * verify: echo the challenge when the token is the configured one,
   * otherwise answer the fixed failure string. Only `token` is read, and
   * `challenge` only when the token matches.
   */
  function Verify(data: Payload, verificationToken: string): (reply: ReplyBody)
    requires data.token.Some?
    requires data.token.value == verificationToken ==> data.challenge.Some?
    ensures reply.ChallengeReply?
    ensures data.token.value == verificationToken ==> reply.challenge == data.challenge.value
    ensures data.token.value != verificationToken ==> reply.challenge == VerificationFailed
  {
    if data.token.value == verificationToken then ChallengeReply(data.challenge.value)
    else ChallengeReply(VerificationFailed)
  }

  /** The keys check_to_process_url reads: `text` when there is a client_msg_id. */
  predicate EventTextReadable(event: SlackEvent)
  {
    event.clientMsgId.Some? ==> event.text.Some?
  }

  /** The message carries a client_msg_id and its stripped text passes url_validator. */
  predicate CarriesValidUrl(event: SlackEvent)
    requires EventTextReadable(event)
  {
    event.clientMsgId.Some? && UrlParse.Validate(StripAngles(event.text.value))
  }

  /**
   * check_to_process_url: a message without a client_msg_id is ignored;
   * otherwise its text, stripped of angle brackets, becomes the root URL
   * scheme + "://" + netloc when it passes url_validator, and when it does
   * not, "Invalid URL" is posted and there is no root URL.
   */
  function CheckToProcessUrl(event: SlackEvent, channel: string): (r: UrlCheck)
    requires EventTextReadable(event)
    ensures event.clientMsgId.None? ==> r == UrlCheck(None, [])
    ensures r.rootUrl.Some? <==> CarriesValidUrl(event)
    ensures r.rootUrl.Some? ==> r.rootUrl.value == UrlParse.Normalize(StripAngles(event.text.value))
    ensures r.posts == if event.clientMsgId.Some? && r.rootUrl.None?
      then [Slack.Notification(channel, InvalidUrlMessage)] else []
  {
    if event.clientMsgId.None? then
      UrlCheck(None, [])
    else
      var url := StripAngles(event.text.value);
      if UrlParse.Validate(url) then
        UrlCheck(Some(UrlParse.Normalize(url)), [])
      else
        UrlCheck(None, Slack.PostMessage(channel, Some(InvalidUrlMessage)))
  }

  /**
   * A root URL that check_to_process_url returns is canonical: it passes
   * url_validator itself, normalizing it again changes nothing, it keeps
   * the scheme and netloc of the message's link, and it has no path, query
   * or fragment.
   */
  lemma RootUrlIsCanonical(event: SlackEvent, channel: string)
    requires EventTextReadable(event)
    requires CheckToProcessUrl(event, channel).rootUrl.Some?
    ensures var root := CheckToProcessUrl(event, channel).rootUrl.value;
      var link := UrlParse.Split(StripAngles(event.text.value)).value;
      UrlParse.Validate(root) && UrlParse.Normalize(root) == root
      && UrlParse.Split(root) == Ok(UrlParse.SplitResult(link.scheme, link.netloc, "", "", ""))
  {
    var url := StripAngles(event.text.value);
    UrlParse.NormalizeIsIdempotent(url);
  }

  /**
   * The keys lambda_handler reads on the path it takes; any other missing
   * key raises in the handler, so these are what it demands of its caller.
   */
  predicate Readable(req: Request, verificationToken: string)
  {
    RetryHeader !in req.headers ==>
      && req.body.kind.Some?
      && (req.body.kind.value == UrlVerificationType ==>
            req.body.token.Some?
            && (req.body.token.value == verificationToken ==> req.body.challenge.Some?))
      && (req.body.kind.value == EventCallbackType ==>
            req.body.event.Some? && EventTextReadable(req.body.event.value)
            && (CarriesValidUrl(req.body.event.value) ==> req.body.event.value.user.Some?))
  }

  /** The arguments of the crawl job: the root URL and the user who asked. */
  function JobArguments(rootUrl: string, user: string): (args: map<string, string>)
    ensures args.Keys == {RootUrlArgument, EventUserArgument}
    ensures args[RootUrlArgument] == rootUrl && args[EventUserArgument] == user
  {
    map[RootUrlArgument := rootUrl, EventUserArgument := user]
  }

  /**
   * lambda_handler: a redelivery (retry header present) is acknowledged and
   * nothing else happens; a handshake is answered by verify; a callback
   * starts one job for the root URL check_to_process_url found; anything
   * else is answered "Invalid request". The reply is always a 200 JSON reply.
   */
  function LambdaHandler(req: Request, cfg: Config): (out: Outcome)
    requires Readable(req, cfg.verificationToken)
    ensures out.response.statusCode == 200 && !out.response.isBase64Encoded
    ensures out.response.headers == map["Content-Type" := "application/json"]
    ensures RetryHeader in req.headers ==> out == Outcome(Reply(Plain(AvoidRetry)), [], [])
    ensures RetryHeader !in req.headers && req.body.kind == Some(UrlVerificationType) ==>
      out.response.body == Verify(req.body, cfg.verificationToken) && out.posts == [] && out.jobRuns == []
    ensures RetryHeader !in req.headers && req.body.kind == Some(EventCallbackType) ==>
      out.response.body == Plain(ValidRequest)
    ensures RetryHeader !in req.headers && req.body.kind.value !in {UrlVerificationType, EventCallbackType} ==>
      out == Outcome(Reply(Plain(InvalidRequest)), [], [])
    ensures |out.posts| + |out.jobRuns| <= 1
    ensures out.posts ==
      if RetryHeader !in req.headers && req.body.kind == Some(EventCallbackType)
        && req.body.event.value.clientMsgId.Some? && !CarriesValidUrl(req.body.event.value)
      then [Slack.Notification(cfg.channel, InvalidUrlMessage)] else []
    ensures out.jobRuns != [] <==>
      RetryHeader !in req.headers && req.body.kind == Some(EventCallbackType)
      && CarriesValidUrl(req.body.event.value)
    ensures out.jobRuns != [] ==>
      var event := req.body.event.value;
      out.jobRuns == [JobRun(cfg.jobName,
        JobArguments(UrlParse.Normalize(StripAngles(event.text.value)), event.user.value))]
  {
    if RetryHeader !in req.headers then
      var data := req.body;
      if data.kind.value == UrlVerificationType then
        Outcome(Reply(Verify(data, cfg.verificationToken)), [], [])
      else if data.kind.value == EventCallbackType then
        var event := data.event.value;
        var check := CheckToProcessUrl(event, cfg.channel);
        var jobRuns :=
          if check.rootUrl.Some? then
            [JobRun(cfg.jobName, JobArguments(check.rootUrl.value, event.user.value))]
          else [];
        Outcome(Reply(Plain(ValidRequest)), check.posts, jobRuns)
      else
        Outcome(Reply(Plain(InvalidRequest)), [], [])
    else
      Outcome(Reply(Plain(AvoidRetry)), [], [])
  }

  /** On a handshake the challenge is echoed exactly when the token matches (for any challenge but the failure string itself). */
  lemma VerifyEchoesOnlyOnMatch(data: Payload, verificationToken: string)
    requires data.token.Some? && data.challenge.Some? && data.challenge.value != VerificationFailed
    ensures Verify(data, verificationToken) == ChallengeReply(data.challenge.value)
      <==> data.token.value == verificationToken
  {
  }

  /** On a token mismatch the reply does not depend on the challenge at all. */
  lemma VerifyMismatchIgnoresChallenge(a: Payload, b: Payload, verificationToken: string)
    requires a.token.Some? && a.token == b.token && a.token.value != verificationToken
    ensures Verify(a, verificationToken) == Verify(b, verificationToken) == ChallengeReply(VerificationFailed)
  {
  }

  /** A redelivery is answered the same way whatever its payload, and has no effect. */
  lemma RetryIgnoresPayload(headers: map<string, string>, a: Payload, b: Payload, cfg: Config)
    requires RetryHeader in headers
    ensures LambdaHandler(Request(headers, a), cfg) == LambdaHandler(Request(headers, b), cfg)
    ensures LambdaHandler(Request(headers, a), cfg).posts == []
    ensures LambdaHandler(Request(headers, a), cfg).jobRuns == []
  {
  }

  /**
   * A callback whose text is an auto-linked URL `<scheme://authority rest>`
   * starts exactly one job, for the lower-cased scheme and the authority
   * alone, on behalf of the message's user, and posts nothing.
   */
  lemma AngleLinkStartsOneJob(req: Request, cfg: Config, s: string, n: string, rest: string)
    requires RetryHeader !in req.headers
    requires req.body.kind == Some(EventCallbackType) && req.body.event.Some?
    requires var e := req.body.event.value;
      e.clientMsgId.Some? && e.user.Some? && e.text == Some("<" + s + "://" + n + rest + ">")
    requires UrlParse.AuthorityParts(s, n, rest)
    requires forall k :: 0 <= k < |n| ==> !UrlParse.IsUnsafe(n[k])
    requires forall k :: 0 <= k < |rest| ==> !UrlParse.IsUnsafe(rest[k])
    requires var url := s + "://" + n + rest; !IsAngle(url[|url| - 1])
    ensures Readable(req, cfg.verificationToken)
    ensures LambdaHandler(req, cfg) == Outcome(Reply(Plain(ValidRequest)), [],
      [JobRun(cfg.jobName, JobArguments(UrlParse.Lower(s) + "://" + n, req.body.event.value.user.value))])
  {
    var url := s + "://" + n + rest;
    assert url[0] == s[0];
    assert "<" + s + "://" + n + rest + ">" == "<" + url + ">";
    Text.StripMiddle("<", url, ">", IsAngle);
    UrlParse.NormalizeDropsRest(url, s, n, rest);
  }

  /** The link "<https://example.com/a/b>" starts one job for "https://example.com". */
  lemma ExampleAngleLink(req: Request, cfg: Config)
    requires RetryHeader !in req.headers
    requires req.body.kind == Some(EventCallbackType) && req.body.event.Some?
    requires var e := req.body.event.value;
      e.clientMsgId.Some? && e.user.Some? && e.text == Some("<https://example.com/a/b>")
    ensures Readable(req, cfg.verificationToken)
    ensures LambdaHandler(req, cfg).jobRuns ==
      [JobRun(cfg.jobName, JobArguments("https://example.com", req.body.event.value.user.value))]
  {
    var event := req.body.event.value;
    ExampleAngleText(event.text.value);
    UrlParse.ExampleWithPath();
    assert CarriesValidUrl(event);
  }

  lemma ExampleAngleText(text: string)
    requires text == "<https://example.com/a/b>"
    ensures StripAngles(text) == "https://example.com/a/b"
  {
    var url := "https://example.com/a/b";
    assert text == "<" + url + ">";
    Text.StripMiddle("<", url, ">", IsAngle);
  }
}

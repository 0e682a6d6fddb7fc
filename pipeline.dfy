/**
 * How the two halves meet: the intake starts the crawl job with a root URL
 * argument, and the worker names its artifact after that root's netloc.
 */
module Pipeline {
  import opened Wrappers
  import UrlParse
  import IntakeHandler
  import CrawlWorker

  /**
   * A job the intake starts carries a root URL the worker can parse, so
   * `process` does not raise on it; its artifact is named after the netloc
   * (userinfo and port included) of the link in the message, and the job
   * acts for the message's user.
   */
  lemma DispatchedJobIsProcessable(req: IntakeHandler.Request, cfg: IntakeHandler.Config)
    requires IntakeHandler.Readable(req, cfg.verificationToken)
    requires IntakeHandler.LambdaHandler(req, cfg).jobRuns != []
    ensures var run := IntakeHandler.LambdaHandler(req, cfg).jobRuns[0];
      var event := req.body.event.value;
      var link := UrlParse.Split(IntakeHandler.StripAngles(event.text.value)).value;
      var root := run.arguments[IntakeHandler.RootUrlArgument];
      UrlParse.Split(root).Ok?
      && CrawlWorker.OutFileName(root) == CrawlWorker.ArtifactName(link.netloc)
      && run.arguments[IntakeHandler.EventUserArgument] == event.user.value
  {
    var event := req.body.event.value;
    assert IntakeHandler.CheckToProcessUrl(event, cfg.channel).rootUrl.Some?;
    IntakeHandler.RootUrlIsCanonical(event, cfg.channel);
  }

  /** Messages whose links differ in netloc give jobs whose artifacts never collide in the bucket. */
  lemma DistinctNetlocsDistinctKeys(a: string, b: string)
    requires UrlParse.Split(a).Ok? && UrlParse.Split(b).Ok?
    requires UrlParse.Split(a).value.netloc != UrlParse.Split(b).value.netloc
    ensures CrawlWorker.S3Key(CrawlWorker.OutFileName(a)) != CrawlWorker.S3Key(CrawlWorker.OutFileName(b))
  {
    CrawlWorker.ArtifactKeyInjective(UrlParse.Split(a).value.netloc, UrlParse.Split(b).value.netloc);
  }

  /**
   * The deployed halves fit together: the worker reports to the channel
   * the intake posts to, and with the deployed region every object link
   * it posts is one the intake accepts, on the regional S3 endpoint
   * ("s3.ap-northeast-1.amazonaws.com", by DeployedRegionIsPlainHost).
   */
  lemma DeployedHalvesAgree(verificationToken: string, bucket: string, key: string)
    requires forall k :: 0 <= k < |bucket| ==> !UrlParse.IsUnsafe(bucket[k])
    requires forall k :: 0 <= k < |key| ==> !UrlParse.IsUnsafe(key[k])
    ensures IntakeHandler.DeployedConfig(verificationToken).channel == CrawlWorker.DeployedChannel
    ensures var link := CrawlWorker.S3Url(CrawlWorker.DeployedRegion, bucket, key);
      UrlParse.Validate(link) && UrlParse.Normalize(link) == "https://" + CrawlWorker.S3Host(CrawlWorker.DeployedRegion)
  {
    CrawlWorker.DeployedRegionIsPlainHost();
    CrawlWorker.S3UrlIsOnRegionalHost(CrawlWorker.DeployedRegion, bucket, key);
  }
}

/**
 * The crawl worker (the Glue job's `process`): it names the sitemap artifact
 * after the root URL's netloc, crawls into that local file, uploads it to
 * the sitemap folder of the bucket, removes the local copy once the upload
 * went through, and posts one report to the channel, which it also returns.
 */
module CrawlWorker {
  import opened Wrappers
  import Text
  import UrlParse
  import Slack

  const ArtifactSuffix := ".sitemap.xml"
  const SitemapFolder := "sitemap/"
  const UploadErrorMessage := "Error uploading file"

  /** The pieces of the success report around the mention, the link and the crawl time. */
  const MentionOpen := "<@"
  const MentionClose := "> "
  const TimeLabel := "\n Crawler time: "
  const TimeUnit := " seconds"

  /** The channel and region the job is deployed with. */
  const DeployedChannel := "sitemap_generator"
  const DeployedRegion := "ap-northeast-1"

  /** Name of the local sitemap file: the netloc followed by ".sitemap.xml". */
  function ArtifactName(netloc: string): (name: string)
    ensures |name| == |netloc| + |ArtifactSuffix|
    ensures name[..|netloc|] == netloc && name[|netloc|..] == ArtifactSuffix
  {
    netloc + ArtifactSuffix
  }

  /**
   * The artifact name for a root URL, from its parsed netloc: a plain file
   * name (no '/', so it lands in the working directory) ending in ".sitemap.xml".
   */
  function OutFileName(rootUrl: string): (name: string)
    requires UrlParse.Split(rootUrl).Ok?
    ensures forall k :: 0 <= k < |name| ==> name[k] != '/'
    ensures |name| >= |ArtifactSuffix| && name[|name| - |ArtifactSuffix|..] == ArtifactSuffix
  {
    var netloc := UrlParse.Split(rootUrl).value.netloc;
    PlainName(netloc);
    ArtifactName(netloc)
  }

  lemma PlainName(netloc: string)
    requires UrlParse.HasNoDelimiter(netloc)
    ensures forall k :: 0 <= k < |ArtifactName(netloc)| ==> ArtifactName(netloc)[k] != '/'
  {
    var name := ArtifactName(netloc);
    forall k | 0 <= k < |name| ensures name[k] != '/' {
      if k < |netloc| {
        assert name[k] == netloc[k] && !UrlParse.IsNetlocDelimiter(netloc[k]);
      } else {
        assert name[k] == ArtifactSuffix[k - |netloc|];
      }
    }
  }

  /** Object key of an artifact: it sits in the "sitemap/" folder under its own name. */
  function S3Key(name: string): (key: string)
    ensures |key| == |SitemapFolder| + |name|
    ensures key[..|SitemapFolder|] == SitemapFolder && key[|SitemapFolder|..] == name
  {
    SitemapFolder + name
  }

  /** The public URL of an object in a bucket of a region: an https link that ends with the key. */
  function S3Url(region: string, bucket: string, key: string): (url: string)
    ensures |url| >= 8 && url[..8] == "https://"
    ensures |url| > |key| && url[|url| - |key|..] == key
  {
    "https://" + S3Host(region) + "/" + bucket + "/" + key
  }

  /** The regional S3 endpoint host. */
  function S3Host(region: string): string
  {
    "s3." + region + ".amazonaws.com"
  }

  /**
   * The report after an upload: it starts with a mention of the user and
   * the link, and ends with the crawl time in seconds.
   */
  function SuccessMessage(user: string, link: string, crawlerTime: string): (msg: string)
    ensures var head := MentionOpen + user + MentionClose + link;
      |msg| > |head| && msg[..|head|] == head
    ensures |msg| >= |TimeUnit| && msg[|msg| - |TimeUnit|..] == TimeUnit
  {
    MentionOpen + user + MentionClose + link + TimeLabel + crawlerTime + TimeUnit
  }

  /** What a reader of the channel takes from a success report. */
  datatype Report = Report(user: string, link: string, crawlerTime: string)

  predicate IsCloseAngle(c: char) { c == '>' }

  predicate IsLineFeed(c: char) { c == '\n' }

  /**
   * Reads a success report back: the user up to the first '>', the link up
   * to the first line feed, and the time between the label and the unit.
   * Anything else is not a report.
   */
  function ReadReport(msg: string): (r: Option<Report>)
    ensures r.Some? ==> |msg| >= |MentionOpen| && msg[..|MentionOpen|] == MentionOpen
  {
    if |msg| < 2 || msg[..2] != MentionOpen then None
    else
      var a := msg[2..];
      var i := Text.IndexWhere(a, IsCloseAngle);
      if i + 2 > |a| || a[i..i + 2] != MentionClose then None
      else
        var b := a[i + 2..];
        var j := Text.IndexWhere(b, IsLineFeed);
        var c := b[j..];
        if |c| < |TimeLabel| + |TimeUnit| || c[..|TimeLabel|] != TimeLabel || c[|c| - |TimeUnit|..] != TimeUnit then None
        else Some(Report(a[..i], b[..j], c[|TimeLabel|..|c| - |TimeUnit|]))
  }

  /**
   * A success report gives back the user, the link and the time it was
   * built from, provided the user id holds no '>' and the link no line feed.
   */
  lemma ReportRoundTrip(user: string, link: string, crawlerTime: string)
    requires forall k :: 0 <= k < |user| ==> !IsCloseAngle(user[k])
    requires forall k :: 0 <= k < |link| ==> !IsLineFeed(link[k])
    ensures ReadReport(SuccessMessage(user, link, crawlerTime)) == Some(Report(user, link, crawlerTime))
  {
    var tail := TimeLabel + crawlerTime + TimeUnit;
    var b := link + tail;
    var a := user + (MentionClose + b);
    var msg := SuccessMessage(user, link, crawlerTime);
    MessageShape(user, link, crawlerTime, tail, b, a);
    MentionSplits(msg, a);
    Text.IndexWhereAfterPrefix(user, MentionClose + b, IsCloseAngle);
    CloseSplits(a, user, b);
    Text.IndexWhereAfterPrefix(link, tail, IsLineFeed);
    TimeSplits(b, link, tail, crawlerTime);
  }

  /*
   * The steps of the round trip, each in a context of its own: the message
   * regrouped around what follows "<@", then the cuts after "<@", after the
   * user's "> ", and around the time.
   */

  lemma MessageShape(user: string, link: string, crawlerTime: string, tail: string, b: string, a: string)
    requires tail == TimeLabel + crawlerTime + TimeUnit && b == link + tail && a == user + (MentionClose + b)
    ensures SuccessMessage(user, link, crawlerTime) == MentionOpen + a
  {
    var head := MentionOpen + user + MentionClose + link;
    calc {
      SuccessMessage(user, link, crawlerTime);
      head + TimeLabel + crawlerTime + TimeUnit;
      { assert head + TimeLabel + crawlerTime + TimeUnit == head + (TimeLabel + crawlerTime + TimeUnit); }
      head + tail;
      { assert MentionOpen + user + MentionClose + link + tail == MentionOpen + user + MentionClose + (link + tail); }
      MentionOpen + user + MentionClose + b;
      { assert MentionOpen + user + MentionClose + b == MentionOpen + user + (MentionClose + b); }
      MentionOpen + user + (MentionClose + b);
      { assert MentionOpen + user + (MentionClose + b) == MentionOpen + (user + (MentionClose + b)); }
      MentionOpen + a;
    }
  }

  lemma MentionSplits(msg: string, a: string)
    requires msg == MentionOpen + a
    ensures |msg| >= 2 && msg[..2] == MentionOpen && msg[2..] == a
  {
  }

  lemma CloseSplits(a: string, user: string, b: string)
    requires a == user + (MentionClose + b)
    ensures |user| + 2 <= |a| && a[|user|..|user| + 2] == MentionClose
    ensures a[..|user|] == user && a[|user| + 2..] == b
  {
  }

  lemma TimeSplits(b: string, link: string, tail: string, crawlerTime: string)
    requires b == link + tail && tail == TimeLabel + crawlerTime + TimeUnit
    ensures b[..|link|] == link && b[|link|..] == tail
    ensures |tail| >= |TimeLabel| + |TimeUnit|
    ensures tail[..|TimeLabel|] == TimeLabel && tail[|tail| - |TimeUnit|..] == TimeUnit
    ensures tail[|TimeLabel|..|tail| - |TimeUnit|] == crawlerTime
  {
  }

  /** The upload-error message is not a success report. */
  lemma ErrorIsNoReport()
    ensures ReadReport(UploadErrorMessage) == None
  {
    assert UploadErrorMessage[..2] != MentionOpen by {
      assert UploadErrorMessage[0] == 'E';
    }
  }

  /** Distinct netlocs never share an artifact name or an object key. */
  lemma ArtifactKeyInjective(n1: string, n2: string)
    ensures S3Key(ArtifactName(n1)) == S3Key(ArtifactName(n2)) <==> n1 == n2
  {
    if S3Key(ArtifactName(n1)) == S3Key(ArtifactName(n2)) {
      var k1, k2 := S3Key(ArtifactName(n1)), S3Key(ArtifactName(n2));
      assert ArtifactName(n1) == k1[|SitemapFolder|..] == k2[|SitemapFolder|..] == ArtifactName(n2);
      assert n1 == ArtifactName(n1)[..|n1|] == ArtifactName(n2)[..|n2|] == n2;
    }
  }

  /**
   * The link of a report is itself a URL the intake accepts: https on the
   * regional endpoint host, whatever the bucket and key, when the region is
   * a plain host label.
   */
  lemma S3UrlIsOnRegionalHost(region: string, bucket: string, key: string)
    requires UrlParse.HasNoDelimiter(region) && !UrlParse.UnbalancedBrackets(region)
    requires forall k :: 0 <= k < |region| ==> !UrlParse.IsUnsafe(region[k])
    requires forall k :: 0 <= k < |bucket| ==> !UrlParse.IsUnsafe(bucket[k])
    requires forall k :: 0 <= k < |key| ==> !UrlParse.IsUnsafe(key[k])
    ensures UrlParse.Validate(S3Url(region, bucket, key))
    ensures UrlParse.Normalize(S3Url(region, bucket, key)) == "https://" + S3Host(region)
  {
    var s, n, rest := "https", S3Host(region), "/" + bucket + "/" + key;
    var url := S3Url(region, bucket, key);
    S3UrlForm(region, bucket, key, s, n, rest);
    UrlParse.HttpsIsLowerSchemeName(s);
    HostIsNetloc(region, n);
    CleanParts(region, bucket, key, n, rest);
    UrlParse.NormalizeDropsRest(url, s, n, rest);
  }

  lemma S3UrlForm(region: string, bucket: string, key: string, s: string, n: string, rest: string)
    requires s == "https" && n == S3Host(region) && rest == "/" + bucket + "/" + key
    ensures S3Url(region, bucket, key) == s + "://" + n + rest
    ensures s + "://" + n == "https://" + S3Host(region)
  {
  }

  lemma HostIsNetloc(region: string, n: string)
    requires n == S3Host(region)
    requires UrlParse.HasNoDelimiter(region) && !UrlParse.UnbalancedBrackets(region)
    ensures n != [] && UrlParse.HasNoDelimiter(n) && !UrlParse.UnbalancedBrackets(n)
  {
    var pre, post := "s3.", ".amazonaws.com";
    assert n == pre + region + post;
    forall k | 0 <= k < |n| ensures !UrlParse.IsNetlocDelimiter(n[k]) {
      if k < |pre| {
        assert n[k] == pre[k];
      } else if k < |pre| + |region| {
        assert n[k] == region[k - |pre|];
      } else {
        assert n[k] == post[k - |pre| - |region|];
      }
    }
    assert '[' in n ==> '[' in region by {
      if '[' in n {
        var k :| 0 <= k < |n| && n[k] == '[';
        assert k >= |pre| && k < |pre| + |region| && n[k] == region[k - |pre|];
      }
    }
    assert ']' in n ==> ']' in region by {
      if ']' in n {
        var k :| 0 <= k < |n| && n[k] == ']';
        assert k >= |pre| && k < |pre| + |region| && n[k] == region[k - |pre|];
      }
    }
    assert '[' in region ==> '[' in n by {
      if '[' in region {
        var k :| 0 <= k < |region| && region[k] == '[';
        assert n[|pre| + k] == region[k];
      }
    }
    assert ']' in region ==> ']' in n by {
      if ']' in region {
        var k :| 0 <= k < |region| && region[k] == ']';
        assert n[|pre| + k] == region[k];
      }
    }
  }

  lemma CleanParts(region: string, bucket: string, key: string, n: string, rest: string)
    requires n == S3Host(region) && rest == "/" + bucket + "/" + key
    requires forall k :: 0 <= k < |region| ==> !UrlParse.IsUnsafe(region[k])
    requires forall k :: 0 <= k < |bucket| ==> !UrlParse.IsUnsafe(bucket[k])
    requires forall k :: 0 <= k < |key| ==> !UrlParse.IsUnsafe(key[k])
    ensures forall k :: 0 <= k < |n| ==> !UrlParse.IsUnsafe(n[k])
    ensures forall k :: 0 <= k < |rest| ==> !UrlParse.IsUnsafe(rest[k])
    ensures rest != [] && UrlParse.IsNetlocDelimiter(rest[0])
  {
    var pre, post := "s3.", ".amazonaws.com";
    assert n == pre + region + post;
    forall k | 0 <= k < |n| ensures !UrlParse.IsUnsafe(n[k]) {
      if k < |pre| {
        assert n[k] == pre[k];
      } else if k < |pre| + |region| {
        assert n[k] == region[k - |pre|];
      } else {
        assert n[k] == post[k - |pre| - |region|];
      }
    }
    forall k | 0 <= k < |rest| ensures !UrlParse.IsUnsafe(rest[k]) {
      if k == 0 {
      } else if k < 1 + |bucket| {
        assert rest[k] == bucket[k - 1];
      } else if k == 1 + |bucket| {
      } else {
        assert rest[k] == key[k - 2 - |bucket|];
      }
    }
  }

  /**
   * The report `process` posts after an upload reads back as the mention of
   * the requesting user, the link of the uploaded object (on the regional
   * host, which the intake itself would accept) and the crawl time, given a
   * user id without '>' and a region and bucket that are plain names.
   */
  lemma UploadReportReadsBack(rootUrl: string, user: string, crawlerTime: string, region: string, bucket: string)
    requires UrlParse.Split(rootUrl).Ok?
    requires forall k :: 0 <= k < |user| ==> !IsCloseAngle(user[k])
    requires UrlParse.HasNoDelimiter(region) && !UrlParse.UnbalancedBrackets(region)
    requires forall k :: 0 <= k < |region| ==> !UrlParse.IsUnsafe(region[k])
    requires forall k :: 0 <= k < |bucket| ==> !UrlParse.IsUnsafe(bucket[k])
    ensures var link := S3Url(region, bucket, S3Key(OutFileName(rootUrl)));
      ReadReport(SuccessMessage(user, link, crawlerTime)) == Some(Report(user, link, crawlerTime))
      && UrlParse.Validate(link) && UrlParse.Normalize(link) == "https://" + S3Host(region)
  {
    var netloc := UrlParse.Split(rootUrl).value.netloc;
    var key := S3Key(ArtifactName(netloc));
    KeyIsClean(netloc, key);
    S3UrlIsOnRegionalHost(region, bucket, key);
    var link := S3Url(region, bucket, key);
    LinkIsOneLine(region, bucket, key, link);
    ReportRoundTrip(user, link, crawlerTime);
  }

  lemma KeyIsClean(netloc: string, key: string)
    requires forall k :: 0 <= k < |netloc| ==> !UrlParse.IsUnsafe(netloc[k])
    requires key == S3Key(ArtifactName(netloc))
    ensures forall k :: 0 <= k < |key| ==> !UrlParse.IsUnsafe(key[k])
  {
    var pre := SitemapFolder;
    assert key == pre + netloc + ArtifactSuffix;
    forall k | 0 <= k < |key| ensures !UrlParse.IsUnsafe(key[k]) {
      if k < |pre| {
        assert key[k] == pre[k];
      } else if k < |pre| + |netloc| {
        assert key[k] == netloc[k - |pre|];
      } else {
        assert key[k] == ArtifactSuffix[k - |pre| - |netloc|];
      }
    }
  }

  lemma LinkIsOneLine(region: string, bucket: string, key: string, link: string)
    requires link == S3Url(region, bucket, key)
    requires forall k :: 0 <= k < |region| ==> !UrlParse.IsUnsafe(region[k])
    requires forall k :: 0 <= k < |bucket| ==> !UrlParse.IsUnsafe(bucket[k])
    requires forall k :: 0 <= k < |key| ==> !UrlParse.IsUnsafe(key[k])
    ensures forall k :: 0 <= k < |link| ==> !IsLineFeed(link[k])
  {
    var s, n, rest := "https", S3Host(region), "/" + bucket + "/" + key;
    S3UrlForm(region, bucket, key, s, n, rest);
    CleanParts(region, bucket, key, n, rest);
    var head := s + "://";
    assert link == head + n + rest;
    forall k | 0 <= k < |link| ensures !IsLineFeed(link[k]) {
      if k < |head| {
        assert link[k] == head[k];
      } else if k < |head| + |n| {
        assert link[k] == n[k - |head|];
      } else {
        assert link[k] == rest[k - |head| - |n|];
      }
    }
  }

  /** The deployed region is a plain host label, so S3UrlIsOnRegionalHost applies to it. */
  lemma DeployedRegionIsPlainHost()
    ensures UrlParse.HasNoDelimiter(DeployedRegion) && !UrlParse.UnbalancedBrackets(DeployedRegion)
    ensures forall k :: 0 <= k < |DeployedRegion| ==> !UrlParse.IsUnsafe(DeployedRegion[k])
    ensures S3Host(DeployedRegion) == "s3.ap-northeast-1.amazonaws.com"
  {
  }

  /**
   * How `upload_file` ends: the object is stored, it raises the ClientError
   * that `process` catches, or it raises anything else, which `process`
   * does not catch.
   */
  datatype UploadOutcome = Uploaded | ClientFailure | Raised

  /**
   * The Glue job's state: the files on its local disk, the object keys in
   * its bucket and the messages it has posted to its channel.
   */
  class Worker {
    const channel: string
    const bucket: string
    const region: string
    var localFiles: set<string>
    var stored: set<string>
    var posted: seq<Slack.Notification>

    constructor (channel: string, bucket: string, region: string)
      ensures this.channel == channel && this.bucket == bucket && this.region == region
      ensures localFiles == {} && stored == {} && posted == []
    {
      this.channel := channel;
      this.bucket := bucket;
      this.region := region;
      localFiles := {};
      stored := {};
      posted := [];
    }

    /** The crawler writes the sitemap of the root URL to the named local file. */
    method Crawl(rootUrl: string, outFile: string)
      modifies this
      ensures localFiles == old(localFiles) + {outFile}
      ensures stored == old(stored) && posted == old(posted)
    {
      localFiles := localFiles + {outFile};
    }

    /** upload_file: the key is stored only when the upload goes through. */
    method UploadFile(file: string, key: string, outcome: UploadOutcome) returns (result: UploadOutcome)
      requires file in localFiles
      modifies this
      ensures result == outcome
      ensures stored == if outcome == Uploaded then old(stored) + {key} else old(stored)
      ensures localFiles == old(localFiles) && posted == old(posted)
    {
      if outcome == Uploaded {
        stored := stored + {key};
      }
      result := outcome;
    }

    /** os.remove of a file that exists. */
    method RemoveLocal(file: string)
      requires file in localFiles
      modifies this
      ensures localFiles == old(localFiles) - {file}
      ensures stored == old(stored) && posted == old(posted)
    {
      localFiles := localFiles - {file};
    }

    /** post_message: a message is posted to the worker's channel; None posts nothing. */
    method PostMessage(msg: Option<string>)
      modifies this
      ensures posted == old(posted) + Slack.PostMessage(channel, msg)
      ensures localFiles == old(localFiles) && stored == old(stored)
    {
      posted := posted + Slack.PostMessage(channel, msg);
    }

    /**
     * process: crawl the root URL into "<netloc>.sitemap.xml", upload it
     * as "sitemap/<netloc>.sitemap.xml", remove the local file only when
     * the upload succeeded, and post and return either the report with the
     * object's link or, on a ClientError, the upload-error message. Any
     * other upload error propagates: nothing is posted or returned (None)
     * and the local file stays.
     */
    method Process(rootUrl: string, eventUser: string, crawlerTime: string, upload: UploadOutcome)
      returns (msg: Option<string>)
      requires UrlParse.Split(rootUrl).Ok?
      modifies this
      ensures var key := S3Key(OutFileName(rootUrl));
        msg == match upload
          case Uploaded => Some(SuccessMessage(eventUser, S3Url(region, bucket, key), crawlerTime))
          case ClientFailure => Some(UploadErrorMessage)
          case Raised => None
      ensures localFiles ==
        if upload == Uploaded then old(localFiles) - {OutFileName(rootUrl)} else old(localFiles) + {OutFileName(rootUrl)}
      ensures stored == if upload == Uploaded then old(stored) + {S3Key(OutFileName(rootUrl))} else old(stored)
      ensures posted == old(posted) + if msg.Some? then [Slack.Notification(channel, msg.value)] else []
    {
      var outFileName := ArtifactName(UrlParse.Split(rootUrl).value.netloc);
      Crawl(rootUrl, outFileName);
      var s3Key := S3Key(outFileName);
      var result := UploadFile(outFileName, s3Key, upload);
      if result == Raised {
        return None;
      }
      var postMsg;
      if result == Uploaded {
        RemoveLocal(outFileName);
        postMsg := SuccessMessage(eventUser, S3Url(region, bucket, s3Key), crawlerTime);
      } else {
        postMsg := UploadErrorMessage;
      }
      PostMessage(Some(postMsg));
      msg := Some(postMsg);
    }
  }
}

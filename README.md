# Slack-to-Glue sitemap generator, modelled in Dafny

The system turns a Slack message that holds a link into an XML sitemap. It
has two halves.

- **The webhook intake** is an AWS Lambda handler. It receives Slack's
  Events API calls and drops platform retries (the `X-Slack-Retry-Num`
  header). It answers the `url_verification` handshake by echoing the
  challenge when the verification token matches. For an `event_callback`
  whose event carries a `client_msg_id` (a message a person typed), it
  strips `<`/`>` from the message text. If the text is then a URL with a
  scheme and a non-empty netloc, it starts the Glue job `sitemap-generator-tf` with
  `--root_url scheme://netloc` (the whole netloc, userinfo and port kept)
  and `--event_user`. Otherwise it posts
  "Invalid URL" to the channel. An event without `client_msg_id` is
  acknowledged and nothing else happens. Every reply is a 200 JSON response.
- **The crawl worker** is the Glue job's `process`. It crawls the root URL
  into `<netloc>.sitemap.xml` and uploads that file as
  `sitemap/<netloc>.sitemap.xml`. It removes the local file once the upload
  went through. It posts, and returns, either a report that mentions the
  user and links the object at `https://s3.<region>.amazonaws.com/<bucket>/<key>`,
  or, when the upload raises a `ClientError`, "Error uploading file". Any
  other exception from the upload ends the job without a post.

Files:

- `wrappers.dfy`: Option and Result.
- `text.dfy`: Python's `str.strip`/`lstrip`, deletion of characters, `find`
  and `split(c, 1)`.
- `url_parse.dfy`: `urlparse` as the `urlsplit` of CPython 3.12 does it,
  reduced to section 3 of RFC 3986 (scheme, authority, path/query/fragment).
  The rules followed are those of 3.12: leading C0 controls and spaces are
  stripped, tab, CR and LF are deleted, and a scheme must start with an
  ASCII letter. Older runtimes split some inputs differently (before 3.9,
  for instance, `http:` and a scheme followed by a port number were special
  cases). It also holds `url_validator` and the scheme-plus-netloc
  normalization.
- `slack.dfy`: the None guard of `post_message`. It is shared by both
  halves.
- `intake_handler.dfy`: `verify`, `check_to_process_url` and
  `lambda_handler`. They are pure functions from the decoded request and
  the configuration to the response plus the effects it asks for (posted
  messages, job starts).
- `crawl_worker.dfy`: the naming and message functions of `process`, and
  a `Worker` class. The class holds the local files, the stored object
  keys and the posted messages, which `Process` changes step by step.
- `pipeline.dfy`: how a job the intake starts meets the worker.

## Model

| member | source | states |
|---|---|---|
| IntakeHandler.Verify | lambda_function/sitemap_generator_lambda.py:15-22 | The reply is always a challenge reply. It carries the payload's challenge when the token equals the configured token, and "verification failed" otherwise. |
| IntakeHandler.VerifyEchoesOnlyOnMatch | lambda_function/sitemap_generator_lambda.py:15-22 | The challenge is echoed if and only if the token matches, for any challenge other than "verification failed". |
| IntakeHandler.VerifyMismatchIgnoresChallenge | lambda_function/sitemap_generator_lambda.py:17-20 | On a token mismatch two payloads get the same "verification failed" reply, whatever their challenges. The challenge is never echoed. |
| UrlParse.Split | lambda_function/sitemap_generator_lambda.py:28 | `urlparse`: a successful split has a scheme that is empty or a lower-case scheme name, and a netloc without tab, CR, LF or `/?#` and with balanced brackets. Unbalanced brackets are the ValueError, modelled as an error result. |
| UrlParse.Validate | lambda_function/sitemap_generator_lambda.py:25-31 | `url_validator`: true exactly when the split succeeds with a non-empty scheme and a non-empty netloc; a split error gives false. An accepted scheme is a scheme name. ValidateMeansAuthority characterises the accepted texts independently. |
| UrlParse.ValidateMeansAuthority | lambda_function/sitemap_generator_lambda.py:25-31 | `url_validator` holds exactly for text that, after urlsplit's clean-up, is `scheme "://" authority rest`. The scheme is a scheme name, the authority is non-empty without `/?#` and with balanced brackets, and the rest is empty or starts with a delimiter. Unbalanced brackets (the ValueError) give false. |
| UrlParse.ExampleNotAUrl | lambda_function/sitemap_generator_lambda.py:25-31 | "not a url" has no scheme, so it is rejected. |
| UrlParse.Normalize | lambda_function/sitemap_generator_lambda.py:57 | The root `scheme + "://" + netloc` passes `url_validator` itself and splits back into the same scheme and netloc, with empty path, query and fragment. |
| UrlParse.NormalizeIsIdempotent | lambda_function/sitemap_generator_lambda.py:57 | Normalizing a root URL again gives the same string. |
| UrlParse.NormalizeDropsRest | lambda_function/sitemap_generator_lambda.py:56-57 | Any `scheme "://" authority rest` with no tab, CR or LF in it passes the check and normalizes to the lower-cased scheme, "://" and the authority. The path, query and fragment are dropped. (Tab, CR and LF would be deleted by urlsplit first, so they are excluded here.) |
| UrlParse.ExampleWithPath | lambda_function/sitemap_generator_lambda.py:56-57 | "https://example.com/a/b" normalizes to "https://example.com". |
| UrlParse.ExampleKeepsUserinfoAndPort | lambda_function/sitemap_generator_lambda.py:56-57 | "https://u:pw@example.com:8443/x" normalizes to "https://u:pw@example.com:8443": userinfo and port stay in the root. |
| IntakeHandler.StripAngles | lambda_function/sitemap_generator_lambda.py:54 | `strip("<>")`: the result is no longer than the text, neither starts nor ends with `<` or `>`, is empty for text made only of them, and is the text itself when the text neither starts nor ends with one. |
| Text.StripMiddle | lambda_function/sitemap_generator_lambda.py:54 | `strip("<>")` of text wrapped in runs of `<`/`>` returns the inner text, provided the inner text neither starts nor ends with one. |
| Text.RemoveWhereAppend | lambda_function/sitemap_generator_lambda.py:28 | The deletion of tab, CR and LF that `urlsplit` performs works character by character: deleting from a concatenation is deleting from each part, so the kept characters stay in order. |
| Text.StripIdempotent | lambda_function/sitemap_generator_lambda.py:54 | Stripping twice is the same as stripping once. |
| Slack.PostMessage | lambda_function/sitemap_generator_lambda.py:34-45 | A message posts exactly one notification with that text to the channel. None posts nothing. |
| IntakeHandler.CheckToProcessUrl | lambda_function/sitemap_generator_lambda.py:48-61 | Without `client_msg_id` there is no root URL and no post. Otherwise there is a root URL exactly when the stripped text validates, and the root is its normalization. "Invalid URL" is posted exactly when there is a `client_msg_id` but no root URL. |
| IntakeHandler.RootUrlIsCanonical | lambda_function/sitemap_generator_lambda.py:56-57 | A returned root URL validates and is its own normalization. It splits into the link's scheme and netloc with nothing after them. |
| IntakeHandler.JobArguments | lambda_function/sitemap_generator_lambda.py:82 | The job arguments have exactly the keys `--root_url` and `--event_user`, holding the root URL and the user. |
| IntakeHandler.LambdaHandler | lambda_function/sitemap_generator_lambda.py:64-95 | Every response is status 200, `Content-Type: application/json` and not base64. With the retry header the body is "Avoid retry" and nothing is posted or started. A handshake is answered by `verify` with no effect. A callback is always answered "Valid request". Any other type is answered "Invalid request" with no effect. There is at most one effect. "Invalid URL" is posted exactly for a callback with `client_msg_id` whose text does not validate. A job starts if and only if the request is not a retry, is an `event_callback` whose event has a `client_msg_id`, and its stripped text carries a valid URL. A message without `client_msg_id` (a bot message, say) starts no job even when it holds a valid URL. The job is then the configured job, with the normalized root and the event user. |
| IntakeHandler.RetryIgnoresPayload | lambda_function/sitemap_generator_lambda.py:68-86 | With the retry header, the outcome is the same for every payload and has no posts and no job starts. |
| IntakeHandler.AngleLinkStartsOneJob | lambda_function/sitemap_generator_lambda.py:52-82 | A callback with `client_msg_id` whose text is `<scheme://authority rest>` answers "Valid request" and posts nothing. It starts one job for the lower-cased scheme plus the authority, on behalf of the message's user. This holds when the authority and rest contain no tab, CR or LF (urlsplit would delete them) and the link does not end in `<` or `>` (`strip("<>")` would remove it). |
| IntakeHandler.ExampleAngleLink | lambda_function/sitemap_generator_lambda.py:54-82 | The text "<https://example.com/a/b>" starts one job whose root URL is "https://example.com". |
| CrawlWorker.ArtifactName | sitemap_generator_glue.py:37 | The file name is the netloc followed by ".sitemap.xml". |
| CrawlWorker.OutFileName | sitemap_generator_glue.py:37 | The output file of a parsable root URL is a plain file name (no `/`, so it lands in the working directory) that ends in ".sitemap.xml". |
| CrawlWorker.S3Key | sitemap_generator_glue.py:44 | The key is "sitemap/" followed by the file name. |
| CrawlWorker.ArtifactKeyInjective | sitemap_generator_glue.py:37-44 | Two netlocs give the same object key if and only if they are equal. |
| CrawlWorker.S3Url | sitemap_generator_glue.py:49 | The object link is an `https://` link that ends with the object key. |
| CrawlWorker.SuccessMessage | sitemap_generator_glue.py:49 | The success message starts with `<@user> ` and the link, and ends with " seconds". |
| CrawlWorker.S3UrlIsOnRegionalHost | sitemap_generator_glue.py:49 | The object link passes the intake's own URL check and normalizes to `https://s3.<region>.amazonaws.com`, whatever the bucket and key, for a plain region name. |
| CrawlWorker.ReportRoundTrip | sitemap_generator_glue.py:49 | The success message `<@user> link\n Crawler time: t seconds` reads back as that user, link and time, for a user id without `>` and a link without a line feed. |
| CrawlWorker.ErrorIsNoReport | sitemap_generator_glue.py:50-51 | "Error uploading file" never reads as a success report. |
| CrawlWorker.DeployedRegionIsPlainHost | sitemap_generator_glue.py:18 | The deployed region "ap-northeast-1" is a plain host label, and its endpoint is "s3.ap-northeast-1.amazonaws.com". |
| CrawlWorker.UploadReportReadsBack | sitemap_generator_glue.py:37-49 | For any root URL the worker accepts, the success report reads back as the requesting user, the link of the uploaded key `sitemap/<netloc>.sitemap.xml` and the time, and that link passes the intake's URL check and normalizes to the regional endpoint. This holds for a user id without `>`, a plain region name (no `/?#`, no tab, CR or LF, balanced brackets) and a bucket name without tab, CR or LF. |
| CrawlWorker.Worker.constructor | sitemap_generator_glue.py:13-18 | A worker starts with its channel, bucket and region, no local files, no stored objects and no posts. |
| CrawlWorker.Worker.Crawl | sitemap_generator_glue.py:40 | The crawl adds the output file to the local files and changes nothing else. |
| CrawlWorker.Worker.UploadFile | sitemap_generator_glue.py:47 | The upload reports one of three outcomes: stored, a `ClientError`, or another exception. Only a successful upload stores the key. Local files and posts are unchanged. |
| CrawlWorker.Worker.RemoveLocal | sitemap_generator_glue.py:48 | Exactly the given file leaves the local files. |
| CrawlWorker.Worker.PostMessage | sitemap_generator_glue.py:21-32 | The posts grow by one notification to the worker's channel for a message, and by nothing for None. |
| CrawlWorker.Worker.Process | sitemap_generator_glue.py:35-55 | After an upload, the returned message is the success report linking `https://s3.<region>.amazonaws.com/<bucket>/sitemap/<netloc>.sitemap.xml`. On a `ClientError` it is exactly "Error uploading file". On any other upload exception the run raises: nothing is returned (None) and nothing is posted. The local file is removed only after a successful upload and is left in place otherwise. The key is stored only on success. When a message is returned, exactly that one message is posted. |
| Pipeline.DispatchedJobIsProcessable | sitemap_generator_glue.py:35-37 | Every job the intake starts has a root URL the worker can parse. Its artifact is named after the netloc of the link in the message (userinfo and port kept), and the job acts for that message's user. |
| Pipeline.DistinctNetlocsDistinctKeys | sitemap_generator_glue.py:37-44 | Root URLs with different netlocs never write the same object key. |
| Pipeline.DeployedHalvesAgree | sitemap_generator_glue.py:14-18 | With the repository's settings, the worker reports to the channel the intake posts to ("sitemap_generator"). Every object link in the deployed region passes the intake's URL check and normalizes to the regional endpoint. |

## Left out

- The Slack client, including the swallowing of `SlackApiError`. A post is modelled as an appended notification that always goes out.
- The boto3 calls to Glue (`start_job_run`) and S3 (`upload_file`). A job start is an emitted effect. The upload outcome is an input (`UploadOutcome`): stored, a `ClientError`, or another exception (for example a connection or credential error, or the `S3UploadFailedError` boto3 raises for a failed transfer), which `process` does not catch.
- Exceptions from `start_job_run`, `os.remove` or the crawler. The code does not catch them, so they end the run. The model covers only the paths on which these calls complete.
- `json.loads`/`json.dumps` and the Lambda event envelope. The body is taken already decoded. JSON values are modelled as strings. The keys the handler reads without a check are preconditions (`IntakeHandler.Readable`), because a missing key raises in the code.
- The crawler itself (`pysitemap.crawler`). It is modelled as creating the output file.
- Crawl timing with `datetime` and its `{:.2f}` formatting. The elapsed time is an opaque string parameter.
- `getResolvedOptions`, the `__main__` block and the hard-coded tokens. The verification token, channel, job name, bucket and region are configuration. `DeployedConfig`, `DeployedChannel` and `DeployedRegion` hold the repository's values.
- These parts of `urlsplit`:
  - the validation of a bracketed (IPv6) host;
  - the NFKC check on the netloc;
  - the split of `;params` off the path (params stay inside the path).
- The root URL is not reduced to scheme and host. It keeps the whole netloc, userinfo and port included, because the code builds it from `netloc` (`lambda_function/sitemap_generator_lambda.py` line 57) and names the file after `netloc` (`sitemap_generator_glue.py` line 37). Credentials typed into a link therefore reach the job arguments, the local file name, the object key and the posted link.
- Python's `find` returning -1 is modelled as "index = length".
- CrawlWorker.Worker.Process: requires that `urlparse(root_url)` succeeds. When it does not, the code raises before doing anything. `Pipeline.DispatchedJobIsProcessable` shows that every root the intake dispatches meets this requirement.
- CrawlWorker.Worker.UploadFile: requires that the local file exists. A missing file raises something other than `ClientError`, which the code does not catch.
- Two things one might expect of the pipeline, which the code does not do and so the model does not either:
  - One might expect the local sitemap file to be cleaned up whatever the upload outcome. The code removes it only after a successful upload, so after any upload error it stays on disk.
  - One might expect a failed job dispatch to be reported to the user. The code does not catch a `start_job_run` failure, so the handler raises and nothing is posted.

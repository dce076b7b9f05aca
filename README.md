# Video stream pipeline — a Dafny model

This project models the transcode pipeline of the video-stream application and the request
handling around it.

- **The transcode engine** (`Hls`): the fixed four-rung resolution ladder and `convertToHLSFormat`.
  - It checks the input and creates the rung folders.
  - It runs one encode per rung. The outcome is a parameter.
  - It writes the HTTP Live Streaming master playlist only when every rung succeeded.
  - The local disk is a class whose file map and directory set the conversion updates.
- **The transcoder container** (`TranscodeJob`): the script that
  - reads `TEMP_VIDEO_KEY` and `S3_OUTPUT_PATH`,
  - downloads the source from the temporary bucket,
  - converts it,
  - pushes the output folder to the permanent bucket,
  - deletes the source.

  The two buckets are a class. Every storage call may fail, and that failure is a parameter.
- **The job consumer** (`JobConsumer`, with `UriComponent` for `decodeURIComponent`): one round of `pollQueue`.
  - It receives at most one message.
  - It skips messages with no body or with a body that is not JSON.
  - It runs `handleS3Event`, which decodes every record's key.
  - It deletes the message from the queue.
- **The task dispatcher** (`TaskDispatcher`): `RunTask(outputPath, videoKey)`.
  - It builds the Fargate RunTask request for the `videoTranscoder` container.
  - It fails unless the service answers with a task ARN.
- **The route guard** (`RouteGuard`): the frontend middleware. From the path and the session cookies it decides whether a page request goes through or is redirected.
- **Request validation** (`Schema`, `VideoController`, `UserValidation`): the zod object schemas, modelled as data with a `SafeParse` that reports issues in field order.
  - The upload endpoint is built on them. It names the object `<timestamp>_<fileName>` and answers with a pre-signed URL.
  - The sign-in and sign-up schemas are built on them too.
- **The auth handlers** (`AuthHandler`):
  - The sign-up cascade, each check with its own message, and the user collection it appends to.
  - The sign-in guard.

Shared helpers:

- `Wrappers`: `Option` and `Result`.
- `Text`: decimal numerals, zero padding, line splitting, ASCII lower-casing and UTF-16 length.
- `JsValue`: JavaScript values and property access that throws on `null`/`undefined`.

Where the code and the documented design of the system differ, the model follows the code:

- **The job consumer never calls the task dispatcher.** The loop body only logs the decoded keys (`worker/src/queues/encription-queue-1.ts:91`).
- **The job consumer deletes every message whose body parses as JSON.** This includes JSON without a `Records` array, which `handleS3Event` merely logs as "not a valid S3 event". The design says such messages are left on the queue (`JobConsumer.JsonWithoutRecordsIsAcknowledged`).
- **A message whose JSON is `null` makes `handleS3Event` throw.** The throw ends the whole round without deleting anything (`JobConsumer.NullJobAbortsRound`).
- **A second delivery of a finished job does not re-publish.** The source object is already deleted, so the download fails and nothing changes (`TranscodeJob.SecondDeliveryIsHarmless`).
- **`/blog/new` is treated as a blog post.** The comment above the blog pattern in `frontend/src/middleware.ts:7` says it is excluded, but the regular expression matches it (`RouteGuard.BlogNewIsASlug`).
- **Sign-in does not apply the sign-in schema.** It only checks that both fields are non-empty (`AuthHandler.SignInSkipsSchema`).

## Model

| member | source | states |
|---|---|---|
| Hls.BuildMasterPlaylist | container/utils/ffmpeg.ts:66-73 | the text built line by line is the master playlist of the ladder: header, then descriptor and URI per rung |
| Hls.MasterLinesShape | container/utils/ffmpeg.ts:67-73 | the master has 1 + 2N lines: `#EXTM3U` first, rung k's stream descriptor at 2k+1 and its URI `<name>/index.m3u8` at 2k+2 |
| Hls.RungLinesShape | container/utils/ffmpeg.ts:69-73 | the per-rung part has two lines per rung, in ladder order |
| Hls.MasterTextLines | container/utils/ffmpeg.ts:67-73 | splitting the written text at newlines gives back exactly the master's lines (every line newline-terminated) |
| Hls.MasterIsWellFormed | container/utils/ffmpeg.ts:67-73 | the master starts with `#EXTM3U` and every `#EXT-X-STREAM-INF` line is followed by a URI line that is not a tag (sections 4.3.1.1 and 4.3.4.2 of RFC 8216) |
| Hls.Descriptor720p | container/utils/ffmpeg.ts:6 | the 720p descriptor line is exactly `#EXT-X-STREAM-INF:BANDWIDTH=3000000,RESOLUTION=1280x720` |
| Hls.Descriptor480p | container/utils/ffmpeg.ts:7 | the 480p descriptor line is exactly `#EXT-X-STREAM-INF:BANDWIDTH=1600000,RESOLUTION=854x480` |
| Hls.Descriptor360p | container/utils/ffmpeg.ts:8 | the 360p descriptor line is exactly `#EXT-X-STREAM-INF:BANDWIDTH=800000,RESOLUTION=640x360` |
| Hls.Descriptor144p | container/utils/ffmpeg.ts:9 | the 144p descriptor line is exactly `#EXT-X-STREAM-INF:BANDWIDTH=400000,RESOLUTION=256x144` |
| Hls.LadderLines | container/utils/ffmpeg.ts:5-10 | the master of the fixed ladder lists 720p, 480p, 360p, 144p in that order |
| Hls.LadderMasterLines | container/utils/ffmpeg.ts:67-73 | the fixed ladder's master is well formed and its written text splits back into its lines |
| Hls.LadderMasterText | container/utils/ffmpeg.ts:67-73 | the fixed ladder's master.m3u8 is exactly `#EXTM3U`, then each rung's descriptor and `<name>/index.m3u8`, from 720p down to 144p |
| Hls.IsMp4Characterization | container/utils/ffmpeg.ts:19-22 | the input is accepted iff its last path component is longer than 4 characters and ends in `.mp4` ignoring case (Node's `extname` rule) |
| Hls.UpperCaseExtensionAccepted | container/utils/ffmpeg.ts:19 | `A.MP4` is accepted: the extension is lower-cased before comparison |
| Hls.OtherContainerRejected | container/utils/ffmpeg.ts:20-22 | `a.mov` is refused |
| Hls.DotFileRejected | container/utils/ffmpeg.ts:19-22 | `.mp4` has no extension, so it is refused |
| Hls.DirectoryExtensionIgnored | container/utils/ffmpeg.ts:19-22 | `in.mp4/a` is refused: only the last component's extension counts |
| Hls.TrailingSlashIgnored | container/utils/ffmpeg.ts:19 | `in/a.mp4/` is accepted: trailing slashes are dropped before the extension is taken |
| Hls.SegmentNameRoundTrip | container/utils/ffmpeg.ts:47-48 | the segment name `segment_%03d.ts` of index i reads back as i |
| Hls.SegmentNamesDistinct | container/utils/ffmpeg.ts:47-48 | different segment indices get different file names |
| Hls.JoinInjective | container/utils/ffmpeg.ts:30-35 | joining one folder with different names gives different paths |
| Hls.LocalDisk.MakeDir | container/utils/ffmpeg.ts:24-26 | adds one directory and changes no file |
| Hls.LocalDisk.WriteFile | container/utils/ffmpeg.ts:75 | sets one file's content and changes no directory |
| Hls.LocalDisk.Convert | container/utils/ffmpeg.ts:12-82 | the new disk and the result are those of the conversion specification for the old disk |
| Hls.ConvertChecksInput | container/utils/ffmpeg.ts:15-22 | a missing input changes nothing and reports the path; a non-MP4 input changes nothing and fails |
| Hls.SegmentFilesContent | container/utils/ffmpeg.ts:47-48 | segment j of a rung is stored under `segment_<j>.ts` with its own content |
| Hls.RungFilesLayout | container/utils/ffmpeg.ts:30-35 | an encoded rung writes exactly its `index.m3u8` and its numbered segments in its own folder |
| Hls.MasterIsNoRungFile | container/utils/ffmpeg.ts:35-66 | the master path never collides with a rung playlist or segment |
| Hls.LadderFilesAvoidMaster | container/utils/ffmpeg.ts:28-66 | no rung output overwrites the master playlist |
| Hls.ConvertAllOrNothing | container/utils/ffmpeg.ts:63-82 | conversion succeeds iff the input exists, is an MP4 and every rung encodes; on failure the master is left as it was |
| Hls.ConvertWritesMaster | container/utils/ffmpeg.ts:66-75 | on success the master file holds the ladder's master playlist |
| Hls.ConvertMasterDeterministic | container/utils/ffmpeg.ts:66-75 | two successful conversions into one folder write the same master, whatever the input and the encodes |
| Hls.ConvertWritesRungs | container/utils/ffmpeg.ts:28-61 | once every encode has ended, a rung that encoded has its folder, its playlist and all its segments on disk, even when another rung failed |
| Hls.ConvertIdempotent | container/utils/ffmpeg.ts:24-33 | converting again on the resulting disk gives the same disk and result |
| TranscodeJob.ConvertReadsDownload | container/index.ts:22-26 | the path handed to the converter is the path the download wrote |
| TranscodeJob.ObjectKeyInjective | container/index.ts:32 | different files under the output folder get different object keys |
| TranscodeJob.UploadedFile | container/index.ts:31-32 | a file at `<folder>/<rel>` is published as `<prefix>/<rel>` with its content |
| TranscodeJob.Buckets.Download | container/index.ts:24 | returns the object's content iff the key is in the temporary bucket and the call does not fail |
| TranscodeJob.Buckets.UploadFolder | container/index.ts:32 | on success adds every file under the folder to the permanent bucket; otherwise changes nothing |
| TranscodeJob.Buckets.Delete | container/index.ts:34 | on success removes the key from the temporary bucket only |
| TranscodeJob.Publish | container/index.ts:32-34 | pushes and then deletes, with the state and log of the job specification's last two steps |
| TranscodeJob.RunJob | container/index.ts:10-40 | buckets, disk, step log, error and exit code are those of the job specification |
| TranscodeJob.MissingEnvAbortsFirst | container/index.ts:14-17 | without a key or an output path nothing is touched and the job stops with an error |
| TranscodeJob.StepsInOrder | container/index.ts:24-39 | completed steps are a prefix of fetch, convert, push, delete; no error iff all four ran; the exit code is always 0 |
| TranscodeJob.SourceDeletedOnlyAfterPush | container/index.ts:32-34 | the source is removed only by a job that pushed and finished; a failed job leaves it in place |
| TranscodeJob.PermanentChangesOnlyByPush | container/index.ts:32 | the permanent bucket changes only by the push, which never removes an object |
| TranscodeJob.RungFailurePublishesNothing | container/index.ts:30-39 | if any rung fails, neither bucket changes and the job reports an error |
| TranscodeJob.PushPublishesMaster | container/index.ts:30-32 | after a successful conversion the upload holds `<prefix>/master.m3u8` with the master playlist |
| TranscodeJob.PushPublishesRungs | container/index.ts:30-32 | after a successful conversion the upload holds every rung's `<prefix>/<rung>/index.m3u8` |
| TranscodeJob.CompletedJobPublishesStream | container/index.ts:24-35 | a job that finishes leaves the master and every rung playlist in the permanent bucket |
| TranscodeJob.SecondDeliveryIsHarmless | container/index.ts:24-34 | re-running a finished job fails at the download and changes neither bucket |
| JobConsumer.LoadQueueConfig | worker/src/queues/encription-queue-1.ts:10-17 | loading succeeds iff region, both keys and the queue URL are set and non-empty |
| JobConsumer.DecodeRecord | worker/src/queues/encription-queue-1.ts:88-90 | a record decodes only if its key is a string whose `+`-to-space and percent decoding succeeds, giving that key, and its bucket name converts to a string; a bad escape is reported only for a string key that fails to decode |
| JobConsumer.DecodeRecordCharacterization | worker/src/queues/encription-queue-1.ts:88-90 | a record decodes iff its bucket is readable, its key is a string that decodes and its bucket name converts to a string; the result is that name and that decoded key |
| JobConsumer.UnprintableNameThrows | worker/src/queues/encription-queue-1.ts:90 | for every key that decodes, a bucket name that is an object with its own `toString` key (for instance `{toString: 0}`) makes the log line throw |
| JobConsumer.UnprintableNameAbortsRound | worker/src/queues/encription-queue-1.ts:52-90 | a first message whose record has such a bucket name ends the round with nothing logged and nothing deleted |
| JobConsumer.DecodeS3Record | worker/src/queues/encription-queue-1.ts:88-89 | the record S3 writes for a key (form-URL-encoded) decodes back to that key |
| JobConsumer.DecodeRecordExample | worker/src/queues/encription-queue-1.ts:89 | `a+b%2Bc` decodes to `a b+c`: `+` is a space, `%2B` a plus |
| UriComponent.DecodeKeyRoundTrip | worker/src/queues/encription-queue-1.ts:89 | decoding inverts form-URL encoding for every key |
| UriComponent.DecodeWithoutEscapes | worker/src/queues/encription-queue-1.ts:89 | text without `%` decodes to itself |
| UriComponent.MalformedEscapeThrows | worker/src/queues/encription-queue-1.ts:89 | a `%` not followed by two hex digits throws URIError |
| UriComponent.IllFormedUtf8Throws | worker/src/queues/encription-queue-1.ts:89 | overlong, surrogate, truncated and stray-continuation UTF-8 escapes throw URIError |
| UriComponent.Utf8RoundTrip | worker/src/queues/encription-queue-1.ts:89 | decoding the UTF-8 encoding of a character gives that character |
| JobConsumer.RecordsInOrder | worker/src/queues/encription-queue-1.ts:87-92 | records are decoded in order; the log holds one entry per record before the first that throws, and it throws iff some record fails |
| JobConsumer.HandleS3Event | worker/src/queues/encription-queue-1.ts:81-93 | the outcome and the logged records are those of the event specification |
| JobConsumer.RecordsThrowSticky | worker/src/queues/encription-queue-1.ts:87-89 | once a record throws, later records change nothing |
| JobConsumer.NoRecordsNoWork | worker/src/queues/encription-queue-1.ts:82-85 | an object without a `Records` array is not an S3 event and logs nothing |
| JobConsumer.PollRound | worker/src/queues/encription-queue-1.ts:34-69 | indices whose delete was tried, handles deleted, log and abort flag are those of the round specification |
| JobConsumer.BatchAbortSticky | worker/src/queues/encription-queue-1.ts:52-69 | a throw in `handleS3Event` ends the round: later messages are neither handled nor deleted |
| JobConsumer.AttemptedCharacterization | worker/src/queues/encription-queue-1.ts:40-66 | a delete is tried for message i iff no earlier message crashed and message i's body parses and is handled; the round aborts iff some message crashes |
| JobConsumer.AttemptedBelow | worker/src/queues/encription-queue-1.ts:40 | only indices of received messages are attempted |
| JobConsumer.AckedCharacterization | worker/src/queues/encription-queue-1.ts:55-65 | a handle is deleted iff its message was attempted, has a handle and its delete succeeded |
| JobConsumer.SkippedMessages | worker/src/queues/encription-queue-1.ts:41-51 | a message without a body or with invalid JSON is skipped and stays on the queue |
| JobConsumer.JsonWithoutRecordsIsAcknowledged | worker/src/queues/encription-queue-1.ts:52-62 | a JSON object without `Records` is still deleted from the queue |
| JobConsumer.NullJobAbortsRound | worker/src/queues/encription-queue-1.ts:52-69 | a body of `null` throws and ends the round with nothing deleted |
| JobConsumer.RoundSizes | worker/src/queues/encription-queue-1.ts:40-66 | handles deleted ≤ deletes tried ≤ messages received |
| JobConsumer.AtMostOneAckPerRound | worker/src/queues/encription-queue-1.ts:28-32 | with at most one message per receive, a round deletes at most one message |
| TaskDispatcher.LoadDispatcherConfig | worker/src/ecs/inex.ts:7-16 | loading succeeds iff the task region and both keys are set; the two ARNs are passed through unchecked |
| TaskDispatcher.BuildRunTask | worker/src/ecs/inex.ts:28-50 | a FARGATE task with a public IP, the configured definition and cluster, networking `ENABLED` with the three configured subnets and the configured security group, one `videoTranscoder` override seeing the key, the output path and region `eu-north-1` |
| TaskDispatcher.EnvironmentIsExact | worker/src/ecs/inex.ts:42-46 | the container gets exactly `TEMP_VIDEO_KEY`, `S3_OUTPUT_PATH`, `AWS_REGION`, in that order |
| TaskDispatcher.ArgumentOrderMatters | worker/src/ecs/inex.ts:24-44 | swapping two different arguments changes the request: the first parameter is the output path |
| TaskDispatcher.EcsClient.RunTask | worker/src/ecs/inex.ts:24-58 | an empty argument sends nothing and fails; otherwise exactly one request is sent, and the call succeeds iff the answer names a started task |
| RouteGuard.BlogSlugCharacterization | frontend/src/middleware.ts:8 | a path matches the blog pattern iff it is `/blog/` followed by a non-empty slug without `/` |
| RouteGuard.BlogPostIsPublic | frontend/src/middleware.ts:22-27 | `/blog/hello` is a public page |
| RouteGuard.BlogIndexIsNotASlug | frontend/src/middleware.ts:8 | `/blog` and `/blog/` are not blog posts |
| RouteGuard.NestedBlogPathIsNotASlug | frontend/src/middleware.ts:8 | `/blog/a/b` is not a blog post |
| RouteGuard.BlogNewIsASlug | frontend/src/middleware.ts:7-8 | `/blog/new` is a blog post, whatever the comment says |
| RouteGuard.FeedSubpathsAreProtected | frontend/src/middleware.ts:11-19 | every path starting with `/feed` or `/upload` is protected |
| RouteGuard.FeedbackIsProtected | frontend/src/middleware.ts:17-19 | `/feedback` is protected: the test is a prefix test |
| RouteGuard.PublicAndProtectedDisjoint | frontend/src/middleware.ts:6-27 | no public page is protected, and no blog post is on the public list |
| RouteGuard.Middleware | frontend/src/middleware.ts:29-66 | a redirect goes to `/feed` with a session and to `/sign-in` without; a callback, when present, is the requested URL |
| RouteGuard.SignedInDecision | frontend/src/middleware.ts:37-51 | with a session a page is served iff it is a blog post or protected |
| RouteGuard.SignedOutDecision | frontend/src/middleware.ts:52-65 | without a session a page is served iff it is public; a redirect carries the callback URL iff the page is protected |
| RouteGuard.ProtectedNeedsSession | frontend/src/middleware.ts:53-58 | a protected page is served only with a session |
| RouteGuard.SignedInSkipsAuthPages | frontend/src/middleware.ts:38-41 | with a session `/sign-in` and `/sign-up` redirect to `/feed` |
| RouteGuard.NoRedirectLoop | frontend/src/middleware.ts:40-64 | following a redirect with the same cookies reaches a page that is served |
| RouteGuard.EitherCookieIsASession | frontend/src/middleware.ts:33-35 | either cookie alone is a session; an empty value is not |
| Schema.CheckField | backend/src/controller/videoController.ts:6-10 | a field has no issue iff it has the right type and passes its checks; a type error is exactly one issue; every issue is at the field's path |
| Schema.CheckShapeMeaning | backend/src/controller/videoController.ts:6-10 | the object's fields have no issue iff every field is valid, and no type error iff every field is typed |
| Schema.SafeParseAccepts | backend/src/controller/videoController.ts:15 | parsing succeeds iff the input is an object whose fields are valid and whose refinement holds |
| Schema.SafeParse | backend/src/controller/videoController.ts:15 | a rejection lists at least one issue; an accepted object keeps exactly the declared keys present in the input, with their values (unknown keys are stripped) |
| Schema.FirstIssueIsFirstFailure | frontend/src/utils/handlers/Auth.handler.ts:27-30 | the first issue belongs to the first field, in declaration order, that is not valid |
| Schema.SafeParseFirstIssue | frontend/src/utils/handlers/Auth.handler.ts:27-30 | when some field is invalid, the first issue of the parse is that field's first issue |
| Schema.RefinementPlacement | frontend/src/utils/validation/userValidation.ts:27-30 | the refinement's issue comes after all field issues and only when no field has a type error |
| Schema.NonObjectRejected | backend/src/controller/videoController.ts:15 | a non-object input gives one issue at the root: `Required` for undefined, `Expected object, received <type>` otherwise |
| VideoController.UploadSchemaAccepts | backend/src/controller/videoController.ts:6-10 | a body is accepted iff it has a non-empty string name and type and a number size of at most 25 MiB |
| VideoController.KeyNameRoundTrip | backend/src/controller/videoController.ts:29 | the key `<timestamp>_<fileName>` splits back into the timestamp and the file name |
| VideoController.KeyNameInjective | backend/src/controller/videoController.ts:29 | two uploads share a key only with the same timestamp and file name |
| VideoController.UploadVideo | backend/src/controller/videoController.ts:12-53 | the answer is 400, 200 or 500; `success` and `data` are present iff the status is 200 |
| VideoController.UploadVideoOutcome | backend/src/controller/videoController.ts:15-44 | 400 iff the body is invalid; a valid body gets 200 iff the URL is signed for the temporary bucket, the key and the declared type, and the answer carries that URL and key |
| VideoController.RejectionListsIssues | backend/src/controller/videoController.ts:17-24 | a rejected body gets every issue's message joined with `, ` |
| VideoController.OversizeRejected | backend/src/controller/videoController.ts:8-24 | an over-size file with a name and a type gets 400 with the size message alone |
| VideoController.SizeBoundInclusive | backend/src/controller/videoController.ts:8 | every size up to and including 25 MiB passes, and there is no lower bound |
| VideoController.MissingBodyRejected | backend/src/controller/videoController.ts:15-24 | a request whose body is undefined gets 400 `Required` |
| VideoController.EmptyBodyRejected | backend/src/controller/videoController.ts:15-24 | an empty object gets `Required, Required, Required` |
| VideoController.GetVideos | backend/src/controller/videoController.ts:55-71 | status 200 but `success` false, with no data and a fixed message |
| UserValidation.SignInAccepts | frontend/src/utils/validation/userValidation.ts:3-10 | the sign-in schema accepts iff the email passes the email rule and the password has at least 6 UTF-16 units |
| UserValidation.SignUpAccepts | frontend/src/utils/validation/userValidation.ts:12-30 | the sign-up schema accepts iff name ≥ 2, email valid, both passwords ≥ 6, and the passwords are equal |
| UserValidation.AcceptedPasswordsMatch | frontend/src/utils/validation/userValidation.ts:27 | an accepted sign-up has equal passwords |
| UserValidation.MismatchReportedLast | frontend/src/utils/validation/userValidation.ts:27-30 | with every field a string and different passwords, the last issue is `Passwords do not match` at `confirmPassword` |
| UserValidation.SignUpFirstIssue | frontend/src/utils/validation/userValidation.ts:12-25 | with equal passwords, the first message is the name's, then the email's, then the password's |
| UserValidation.MissingConfirmPassword | frontend/src/utils/validation/userValidation.ts:23-30 | a missing confirmation gives exactly one issue, `Confirm Password is required`, and skips the refinement |
| AuthHandler.ValidateSignUp | frontend/src/utils/handlers/Auth.handler.ts:11-30 | a sign-up that passes every check carries the submitted name, email and password, and the confirmation equals the password |
| AuthHandler.MissingFieldFirst | frontend/src/utils/handlers/Auth.handler.ts:17-19 | `All fields are required` is answered iff some field is absent or empty |
| AuthHandler.MismatchBeforeSchema | frontend/src/utils/handlers/Auth.handler.ts:22-24 | with all fields filled, `Passwords do not match` is answered iff the two passwords differ |
| AuthHandler.SchemaDecidesTheRest | frontend/src/utils/handlers/Auth.handler.ts:27-30 | past those checks the sign-up passes iff name ≥ 2, email valid and password ≥ 6, and the error is the first failing rule's message |
| AuthHandler.FallbackMessageUnused | frontend/src/utils/handlers/Auth.handler.ts:29 | `Invalid signup input` is never answered |
| AuthHandler.ValidatedMeansAccepted | frontend/src/utils/handlers/Auth.handler.ts:27-30 | a sign-up that passes the checks is accepted by the sign-up schema |
| AuthHandler.SignUpAddsOneUser | frontend/src/utils/handlers/Auth.handler.ts:34-51 | a sign-up succeeds iff it validates, the email is new and the store creates it; then exactly one user with the hashed password is added, otherwise none |
| AuthHandler.DuplicateEmailRefused | frontend/src/utils/handlers/Auth.handler.ts:34-37 | a registered email is refused and adds nobody |
| AuthHandler.SignUpKeepsEmailsUnique | frontend/src/utils/handlers/Auth.handler.ts:34-45 | if stored emails are unique before a sign-up, they are unique after it |
| AuthHandler.UserTable.FindOne | frontend/src/utils/handlers/Auth.handler.ts:34 | finds a user iff the email is registered |
| AuthHandler.UserTable.Create | frontend/src/utils/handlers/Auth.handler.ts:41-48 | appends the record iff the store creates it |
| AuthHandler.UserTable.HandleSignUp | frontend/src/utils/handlers/Auth.handler.ts:9-52 | the stored users and the answer are those of the sign-up specification |
| AuthHandler.HandleSignIn | frontend/src/utils/handlers/Auth.handler.ts:53-66 | throws `Email and password are required` iff either field is absent or empty; otherwise signs in with the credentials provider and redirects to `/feed` |
| AuthHandler.SignInSkipsSchema | frontend/src/utils/handlers/Auth.handler.ts:58-66 | a one-character password, shorter than the sign-in schema's minimum of 6, is still handed to the provider |

## Left out

- Video encoding itself (codecs, scaling, segment duration): each rung's encode is a parameter that either yields a playlist and segments or fails.
- Parallelism of the rung encodes under `Promise.all`: the model creates every rung folder and writes every successful rung's files, in ladder order. A failed encode writes no partial files. The disk the model gives a failed conversion is the one after every encode has ended. The source rejects at the first failed encode while the others may still be writing, and the container then exits (`container/index.ts:36-38`), so the rungs still running at that moment may leave fewer or partial files.
- `path.join` is `dir + "/" + name`, without normalising `..`, `.` or repeated slashes. `__dirname` is the `root` parameter.
- Hls.IsMp4: lower-cases ASCII letters only. The full Unicode case mapping of `toLowerCase` is not modelled.
- `container/utils/s3utils` is not part of this model.
  - Download, folder upload and delete are modelled as one atomic call each, which succeeds or fails.
  - A file `<folder>/<rel>` is uploaded as `<prefix>/<rel>`.
  - A partly completed folder upload is not modelled.
- `process.exit`, `dotenv` and every console log: the exit code is returned, and the job consumer's log is the list of decoded records. The string conversion of the record log line is modelled, because it throws for a bucket name with its own `toString` key; the text it prints is not.
- The AWS SDK (SQS receive and delete, ECS RunTask, S3 pre-signing): each service answer is a parameter. The SQS and ECS clients' credentials are only checked for presence.
- The re-poll timer (`setTimeout(pollQueue, 2000)`): one round is modelled. Repeated rounds are repeated calls.
- `JSON.parse` is the `parse` parameter, `None` standing for a syntax error.
- The email rule of zod's `.email()` is the `isEmail` parameter.
- `bcrypt.hash` is the `hash` parameter and `Date.now()` the `timestamp` parameter.
- The zod features the schemas do not use (unions, coercion, custom error maps, unknown-key modes other than stripping) are not modelled, and neither is `NaN` or `Infinity` as a number.
- Strings are sequences of Unicode scalar values. Lone UTF-16 surrogates are not representable. zod's `.min` counts UTF-16 code units, and the model computes that count.
- `connectToDatabase` and a throwing `findOne` are not modelled. A `User.create` that throws is the `CreateThrew` outcome.
- The Mongoose schema's lower-casing and trimming of emails and its unique indexes on usernames and emails (`frontend/src/models/userModel.ts:34`) are not modelled. The store is a sequence of records whose email uniqueness comes only from the lookup before creation. A duplicate that gets past the lookup (two concurrent sign-ups) makes `User.create` throw in the source, which is the model's `CreateThrew` outcome.
- The JSON body parser (`express.json()` at `backend/src/index.ts:18`) is not modelled: the controller receives `req.body` as a parameter. Whether a request with no body arrives as `{}` or as `undefined` depends on the Express version, which is not part of this model. Both cases are covered, by `VideoController.EmptyBodyRejected` and `VideoController.MissingBodyRejected`.
- Hls.LocalDisk.MakeDir: the disk is a flat map of files beside a set of directories, with no parent-child relation, so a path may be both a file and a directory. The source's `mkdirSync` throws when a parent is a file (ENOTDIR), and `mkdir` with `recursive` throws when the path is a file (EEXIST); the model adds the directory instead.
- Hls.LocalDisk.WriteFile: for the same reason, writing a file over a directory (EISDIR in `writeFileSync`) succeeds in the model.
- Hls.ConvertAllOrNothing: a conversion whose output folder or a rung folder clashes with an existing file is reported as succeeding by the model, while the source fails.
- TranscodeJob.RunJob: the two `mkdir` calls of the job cannot fail in the model, so a job whose download or output folder is an existing file is not reported as failing there.
- `auth.ts` (the credentials provider behind `signIn`) is not part of this model: `HandleSignIn` returns the call it would make.
- Form entries that are files: the form is a map from names to text.
- The middleware's `config.matcher` (which paths reach the middleware at all) and the URL construction: a redirect is its target path and, for protected pages, the full request URL as the callback.
- The web pages, components, routes, the video model and `generateUrlForUploadFileOnS3` are not part of this model.
- The unreachable `catch` of `getVideos` is not modelled.

# Direct-to-S3 document uploads, modelled in Dafny

A client uploads a file straight to an S3 bucket and then reports where it put it. The `Document` model checks that reported location. Before the record is created, it fetches the object's metadata, retrying through S3's read-after-write lag. After creation it queues one background job that finalizes the upload. The job does one of two things:

- Images go to Paperclip as a remote source, which downloads and post-processes them.
- Any other file is copied inside the bucket to `documents/uploads/<id>/original/<filename>`.

Either way the job then marks the record processed, saves it and deletes the temporary upload. `update_file` resets the record and queues the job again. On a record that was never saved, its `save!` is a create, so the job is queued twice.

The model has these modules:

- `UploadUrl`: the anchored location pattern as an explicit parser. It returns the `path` and `filename` captures or nothing. Ruby's rules are kept:
  - `.` never matches a newline.
  - `\A` and `\z` anchor the whole string.
  - The greedy `.+` ends at the last slash that still leaves a non-empty filename.
- `Escaping`: `CGI.unescape` as a percent-decoder (a `+` becomes a space). The setter stores its result, or `nil` for a `nil` argument. A percent-encoder is provided as its inverse.
- `ContentType`: `post_process_required?`. The source's pattern uses `^` and `$`, which are line anchors in Ruby. So the model accepts a content type when one of its lines is a listed image type. For a single-line value this is proved to be a full-string match.
- `Effects`: the outside world.
  - The bucket is a map from keys to bytes.
  - Every call into S3, the clock (`sleep`), the job queue (`Document.delay`) and every insert or save of the record is logged, in order, in one trace. `Document.find` is not logged: the found record is a parameter of the finalize.
  - The answers the store gives `head`, and whether a copy, transform or delete raises, are parameters.
- `MetadataRetry`: the retry policy as a function of the successive `head` answers. At most 5 calls, sleeping 3 seconds after each `NoSuchKey` that still has tries left.
- `Decimal`: the record id as text, needed for the canonical key.
- `DocumentLifecycle`: the record as a value. Set-attributes, create, update and finalize are defined as steps on (record, world), and their properties are proved there.
- `Documents`: the `Document` class. Its fields are the modelled `documents` columns, plus whether the record is saved (`persisted`) and the attachment's remote source (`uploadSource`); `created_at` and `updated_at` are not modelled. Its methods update them in place, in the source's order, and each method is proved equal to its `DocumentLifecycle` step. `set_upload_attributes` is a loop with a try counter.

The bucket name is a parameter: the `bucket` constant of a `World`.

Some consequences of the code that the model keeps:

- The greedy `.+` lets the filename capture hold a slash as its last character. A URL ending in `uploads/a/b/` gives the filename `b/`.
- The classifier matches line by line, so a multi-line content type is post-processed when any of its lines is a listed image type.
- The metadata is fetched by `set_upload_attributes`, which runs before create and in `update_file`. The finalize job never fetches it.
- A second finalize after a successful one finds the temporary object gone. The copy raises `NoSuchKey`, the download an HTTP error, and the record and bucket stay as they were.

## Model

| member | source | states |
|---|---|---|
| `UploadUrl.LastSplit` | app/models/document.rb:44 | the split index is the largest slash position from 1 to the bound; no slash lies after it within the bound; with no result, no slash in range at all |
| `UploadUrl.SplitRest` | app/models/document.rb:44 | an accepted tail is segment + "/" + filename, both non-empty and newline-free |
| `UploadUrl.ParsePath` | app/models/document.rb:44 | the `path` capture is the whole text after the bucket, which starts with `uploads/` |
| `UploadUrl.Match` | app/models/document.rb:84 | the match on the stored attribute: `nil` never matches, a string matches as `UploadUrl.Parse` says |
| `UploadUrl.Parse` | app/models/document.rb:44 | a match means the URL starts with the origin and bucket prefix and the `path` capture is all the rest, starting with `uploads/` |
| `UploadUrl.ParseSound` | app/models/document.rb:44 | every accepted URL is exactly prefix + `uploads/` + non-empty segment + `/` + non-empty filename, newline-free, with `path` the part after the bucket (nothing before or after) |
| `UploadUrl.ParseComplete` | app/models/document.rb:44 | every URL of that shape is accepted, with `path` the part after the bucket; the greedy filename is never longer than the shape's |
| `UploadUrl.ParseExact` | app/models/document.rb:44 | for a filename without slashes both captures are exactly the shape's |
| `UploadUrl.SplitComplete` | app/models/document.rb:44 | every well-formed tail splits, and the greedy split gives the shortest filename |
| `UploadUrl.SplitExact` | app/models/document.rb:44 | a tail whose filename has no slash splits exactly there |
| `UploadUrl.FilenameAfterLastSlash` | app/models/document.rb:44 | the filename holds a slash only as its last character, and none when the URL does not end in `/` |
| `UploadUrl.AcceptedHasNoNewline` | app/models/document.rb:44 | the end anchor is `\z`: with a newline-free bucket, no accepted URL contains a newline |
| `UploadUrl.DocumentedExampleAccepted` | app/models/document.rb:27-28 | `https://s3.amazonaws.com/myapp-development/uploads/<segment>/foo.jpg` is accepted with path `uploads/<segment>/foo.jpg` and filename `foo.jpg` |
| `UploadUrl.DocumentedAttackRejected` | app/models/document.rb:30-31 | `http://haxor.com/virus.exe` is rejected for every bucket |
| `UploadUrl.ParseAsWritten` | app/models/document.rb:44 | the pattern as the source builds it, with the bucket name spliced in unescaped; a match ends in a `path` capture that starts with `uploads/` |
| `UploadUrl.AsWrittenAgreesWithoutDots` | app/models/document.rb:44 | for a bucket name without `.` the as-written pattern is the literal one |
| `UploadUrl.AsWrittenAcceptsLiteral` | app/models/document.rb:44 | the as-written pattern accepts everything the literal one does, with the same captures |
| `UploadUrl.AsWrittenAcceptsForeignName` | app/models/document.rb:44 | any name the bucket pattern matches other than the bucket's own gives a URL the as-written pattern accepts, with the same path capture, and the literal pattern rejects |
| `UploadUrl.DotFreePattern` | app/models/document.rb:44 | a bucket pattern without `.` matches exactly the bucket name |
| `UploadUrl.AsWrittenAcceptsForeignBucket` | app/models/document.rb:44 | with bucket `my.bucket` the as-written pattern accepts a URL in bucket `myxbucket`, which the literal pattern rejects |
| `Escaping.StoredUrl` | app/models/document.rb:54-56 | the setter stores `nil` exactly when it is given `nil`; an un-escaped value is never longer than its escaped form |
| `Escaping.Unescape` | app/models/document.rb:55 | un-escaping never lengthens a string |
| `Escaping.UnescapeEscape` | app/models/document.rb:53-56 | un-escaping undoes percent-encoding for every byte string |
| `Escaping.StoredUrlOfEscaped` | app/models/document.rb:53-56 | the setter given the escaped form of a URL stores that URL |
| `Escaping.UnescapePlain` | app/models/document.rb:55 | a value with no `%` and no `+` is stored unchanged |
| `ContentType.PostProcessRequired` | app/models/document.rb:68-70 | `post_process_required?`: some line of a present content type is a listed image type; stated by `ContentType.SingleLineIsFullMatch`, `ContentType.ListedIsPostProcessed`, `ContentType.FirstSlashDecides` and the examples below |
| `ContentType.SingleLineIsFullMatch` | app/models/document.rb:68-70 | for a content type without a newline, post-processing is required exactly when it is `(image\|application\|x-application)/(bmp\|gif\|jpeg\|jpg\|pjpeg\|png\|x-png)` in full |
| `ContentType.ListedIsPostProcessed` | app/models/document.rb:68-70 | every listed media type / subtype pair, alone on its line, is post-processed |
| `ContentType.PngIsPostProcessed` | app/models/document.rb:68-70 | `image/png` is post-processed |
| `ContentType.PlainTextIsCopied` | app/models/document.rb:68-70 | `text/plain` and a `nil` content type are not post-processed |
| `ContentType.PdfIsCopied` | app/models/document.rb:68-70 | `application/pdf`, a listed media type with an unlisted subtype, is not post-processed |
| `ContentType.SecondLineCounts` | app/models/document.rb:69 | with line anchors, a listed type on a later line is enough: `text/plain` newline `image/png` is post-processed |
| `ContentType.FirstSlashDecides` | app/models/document.rb:69 | a single-line content type split at its first slash is post-processed if and only if the part before the slash is `image`, `application` or `x-application` and the part after it is one of the seven listed subtypes |
| `Effects.SourceError` | app/models/document.rb:88-91 | reading the temporary object (copy or download) succeeds exactly when it exists and the store does not refuse; a missing one raises the reader's own error |
| `Effects.OutcomeError` | app/models/document.rb:97 | the delete raises exactly when the store refuses it |
| `Effects.World.Copy` | app/models/document.rb:91 | logs the copy; on success the target holds the source's bytes, on failure the bucket is unchanged; a missing source raises `NoSuchKey` |
| `Effects.World.AssignRemoteSource` | app/models/document.rb:88 | logs the remote source; the bucket is unchanged; a missing temporary object fails the HTTP download (`DownloadFailed`), not with `NoSuchKey` |
| `Effects.World.Delete` | app/models/document.rb:97 | logs the delete; on success the key is gone, a missing key included |
| `Effects.EnqueuedAppend` | app/models/document.rb:125-127 | the queued finalize jobs of two traces in a row are those of the first, then those of the second |
| `MetadataRetry.FetchFrom` | app/models/document.rb:104-122 | a fetch ends after at least one and at most the remaining tries of `head` calls |
| `MetadataRetry.FetchMetadata` | app/models/document.rb:105 | `head` is called between 1 and 5 times |
| `MetadataRetry.FetchFromExplained` | app/models/document.rb:114-121 | every call but the last got `NoSuchKey`, and the last answer decides; giving up on `NoSuchKey` uses every try; any other error is the last answer's |
| `MetadataRetry.FetchFromDecided` | app/models/document.rb:108-121 | the first answer that is not `NoSuchKey` decides the fetch, after exactly that many calls |
| `MetadataRetry.FetchFromExhausted` | app/models/document.rb:114-121 | when every try is answered `NoSuchKey`, `NoSuchKey` is raised after the last one |
| `MetadataRetry.SucceedsOnAttempt` | app/models/document.rb:105-113 | a `head` that first succeeds on attempt k ≤ 5 gives its metadata after exactly k calls |
| `MetadataRetry.OtherErrorNotRetried` | app/models/document.rb:114 | any other error on attempt k is raised at once, after k calls |
| `MetadataRetry.GivesUpAfterMaxTries` | app/models/document.rb:115-120 | five `NoSuchKey` answers raise `NoSuchKey` after the fifth call |
| `MetadataRetry.FetchExplained` | app/models/document.rb:104-122 | the whole fetch is explained by its answers: `NoSuchKey` before the last call, the last answer decides, giving up only after 5 calls |
| `MetadataRetry.Retries` | app/models/document.rb:114-118 | the trace of n rounds answered `NoSuchKey`: a head, then a 3-second sleep; its shape is stated by `MetadataRetry.RetriesAlternate` and `MetadataRetry.RetriesCounts` |
| `MetadataRetry.RetriesAlternate` | app/models/document.rb:108-118 | n retry rounds are 2n events: heads on the path at even positions, 3-second sleeps at odd ones |
| `MetadataRetry.FetchTrace` | app/models/document.rb:105-121 | the calls a fetch of k calls leaves in the trace: k - 1 retry rounds, then the deciding head; stated by `MetadataRetry.FetchTraceAlternates` and `MetadataRetry.FetchTraceCounts` |
| `MetadataRetry.FetchTraceAlternates` | app/models/document.rb:105-121 | a fetch of k calls logs 2k - 1 events, heads and sleeps alternating, starting and ending with a head |
| `MetadataRetry.RetriesCounts` | app/models/document.rb:116-118 | n retry rounds are n heads on the path and n 3-second sleeps, and nothing else |
| `MetadataRetry.FetchTraceCounts` | app/models/document.rb:105-121 | a fetch of k calls logs k heads, k - 1 sleeps of 3 seconds, nothing else and no queued job |
| `Decimal.NatToString` | app/models/document.rb:90 | an id is written as a non-empty string of digits |
| `Decimal.DecimalRoundTrip` | app/models/document.rb:90 | the written id reads back as the id |
| `Decimal.NatToStringInjective` | app/models/document.rb:90 | different ids are written differently |
| `DocumentLifecycle.IsValid` | app/models/document.rb:48 | the presence and format validations; stated by `DocumentLifecycle.ValidIffMatches` |
| `DocumentLifecycle.ValidIffMatches` | app/models/document.rb:48 | a record is valid exactly when its stored URL is present and matches the pattern (presence adds nothing to the format check) |
| `DocumentLifecycle.CanonicalKey` | app/models/document.rb:90 | the key Paperclip expects the original at; stated by `DocumentLifecycle.CanonicalKeyInjective` and `DocumentLifecycle.CanonicalKeyIsNotUpload` |
| `DocumentLifecycle.CanonicalKeyInjective` | app/models/document.rb:90 | two records, or two filenames, never get the same canonical key |
| `DocumentLifecycle.CanonicalKeyIsNotUpload` | app/models/document.rb:90-91 | a canonical key is never an `uploads/` path, so the copy cannot overwrite a temporary object |
| `DocumentLifecycle.FirstSlashAfterDigits` | app/models/document.rb:90 | in the canonical key the first slash after the id comes right after its digits |
| `DocumentLifecycle.DigitsBeforeSlash` | app/models/document.rb:90 | two digit strings followed by `/original/` and a filename give the same text only if ids and filenames are equal |
| `DocumentLifecycle.UploadAttributes` | app/models/document.rb:104-122 | `set_upload_attributes` as a step on record and world; stated by the three lemmas below and by `Documents.Document.SetUploadAttributes` |
| `DocumentLifecycle.UploadAttributesOnAttempt` | app/models/document.rb:104-113 | when `head` first succeeds on attempt k: exactly k heads on the captured path, k - 1 sleeps, nothing else; the four upload attributes come from the filename capture and that answer, and nothing else changes |
| `DocumentLifecycle.UploadAttributesFailure` | app/models/document.rb:106-121 | a failed fetch changes no attribute; an unmatched URL raises before any store call; giving up on `NoSuchKey` follows exactly 5 heads |
| `DocumentLifecycle.UploadAttributesFrame` | app/models/document.rb:104-122 | setting the upload attributes keeps id, flags and URL, leaves the bucket alone, only adds heads and sleeps to the trace (so queues no job), and succeeds only on a matching URL |
| `DocumentLifecycle.Create` | app/models/document.rb:48-51 | `save` of a new record: validation, `before_create`, the insert with the new id, `after_create`; stated by the lemmas below |
| `DocumentLifecycle.CreateSucceeds` | app/models/document.rb:50-51 | a create with a matching URL whose `head` first answers on attempt `k` succeeds: the record is inserted under the new id with the filename capture, the answer's size, type and date, the bucket is unchanged, and the calls are the `k` heads with their sleeps, then the insert, then one finalize job |
| `DocumentLifecycle.CreateRejectsInvalid` | app/models/document.rb:48-50 | a record whose URL is `nil` or does not match is not created, and no store call is made |
| `DocumentLifecycle.CreateQueuesOneFinalize` | app/models/document.rb:48-51 | a successful create has a matching URL, is inserted with the new id and queues exactly one finalize for that id; a failed one queues none and leaves the record unsaved |
| `DocumentLifecycle.ApplyParams` | app/models/document.rb:61 | `self.attributes = params` for a URL (through `direct_upload_url=`) and a `processed` flag; stated by `DocumentLifecycle.UpdateFileRequeues` |
| `DocumentLifecycle.SaveAndRequeue` | app/models/document.rb:63-64 | `save!` then the queued finalize: an update of a saved record, a create of a new one; stated by the three lemmas below |
| `DocumentLifecycle.SaveAndRequeueUpdates` | app/models/document.rb:63-64 | a saved record is saved unchanged, and exactly one finalize of its id is queued after the save |
| `DocumentLifecycle.SaveAndRequeueCreates` | app/models/document.rb:50-64 | a record never saved is inserted under the new id, URL and flags kept, and two finalize jobs for it are queued: the `after_create` one and then the explicit one |
| `DocumentLifecycle.SaveAndRequeueFails` | app/models/document.rb:50-63 | a `save!` of a valid record raises only as a create whose `set_upload_attributes` failed, adding only heads and sleeps |
| `DocumentLifecycle.UpdateFile` | app/models/document.rb:59-65 | `update_file(params)` as a step on record and world; stated by the lemmas below |
| `DocumentLifecycle.UpdateFileRequeues` | app/models/document.rb:59-65 | `update_file` leaves the record processed exactly when the params set `processed` to true; on success the record is valid and stored, and one finalize of its id is queued, or two of the new id for a record never saved; on failure the stored flag and the queue are unchanged |
| `DocumentLifecycle.UpdateFileSucceeds` | app/models/document.rb:62-64 | on a saved record a returning `update_file` leaves it valid, ends its trace with the save and then the queued finalize, and queues exactly that one |
| `DocumentLifecycle.UpdateFileCreates` | app/models/document.rb:50-64 | on a record never saved a returning `update_file` inserts it under the new id, ends its trace with the insert and two queued finalize jobs, and queues exactly those two |
| `DocumentLifecycle.UpdateFileFails` | app/models/document.rb:62-63 | an `update_file` that raises only adds heads and sleeps: no save, no insert, no queued finalize; id and stored flag unchanged |
| `DocumentLifecycle.FirstEffect` | app/models/document.rb:87-92 | the call the finalize makes first: the remote source for an image, else the copy to the canonical key; stated by `DocumentLifecycle.FinalizeBranches` |
| `DocumentLifecycle.MissingSource` | app/models/document.rb:88-91 | the error a missing temporary object gives: the download's HTTP error for an image, `NoSuchKey` for the copy; stated by `DocumentLifecycle.FinalizeIdempotent` |
| `DocumentLifecycle.ApplyEffect` | app/models/document.rb:87-92 | the copy or transform as a step; stated by `Documents.Document.TransformOrCopy` and the finalize lemmas |
| `DocumentLifecycle.Finalize` | app/models/document.rb:82-98 | `finalize_and_cleanup(id)` as a step on record and world; stated by the lemmas below |
| `DocumentLifecycle.FinalizeBranches` | app/models/document.rb:87-97 | exactly one branch runs: the transform sets the upload source to the stored URL and copies nothing; the copy puts the temporary bytes at `documents/uploads/<id>/original/<filename>` and leaves the source alone; then processed, save, delete, in that order, and the temporary object is gone; the copy leaves every other object as it was |
| `DocumentLifecycle.FinalizeTransformBranch` | app/models/document.rb:87-88 | with post-processing required, a successful run sets the upload source to the stored URL, makes no copy, deletes the temporary object, and logs remote source, save, delete |
| `DocumentLifecycle.FinalizeCopyBranch` | app/models/document.rb:89-97 | otherwise a successful run moves the temporary bytes to the canonical key, leaves every other object as it was, and logs copy, save, delete |
| `DocumentLifecycle.FinalizeEffectFails` | app/models/document.rb:87-95 | if the copy or transform raises: record (processed included) and bucket unchanged, no save, no delete |
| `DocumentLifecycle.FinalizeDeleteFails` | app/models/document.rb:94-97 | a delete that raises after the save leaves the record processed and the temporary object in place |
| `DocumentLifecycle.FinalizeIdempotent` | app/models/document.rb:82-98 | a second finalize after a successful one changes neither the record nor the bucket; it raises `NoSuchKey` from the copy, or the download's HTTP error for an image |
| `DocumentLifecycle.FinalizeRetryConverges` | app/models/document.rb:82-98 | after a run that failed at the copy or transform, a repeat ends in the same record and bucket as a first run would |
| `DocumentLifecycle.FinalizeRetryAfterDeleteFails` | app/models/document.rb:82-98 | after a run whose delete raised, a repeat whose copy or transform succeeds ends in the same record, bucket and error as a first run with the same delete outcome |
| `Documents.Document.constructor` | app/models/document.rb:5-13 | a new record is unsaved, has no id yet (0 in the model), every other column `nil` and `processed` false |
| `Documents.Document.SetDirectUploadUrl` | app/models/document.rb:54-56 | sets only `direct_upload_url`, to the un-escaped argument or `nil` |
| `Documents.Document.SetUploadAttributes` | app/models/document.rb:104-122 | the retry loop changes the record and the world exactly as the set-attributes step does |
| `Documents.Document.QueueFinalizeAndCleanup` | app/models/document.rb:125-127 | queues one finalize job for the record's id and does nothing else |
| `Documents.Document.Create` | app/models/document.rb:48-51 | on an unsaved record, validation, `before_create`, insert and `after_create` change the record and the world exactly as the create step does |
| `Documents.Document.UpdateFile` | app/models/document.rb:59-65 | reset, attribute assignment, re-derivation, save and re-queue, exactly as the update step, a record never saved included |
| `Documents.Document.SaveAndRequeue` | app/models/document.rb:63-64 | the update or create of `save!` and the queued finalize, exactly as the save step |
| `Documents.Document.TransformOrCopy` | app/models/document.rb:87-92 | the branch on `post_process_required?` changes the record and the world exactly as the first half of the finalize step does |
| `Documents.Document.FinalizeAndCleanup` | app/models/document.rb:82-98 | the branch, processed flag, save and delete change the record and the world exactly as the finalize step does |

## Findings

| source | as written | input that shows it | evidently intended | confidence | as-written member | corrected member |
|---|---|---|---|---|---|---|
| app/models/document.rb:44 | the bucket name is spliced into the pattern unescaped, so each `.` in it matches any character | with an S3 bucket named `my.bucket`, the URL `https://s3.amazonaws.com/myxbucket/uploads/a/b.png` passes validation. The create still needs an object at `uploads/a/b.png` in `my.bucket` itself, because the `head` at app/models/document.rb:108 asks the app's own bucket, and the recorded type is that object's. When that type is a listed image type, the finalize has Paperclip download the URL, that is `b.png` from `myxbucket`, a bucket the app does not own; otherwise it copies within `my.bucket` | the bucket taken literally (`Regexp.escape(BUCKET_NAME)`) | medium; not executed; only bucket names containing `.` are affected | `UploadUrl.ParseAsWritten`, shown by `UploadUrl.AsWrittenAcceptsForeignBucket` and `UploadUrl.AsWrittenAcceptsForeignName` | `UploadUrl.Parse`, with `UploadUrl.ParseSound` and `UploadUrl.ParseComplete` |

The rest of the model uses `UploadUrl.Parse`. `UploadUrl.AsWrittenAgreesWithoutDots` shows the two patterns are the same for bucket names without a `.`.

## Left out

- The web layer (`documents_controller.rb`, `routes.rb`) is not modelled. That covers the strong-parameter permit and the 30-second signed download URL. It is request plumbing around the model.
- The initializers (`aws.rb`, `paperclip.rb`, `s3_direct_upload.rb`) only set credentials and the bucket. The bucket name is a parameter.
- The upload widget (`documents.js`), with its 10 MB alert, is front-end only.
- Schema limits: the migration only shapes the record datatype. The 255-character limit of the string columns is not modelled. `upload_file_size` is an `integer` column (app/models/document.rb:9), 32-bit signed in the usual databases, while `Metadata.contentLength` and `Record.uploadFileSize` are unbounded `nat`s, so a size above 2^31 - 1 is not rejected. The front end refuses files above 10 MB (app/assets/javascripts/documents.js:7), but the model does not rely on that.
- The S3 client is abstract:
  - `head` answers are given as a sequence with at least 5 entries, one sequence per `set_upload_attributes` run.
  - Whether a copy, download or delete raises is a parameter.
  - A copy of a missing key raises `NoSuchKey`; a delete of a missing key succeeds.
  - Paperclip downloads a remote source over HTTP (open-uri). A missing object is one `DownloadFailed` error; the HTTP status (403 or 404) is not modelled.
- Paperclip internals are not modelled: the download and resize that happen on assignment, and the upload that happens on `save`. The model fails the assignment with `DownloadFailed` before `processed` is set or the record saved, and otherwise only records the remote source. Consequences:
  - In the transform branch the model records the remote source, but not the canonical objects Paperclip writes.
  - "The canonical object exists" is proved only for the copy branch.
  - Paperclip's own reassignment of the `upload_*` columns on assignment is not modelled.
- `update_file`'s params are modelled as `direct_upload_url` and `processed` only. Other columns among them (`upload_*`, `id`) are not modelled; on success `set_upload_attributes` overwrites the four `upload_*` columns anyway.
- `URI.escape` and `URI.parse` are not modelled: the upload source holds the stored URL they are applied to, and the download is taken to read exactly the `path` capture. `URI.escape` leaves `?` alone, so for a filename containing `?` Paperclip fetches a shorter key than the one `head` and `delete` use; the model does not capture that.
- `Document.delay` is modelled only as an `Enqueue` event. When jobs run, and at-least-once redelivery, are not modelled. The idempotence lemmas cover repeated sequential runs. Concurrent runs on one record are not modelled.
- `sleep(3)` is a `Sleep(3)` event, not real time.
- ActiveRecord persistence is not modelled. Consequences:
  - `save` and `save!` are events on one record value, and `find` is no event at all. That value stands for both the in-memory object and its row.
  - `finalize_and_cleanup` ignores the boolean returned by `save`, so a save in the model always succeeds.
  - Database failures are not modelled. The update path of `save!` does not re-run the validation: after a successful `set_upload_attributes` it always passes, as `DocumentLifecycle.UpdateFileRequeues` proves.
  - A `Document.find` that finds nothing is not modelled.
- Character encoding: `CGI.unescape` decodes bytes and re-reads them as UTF-8. The model decodes `%XY` to the character with code 0xXY and does not reassemble multi-byte characters. `blank?` uses a fixed ASCII whitespace set.
- Documents.Document.FinalizeAndCleanup: requires the stored URL to match. This leaves out the `nil` dereference paths for a record whose URL no longer matches.
- DocumentLifecycle.IsValid: uses the literal-bucket `UploadUrl.Parse`, as do `UploadAttributes`, `Create`, `UpdateFile` and `Finalize`. For a bucket name containing `.` the lifecycle therefore follows the corrected pattern of the Findings row, not the source's `UploadUrl.ParseAsWritten`.

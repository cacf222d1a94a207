# sbbp pipeline model

sbbp turns a video (from a URL or a local file) into a readable document.
It downloads the video, extracts frames at a fixed interval and drops
near-duplicate frames. It then transcribes the audio, summarises the
transcript and lines the transcript up with the frames. This project is a
Dafny model of the parts of that pipeline that decide things. The
downloader, ffmpeg, the speech and language services, object storage,
Postgres and the job queue are parameters or are left out.

One module per source file:

- `Dedup`, `Analyze`, `Similarity`: the near-duplicate frame walk of the analysis job (`src/jobs/analyze.rs`) and of the older script (`calculate_similarity.mjs`), with the thumbnail width filter and the merge into the `images` column. The similarity score is an uninterpreted function.
- `VideoTypes`, `VideoModel`, `Jobs`: the video record, its processing states and JSON shapes, the image file naming scheme, `create_via_url` and the per-stage payloads of `rerun_stage`, and the job error kinds.
- `Download`, `Transcribe`, `Summarize`: the download job (directory sanitiser, info-file requirement, storage keys, row update), the transcription job (retry classification, format tag, metadata merge, hand-off) and the summarisation job (transcript pointer, request, reply extraction, final update). `Json` models the serde_json and Postgres `jsonb` operations they use.
- `Chunking`, `ViewerAlign`, `AppAlign`, `DocAlign`, `WebAlign`: the four versions of transcript-to-image alignment. The viewer and app chunkers are methods with loops, proved against the shared grouping function in `Chunking`, including the expected outputs of all eleven of their unit tests (six for the viewer, five for the app).
- `Queries`, `Pages`, `Clock`, `Format`, `Strings`: the list query's ordering, paging and filter order; the server-rendered duration, mark-read button and row; and the web app's `formatDuration`.
- `AppServer`, `ViewerData`: the app's and the viewer's in-memory item stores as classes over sequences, and the app's single-runner process queue.
- `WebProcess`: the web app's processing run (directory name, title from the file name, download outcome, recorded config).
- `Login`: the login form's flow selection, messages and redirect target.

Reals stand for f64 and JavaScript numbers, and `int` for Rust integers.
Where a width matters (`duration as i32` in the download job, `u32` frame
indices in the analysis job and on the document page), the wrap-around is
written out.

Behaviours of the code that a reader might not expect, which the model keeps:

- The last frame (`max_index`) is the first reference of the analysis walk and is also walked like any other frame (`src/jobs/analyze.rs:93-114`). When every earlier frame was removed it is compared with itself, and it is removed whenever that score reaches the threshold (`Analyze.LastFrameComparedWithItself`).
- With `max_index` 0 the analysis job downloads no frame, so opening frame 0 as the first reference fails with the frame-extraction error (`src/jobs/analyze.rs:44-60`, `93-97`; `Analyze.RunWithoutFrames`).
- The app's alignment tests build their video with `imageInterval`/`numImages`, while `align` reads `images.interval` and `images.maxIndex`. As written, those tests would stop with a `TypeError` at the destructuring of `config.images` (`app/src/lib/align.ts:4-6`) before reaching their expected outputs. The model maps the tests' values to `maxIndex = numImages - 1` (`app/src/lib/align.test.ts:29-63`) and proves that `align` then gives those outputs.

## Model

| member | source | states |
|---|---|---|
| Dedup.Range | src/jobs/analyze.rs:99 | `1..=max_index` as a list: its length and every entry in order |
| Dedup.Walk | src/jobs/analyze.rs:99-115 | the reference walk: the removed and kept positions are strictly increasing and lie within the frames walked |
| Dedup.WalkPartition | src/jobs/analyze.rs:108-114 | every frame is either removed or kept, never both |
| Dedup.WalkReference | src/jobs/analyze.rs:111-114 | the reference is the last kept frame, or the starting reference when none was kept |
| Dedup.WalkPrefix | src/jobs/analyze.rs:99-115 | a frame's fate is decided when it is reached: walking a prefix decides it the same way as walking everything |
| Dedup.RemovedIff | src/jobs/analyze.rs:108-114 | a frame is removed exactly when its score against the reference in force when it is reached is at or above the threshold |
| Dedup.AllDifferent | src/jobs/analyze.rs:108-114 | when no pair reaches the threshold nothing is removed |
| Dedup.AllSimilar | src/jobs/analyze.rs:108-110 | when every frame reaches the threshold against the starting reference, all are removed and the reference never moves |
| Dedup.NothingKept | src/jobs/analyze.rs:108-114 | while every frame so far was removed, nothing is kept and the reference is still the starting one |
| Dedup.LastAgainstInitial | src/jobs/analyze.rs:93-114 | when every frame before the last was removed, the last is compared with the starting reference |
| Analyze.Open | src/jobs/analyze.rs:94-97 | opening a frame succeeds exactly on a present file that decodes |
| Analyze.AsU32 | src/jobs/analyze.rs:110 | `i as u32` keeps every index below 2^32 and stays below 2^32 |
| Analyze.SsimStep | src/jobs/analyze.rs:100-114 | one frame either leaves the removed list alone or appends its own index to it |
| Analyze.SsimWalk | src/jobs/analyze.rs:99-115 | a walk over frames 1..=upto removes at most `upto` frames and fails only with ReadImage or CalculatingSimilarity |
| Analyze.SsimPipeline | src/jobs/analyze.rs:86-118 | the walk starts from frame max_index and fails with ExtractingImages when that frame cannot be opened |
| Analyze.SsimWalkErrorPersists | src/jobs/analyze.rs:101-107 | once a frame fails to read or compare, the whole walk fails with that error |
| Analyze.RunSsimPipeline | src/jobs/analyze.rs:86-118 | the loop computes exactly the walk the pipeline function defines |
| Analyze.SsimWalkRemovedShape | src/jobs/analyze.rs:99-110 | the removed list is strictly increasing and holds only frames in 1..=upto |
| Analyze.SsimRemovedShape | src/jobs/analyze.rs:91-117 | the pass returns a strictly increasing list of frames within 1..=max_index |
| Analyze.SsimWalkIsDedup | src/jobs/analyze.rs:99-115 | when every frame reads and the measure never fails, the job's walk is the reference walk, shifted to 1-based frames |
| Analyze.SsimRemovedIff | src/jobs/analyze.rs:93-115 | frame i is removed exactly when it scores at or above the threshold against the last kept frame before it, or frame max_index when none was kept |
| Analyze.LastFrameComparedWithItself | src/jobs/analyze.rs:93-110 | when every earlier frame was removed, frame max_index is compared with itself and removed exactly when a frame reaches the threshold against itself |
| Analyze.SsimExtremes | src/jobs/analyze.rs:106-114 | nothing is removed when all scores are below the threshold; every frame 1..=max_index is removed when all reach it |
| Analyze.SizesBelow | src/jobs/analyze.rs:159-161 | the sizes kept are exactly those strictly below the width, no more of them than given, and ascending when the sizes given are ascending |
| Analyze.ThumbnailSizesForWidth | src/jobs/analyze.rs:33 | for each width range, the thumbnail widths made are the matching prefix of 720, 1280, 1920 |
| Analyze.GenerateThumbnails | src/jobs/analyze.rs:153-184 | one file per size below the frame's width, named by frame and size; any encoder failure fails the frame with Thumbnail |
| Analyze.EncodeAll | src/jobs/analyze.rs:162-180 | collecting the encodings succeeds exactly when every size encodes, and keeps the sizes' order |
| Analyze.StorageKeys | src/jobs/analyze.rs:137 | each upload key is the storage prefix, '/', and the file name |
| Analyze.ThumbnailFrame | src/jobs/analyze.rs:127-147 | one frame's step succeeds only on a frame that opens; a failure is a frame that cannot be read, an encoder failure or an upload failure |
| Analyze.EachFrame | src/jobs/analyze.rs:125-149 | `try_for_each` over 1..=upto: success means every frame's step succeeded, and a failure is the failure of some frame's step |
| Analyze.ThumbnailPipeline | src/jobs/analyze.rs:120-150 | a failure is a frame that cannot be read, an encoder failure or an upload failure |
| Analyze.ThumbnailPipelineOpensAll | src/jobs/analyze.rs:125-131 | a pass that succeeds has opened every frame 1..=upto |
| Analyze.DownloadFrames | src/jobs/analyze.rs:44-60 | the download succeeds exactly when frames 1..=max_index are all in storage, and fetches those frames and no others; otherwise StorageDownload |
| Analyze.Run | src/jobs/analyze.rs:36-84 | a successful run has downloaded every frame and passed both pipelines, and merges the thumbnail widths and removed frames into the images column |
| Analyze.RunWithoutFrames | src/jobs/analyze.rs:44-96 | with max_index 0 no frame is downloaded, so opening the reference frame fails with ExtractingImages |
| Analyze.U32Frames | src/jobs/analyze.rs:110 | every removed index fits in u32 |
| Analyze.ImagesUpdate | src/jobs/analyze.rs:74-77 | the `json!` object merged into the column holds exactly `thumbnail_widths` and `removed`, with one entry per removed frame |
| Analyze.MergedImagesDecode | src/jobs/analyze.rs:69-78 | merging the update into a valid images object keeps max_index and interval and sets all three thumbnail widths and the removed frames |
| Analyze.RunRecordsImages | src/jobs/analyze.rs:63-81 | after a successful run the images column reads back with the frames the walk removed |
| Analyze.RunOnNullColumn | src/jobs/analyze.rs:71 | a NULL images column stays NULL, because concatenating jsonb with NULL yields NULL |
| Similarity.Shift | calculate_similarity.mjs:15-24 | shifting walk positions by one keeps their order; each entry is its position plus one |
| Similarity.NotKept | calculate_similarity.mjs:27-28 | the indices below the image count that are not kept, in ascending order |
| Similarity.KeepStep | calculate_similarity.mjs:16-24 | one loop step keeps the loop invariant: the image is appended to `keep` exactly when its score against the last kept image is below 0.90 |
| Similarity.RemoveSimilarImages | calculate_similarity.mjs:13-31 | the loop returns nothing for one image or none; otherwise it returns the reference walk's removed list over images 1.. with image 0 as the first reference and 0.90 as the threshold |
| Similarity.RemovedAreNotKept | calculate_similarity.mjs:27-28 | the indices outside `keep` are exactly the walk's removed list |
| Similarity.RemovedIff | calculate_similarity.mjs:14-24 | image 0 is never removed; image i is removed exactly when it scores 0.90 or more against the last kept image before it |
| VideoModel.Pad5Digits | src/models/video/mod.rs:32-34 | `{:05}`: at least five decimal digits whose value is the index |
| VideoModel.ImageFilename | src/models/video/mod.rs:30-36 | `image_filename`; its form is stated by `VideoModel.ImageFilenameAffixes`, `VideoModel.FrameNameForm` and `VideoModel.ImageFilenameInjective` |
| VideoModel.ParseImageFilename | src/models/video/mod.rs:30-36 | the inverse of the naming scheme; `VideoModel.ParseImageFilenameRoundTrip` states that it reads every made name back |
| VideoModel.ImageFilenameAffixes | src/models/video/mod.rs:30-36 | every frame and thumbnail name starts with "image-" and ends with ".webp" |
| VideoModel.DigitsHaveNoDash | src/models/video/mod.rs:32 | a run of digits holds no '-', so the dash before the width is the only one |
| VideoModel.ParseNameOfStem | src/models/video/mod.rs:30-36 | reading "image-" + stem + ".webp" reads the stem |
| VideoModel.ParseFrameName | src/models/video/mod.rs:34 | a full-size frame name reads back as its index with no width |
| VideoModel.ThumbnailStem | src/models/video/mod.rs:32 | `NNNNN-Ww` reads back as the two numbers |
| VideoModel.ParseThumbnailName | src/models/video/mod.rs:32 | a thumbnail name reads back as its index and width |
| VideoModel.ParseImageFilenameRoundTrip | src/models/video/mod.rs:30-36 | every name the scheme makes reads back as the frame and width it was made from |
| VideoModel.ImageFilenameInjective | src/models/video/mod.rs:30-36 | distinct frames or widths never share a file name; a thumbnail never collides with a frame |
| VideoModel.ExpandLiteral | src/models/video/mod.rs:41 | printf expansion copies text without '%' unchanged |
| VideoModel.ExpandDirective | src/models/video/mod.rs:41 | `%0Nd` expands to the frame number zero-padded to N digits |
| VideoModel.ExpandTemplateHead | src/models/video/mod.rs:41 | the template expands to "image-" followed by the expansion of its tail |
| VideoModel.ExpandTemplateTail | src/models/video/mod.rs:41 | `%05d.webp` expands to the five-digit number and ".webp" |
| VideoModel.ExpandTemplate | src/models/video/mod.rs:41 | ffmpeg's expansion of `VIDEO_IMAGE_TEMPLATE`; `VideoModel.ImageTemplateAgrees` states that it names every frame as `image_filename` does |
| VideoModel.ImageTemplateAgrees | src/models/video/mod.rs:29-41 | the ffmpeg template and `image_filename(index, None)` name every frame identically, as the doc comments require |
| VideoModel.FrameNameForm | src/models/video/mod.rs:34 | a frame name is "image-", the padded number and ".webp" |
| VideoModel.CreateViaUrl | src/models/video/mod.rs:43-75 | the new row is queued with empty metadata and the URL, and the download job gets the id, the URL and the id as storage prefix |
| VideoModel.DownloadedFilename | src/models/video/mod.rs:104-110 | `metadata.download.filename`, or none when any step of the chain is absent; `VideoModel.RerunStage` states the extract stage's use of it |
| VideoModel.RerunStage | src/models/video/mod.rs:77-159 | for each of the five stages, the exact payload built from the video (download: its URL; extract: the downloaded filename; analyze: the images' max index; transcribe: `<id>/audio.mp4`; summarize: the id alone), with the video id as storage prefix, or the stage's own NotFound when the field it needs is missing; a missing video gives NotFound("Video") and unknown stages NotFound("Unknown stage") |
| VideoModel.RerunDownloadRepeatsCreation | src/models/video/mod.rs:61-99 | re-running download on a freshly created video enqueues exactly the payload its creation enqueued |
| VideoModel.RerunTranscribeAudioPath | src/models/video/mod.rs:138-149 | transcription always starts and reads `<prefix>/audio.mp4` |
| VideoTypes.Display | api/src/models/video/types.rs:35-45 | each display name is one capitalised word |
| VideoTypes.SnakeName | api/src/models/video/types.rs:24-33 | the stored and serialised name is the display name in lower case |
| VideoTypes.ParseState | api/src/models/video/types.rs:24-33 | a name that parses is the stored name of the state it parses to |
| VideoTypes.StatesEnumerated | api/src/models/video/types.rs:26-33 | exactly five states, distinct in both their display and their stored names |
| VideoTypes.ParseSnakeName | api/src/models/video/types.rs:24-33 | every stored name reads back as its own state |
| VideoTypes.DecodeOptStr | api/src/models/video/types.rs:57 | an optional string field accepts exactly null or a string |
| VideoTypes.DecodeStageStats | api/src/models/video/types.rs:54-58 | stage stats need an object with a non-negative `duration` |
| VideoTypes.EncodeChapter | api/src/models/video/types.rs:47-52 | a chapter serialises as an object of exactly `start_time`, `end_time` and `title`, the title as its string |
| VideoTypes.DecodeChapter | api/src/models/video/types.rs:47-52 | a chapter deserialises exactly from an object whose two times are numbers and whose title is a string, keeping the title |
| VideoTypes.ChapterRoundTrip | api/src/models/video/types.rs:47-52 | a serialised chapter reads back as the same chapter |
| VideoTypes.EncodeChapters | api/src/models/video/types.rs:47-52 | one JSON value per chapter |
| VideoTypes.DecodeChapters | api/src/models/video/types.rs:66 | a chapter array decodes element by element, keeping its length |
| VideoTypes.ChaptersRoundTrip | api/src/models/video/types.rs:47-52 | decoding the encoded chapters gives them back |
| VideoTypes.EncodeMetadata | api/src/models/video/types.rs:60-67 | metadata serialises as an object of exactly its four fields, `chapters` being null exactly when absent |
| VideoTypes.DecodeMetadata | api/src/models/video/types.rs:60-69 | only an object decodes as metadata |
| VideoTypes.StatsRoundTrip | api/src/models/video/types.rs:54-58 | optional stage stats read back as written |
| VideoTypes.OptChaptersRoundTrip | api/src/models/video/types.rs:66 | optional chapters read back as written |
| VideoTypes.MetadataRoundTrip | api/src/models/video/types.rs:60-69 | metadata reads back as written |
| VideoTypes.MetadataAllOptional | api/src/models/video/types.rs:61-67 | the empty object is valid metadata with nothing recorded |
| VideoTypes.EncodeNats | api/src/models/video/types.rs:76-78 | one JSON number per list entry |
| VideoTypes.DecodeU32s | api/src/models/video/types.rs:76-78 | a `Vec<u32>` decodes only when every entry fits in u32, keeping its length |
| VideoTypes.U32sRoundTrip | api/src/models/video/types.rs:76-78 | a list of u32 values reads back as written |
| VideoTypes.DecodeDefaultU32s | api/src/models/video/types.rs:75-78 | `#[serde(default)]`: an absent list is empty |
| VideoTypes.EncodeImages | api/src/models/video/types.rs:71-79 | an images record serialises as an object of exactly its four fields, with `max_index` and `interval` as their values |
| VideoTypes.DecodeImages | api/src/models/video/types.rs:71-81 | `max_index` and `interval` are required, and both lists hold u32 values |
| VideoTypes.ImagesRoundTrip | api/src/models/video/types.rs:71-81 | images read back as written |
| VideoTypes.ImagesListsDefaultEmpty | api/src/models/video/types.rs:75-78 | an object with only `max_index` and `interval` reads with both lists empty |
| VideoTypes.DefaultVideo | api/src/models/video/types.rs:185-208 | the default video is queued, unread, at progress 0, owned, with every optional field empty |
| VideoTypes.SerializeVideo | api/src/models/video/types.rs:210-236 | the video serialises its 18 fields in declaration order |
| VideoTypes.SerializeListResult | api/src/models/video/types.rs:398-422 | the list result serialises its 16 fields in declaration order |
| VideoTypes.ToListResult | api/src/models/video/types.rs:284-302 | the list row of a video; `VideoTypes.ListResultOmitsImagesAndTranscript` states that it serialises as the video without `images` and `transcript` |
| VideoTypes.PermissionName | api/src/models/video/types.rs:233 | the serialised name of the `_permission` field, used by both serialisations |
| VideoTypes.ListResultOmitsImagesAndTranscript | api/src/models/video/types.rs:215-233 | a list row serialises exactly as the full video with `images` and `transcript` left out |
| Json.Get | src/pages/docs/_doc_id.rs:72-73 | `value["key"]`: the field of an object that has the key, and `Null` for any other value or a missing key |
| Json.At | api/src/jobs/summarize.rs:74 | `value[i]`: the i-th element of an array that long, and `Null` otherwise |
| Json.AsF64 | src/pages/docs/_doc_id.rs:89-90 | `as_f64` reads exactly integers and floats, as their real value |
| Json.Pointer | api/src/jobs/summarize.rs:39-41 | `pointer`: "" selects the whole value and a pointer not starting with '/' selects nothing |
| Json.Insert | api/src/jobs/transcribe.rs:49 | `value["key"] = x` succeeds exactly on `Null` or an object, which then holds `x` under the key, keeps every other key, and gains no other |
| Json.Concat | src/jobs/analyze.rs:71 | `jsonb` `||`: a NULL column stays NULL; two objects merge their keys; anything else concatenates as arrays |
| Json.AsJsonbArray | src/jobs/analyze.rs:71 | the operand `||` concatenates: an array's elements, or any other value as a one-element array |
| Json.ConcatObjectGet | src/jobs/analyze.rs:71 | after `||` of two objects every key of the right-hand object reads its new value and every other key its old one |
| Json.ConcatObjectIdempotent | src/jobs/analyze.rs:69-78 | merging the same object into the column twice leaves it as merging once, so a rerun of the update with the same values changes nothing |
| Strings.Trim | api/src/jobs/summarize.rs:44 | `str::trim`: no longer than the input, neither starts nor ends with whitespace, and is empty only for an all-whitespace input |
| Download.DirChar | api/src/jobs/download.rs:59 | alphanumerics are kept and every other character becomes '_' |
| Download.Dirname | api/src/jobs/download.rs:56-60 | the directory name has the URL's length, mapped character by character |
| Download.DirnameSafe | api/src/jobs/download.rs:56-61 | the directory name holds only alphanumerics and '_', so no '/' |
| Download.DirnameIdempotent | api/src/jobs/download.rs:56-60 | sanitising a directory name again changes nothing |
| Download.DirnameKeepsAlphanumeric | api/src/jobs/download.rs:59 | an all-alphanumeric URL is its own directory name |
| Download.JoinPath | api/src/jobs/download.rs:61 | joining keeps the directory as a prefix and the name as a suffix |
| Download.StrField | api/src/jobs/download.rs:35-44 | a string field reads only when present with a string value |
| Download.ParseInfoJson | api/src/jobs/download.rs:84-88 | the info file parses only as an object holding all eight fields, with a duration that fits in usize; any failure is ReadingInfoJson |
| Download.EncodeInfoJson | api/src/jobs/download.rs:34-44 | the serialised info file holds exactly the eight fields |
| Download.InfoJsonRoundTrip | api/src/jobs/download.rs:34-44 | parsing the serialised info file gives it back |
| Download.MissingFieldRejected | api/src/jobs/download.rs:87-88 | a file lacking any of the eight fields is rejected with ReadingInfoJson |
| Download.ExtraKeysDropped | api/src/jobs/download.rs:87-88 | other keys change nothing and do not reach the stored metadata |
| Download.VideoStorageKey | api/src/jobs/download.rs:101 | the video key is the directory name, "/video." and the extension |
| Download.VideoKeySingleSeparator | api/src/jobs/download.rs:101 | with slash-free parts the video key holds exactly one '/', right after the directory name |
| Download.InfoJsonStorageKey | api/src/jobs/download.rs:83-91 | the info file key starts with the temporary directory and ends with "/video.info.json" |
| Download.AsI32 | api/src/jobs/download.rs:137 | `as i32` gives a value in the i32 range congruent to the duration modulo 2^32, unchanged below 2^31 |
| Download.Run | api/src/jobs/download.rs:47-146 | each failing step gives its error and stops; success uploads the info file then the video and records title, duration, video key, the re-serialised info file and the downloaded state |
| Download.RunRecordsInfo | api/src/jobs/download.rs:126-143 | when every step succeeds the metadata holds exactly the eight info fields and the processed path begins with the sanitised directory name |
| Transcribe.SendRequest | api/src/jobs/transcribe.rs:79-133 | storage and transport failures are final; an error status fails and is retried exactly for 5xx, 429 and 408; a success passes the body on |
| Transcribe.RetryOnlyTranscribeErrors | api/src/jobs/transcribe.rs:121-132 | a retryable result is always a Transcribe error |
| Transcribe.ShouldRetry | api/src/jobs/transcribe.rs:34-37 | the `.when` predicate: retry exactly on an error flagged retryable; `Transcribe.RetrySend` states the loop it drives |
| Transcribe.RetrySend | api/src/jobs/transcribe.rs:32-38 | at most four calls; every call before the last was retryable, and the last is returned; fewer than four calls means the last was not retryable |
| Transcribe.FirstSettledCallIsFinal | api/src/jobs/transcribe.rs:34-38 | a first call that is not retryable is the only call |
| Transcribe.DurationPatch | api/src/jobs/transcribe.rs:58-62 | the patch holds only `transcription.duration`, the elapsed seconds |
| Transcribe.Run | api/src/jobs/transcribe.rs:26-77 | a call error ends the job with its error; an empty body is a Transcribe error; a committed row has the tagged transcript and the merged metadata; summarisation is enqueued with the video id exactly when the job finishes |
| Transcribe.TranscriptTagged | api/src/jobs/transcribe.rs:48-49 | the stored transcript carries `_provider_format: "deepgram_v1"` and keeps every other key |
| Transcribe.MetadataMerged | api/src/jobs/transcribe.rs:54 | concatenating the patch onto the metadata overwrites the transcription entry and keeps every other key |
| Transcribe.RunJob | api/src/jobs/transcribe.rs:26-77 | the job is `run` applied to what the retrying call returns |
| Transcribe.StorageFailureNotRetried | api/src/jobs/transcribe.rs:85-91 | an audio storage failure ends the job after one call with StorageDownload, committing nothing |
| Summarize.TranscriptText | api/src/jobs/summarize.rs:28-44 | a NULL column, a missing pointer target or a non-string value all give NoTranscript; otherwise the text at the paragraph-transcript pointer, trimmed |
| Summarize.TokensHaveNoSlash | api/src/jobs/summarize.rs:40 | the JSON pointer splits into seven tokens, none containing '/' |
| Summarize.PointerReachesTranscript | api/src/jobs/summarize.rs:40 | the JSON pointer walks results, channel 0, alternative 0, paragraphs and transcript |
| Summarize.TranscriptOfResponse | api/src/jobs/summarize.rs:39-44 | a well-formed response yields its transcript text, trimmed |
| Summarize.NoResultsNoTranscript | api/src/jobs/summarize.rs:39-43 | a response without `results` gives NoTranscript |
| Summarize.UserContent | api/src/jobs/summarize.rs:52 | the user message is the prefix, ":\n\n" and the text, so the colon is doubled and the text ends the message |
| Summarize.SummaryRequest | api/src/jobs/summarize.rs:46-55 | the request holds exactly model, max_tokens 768, temperature 0.5, the system prompt, and the user and assistant messages |
| Summarize.RequestsDifferOnlyInText | api/src/jobs/summarize.rs:46-55 | two requests are equal exactly when their transcripts are, and the assistant message never varies |
| Summarize.SummaryText | api/src/jobs/summarize.rs:74-77 | the summary is `content[0].text` when that is a string, otherwise Summarizing |
| Summarize.SummaryOfReply | api/src/jobs/summarize.rs:74-77 | a reply whose first content block has a text gives that text |
| Summarize.Run | api/src/jobs/summarize.rs:24-90 | a missing transcript fails with NoTranscript before any request; an update happens exactly on success, and it stores the reply's summary and the Ready state |
| Summarize.RerunOverwrites | api/src/jobs/summarize.rs:80-87 | the update depends only on the transcript and the reply, so running again stores the same summary |
| Chunking.Floor | viewer/src/lib/align.ts:58 | `Math.floor`: the largest integer not above the argument |
| Chunking.Ceil | viewer/src/lib/align.ts:57 | `Math.ceil`: the smallest integer not below the argument |
| Chunking.JoinText | viewer/src/lib/align.ts:68-72 | a space goes between exactly when the chunk has text, the piece does not start with a space and the chunk does not end with one; otherwise plain concatenation |
| Chunking.Groups | viewer/src/lib/align.ts:38-79 | the grouping of a non-empty transcript has between one and as many groups as pieces, none empty |
| Chunking.Chunks | viewer/src/lib/align.ts:38-79 | at least one chunk and never more chunks than pieces |
| Chunking.GroupsPartition | viewer/src/lib/align.ts:38-79 | the groups, concatenated, are the pieces in order: no piece is lost, repeated or moved |
| Chunking.GroupsWindows | viewer/src/lib/align.ts:44-53 | every piece starts within one interval of its group's first piece, and each group starts more than one interval after the previous one |
| Chunking.ChunkStartsIncrease | viewer/src/lib/align.ts:53-65 | chunk starts strictly increase |
| Chunking.FillEnd | viewer/src/lib/align.ts:73-76 | a chunk's end is the largest of its opening end and its pieces' ends, and its start and images are untouched |
| Chunking.ChunkSpan | viewer/src/lib/align.ts:61-76 | a chunk starts at its first piece's start and ends at the latest end among its pieces, never before its start |
| Chunking.PartialStep | viewer/src/lib/align.ts:44-78 | one more piece either opens a new chunk that it joins, or joins the last chunk |
| Chunking.PartialFirst | viewer/src/lib/align.ts:21-32 | the first chunk opens at the first piece's start and takes the first piece |
| Chunking.GroupsJoin | viewer/src/lib/align.ts:66-78 | a piece within the last group's window joins that group |
| Chunking.GroupsOpen | viewer/src/lib/align.ts:53-65 | a piece beyond the last group's window opens a new group |
| Chunking.SmallPiecesChunks | viewer/src/lib/align.test.ts:36-70 | the six test pieces with a 10-second interval form the chunks "a b c" over [0, 11] and "d e f" over [11, 14] before the last chunk is stretched |
| Chunking.LargerPiecesChunks | viewer/src/lib/align.test.ts:72-117 | the six pieces of the `text chunks somewhat larger than image interval` test with a 10-second interval form "a b" over [0, 15], "c" over [15, 31], "d e" over [31, 45] and "f" over [45, 50] before the last chunk is stretched |
| Chunking.SpanningPiecesChunks | viewer/src/lib/align.test.ts:119-183 | the three pieces of the `text chunks span multiple image intervals` and `no text at start of video` tests, first piece starting at any time before 23 seconds, form "a" up to 33 and "b c" over [33, 50] |
| ViewerAlign.Close | viewer/src/lib/align.ts:56-59 | a closed chunk keeps its span and text and gets images from the ceiling of its start to the floor of its end |
| ViewerAlign.CloseAll | viewer/src/lib/align.ts:53-65 | every chunk closed in place |
| ViewerAlign.CloseButLast | viewer/src/lib/align.ts:44-65 | all chunks but the open last one are closed |
| ViewerAlign.FinishLast | viewer/src/lib/align.ts:81-86 | the last chunk's end is raised to the last image's time and both image indices are clamped to the last image |
| ViewerAlign.AlignChunks | viewer/src/lib/align.ts:81-91 | one output chunk per chunk of the grouping |
| ViewerAlign.AppendText | viewer/src/lib/align.ts:69-72 | the two-step append gives the space rule's result |
| ViewerAlign.BuildingStart | viewer/src/lib/align.ts:21-32 | the output starts with an empty chunk at the first piece's start, before any piece is seen |
| ViewerAlign.CloseStep | viewer/src/lib/align.ts:53-65 | closing the current chunk and opening one at the piece keeps the loop state; a just-opened chunk is never closed |
| ViewerAlign.AbsorbStep | viewer/src/lib/align.ts:66-78 | adding the piece to the current chunk advances the loop state by one piece |
| ViewerAlign.BuildingDone | viewer/src/lib/align.ts:79-86 | after the loop the output is the grouping's chunks with all but the last closed, and finishing the last gives the result |
| ViewerAlign.Align | viewer/src/lib/align.ts:3-92 | null gives null, an empty transcript throws, otherwise the title with the grouped, closed and finished chunks |
| ViewerAlign.AlignedChunks | viewer/src/lib/align.ts:53-65 | every output chunk keeps its grouping chunk's start and text, all but the last are closed without clamping, and starts strictly increase |
| ViewerAlign.LastChunkClamped | viewer/src/lib/align.ts:81-86 | the last chunk ends no earlier than the last image's time or its own end, and both of its indices are at most the last image |
| ViewerAlign.SingleChunkTest | viewer/src/lib/align.test.ts:9-34 | one piece over [0, 1000] with 20 images gives one chunk over images 0 to 19 |
| ViewerAlign.SmallChunksTest | viewer/src/lib/align.test.ts:36-70 | six short pieces with 3 images give "a b c" over images 0 to 1 and "d e f" stretched to 20 seconds, clamped to image 2 |
| ViewerAlign.LargerChunksTest | viewer/src/lib/align.test.ts:72-117 | with 7 images the four chunks get images 0-1, 2-3, 4-4 and, stretched to 60 seconds, 5-6 |
| ViewerAlign.SpanningChunksTest | viewer/src/lib/align.test.ts:119-183 | with 6 images, "a" starting at 0 gets images 0-3 and starting at 15 gets 2-3; "b c" over [33, 50] gets 4-5 |
| AppAlign.Clamp | app/src/lib/align.ts:67-72 | a chunk keeps its span and text; its images run from the ceiling of its start to the floor of its end, both clamped to the last image |
| AppAlign.Stretch | app/src/lib/align.ts:64-65 | only the last chunk changes, and only its end, raised to at least the last image's time |
| AppAlign.AppChunks | app/src/lib/align.ts:3-75 | one chunk per chunk of the grouping |
| AppAlign.GrowingStart | app/src/lib/align.ts:14-21 | the output starts with an empty chunk at the first piece's start |
| AppAlign.OpenStep | app/src/lib/align.ts:38-44 | a piece beyond the current chunk's window opens a chunk at its start, keeping the loop state |
| AppAlign.JoinStep | app/src/lib/align.ts:45-61 | a piece within the window joins the current chunk and advances the loop state by one piece |
| AppAlign.GrowingDone | app/src/lib/align.ts:62-65 | after the loop the output is the grouping's chunks, and stretching the last gives the stretched chunks |
| AppAlign.ClampedUpTo | app/src/lib/align.ts:67-72 | the second loop's state: the first `i` chunks have their ranges set and the rest are untouched |
| AppAlign.ClampedNone | app/src/lib/align.ts:67 | before the second loop nothing is clamped |
| AppAlign.ClampedStep | app/src/lib/align.ts:68-71 | setting chunk `i`'s range extends the clamped prefix by one |
| AppAlign.ClampedAll | app/src/lib/align.ts:67-74 | with every range set the result is the app's chunks |
| AppAlign.SetImageRanges | app/src/lib/align.ts:67-72 | the second loop sets every chunk's clamped image range and changes nothing else |
| AppAlign.Align | app/src/lib/align.ts:3-75 | an empty transcript throws; otherwise the grouped chunks, the last stretched, every one clamped |
| AppAlign.EveryChunkClamped | app/src/lib/align.ts:64-72 | every chunk keeps the grouping's start and text, only the last end moves, and every image range is clamped to `maxIndex` |
| AppAlign.AgreesWithViewer | app/src/lib/align.ts:3-75 | the app and the viewer build the same spans and texts; the app's ranges are the viewer's clamped to `maxIndex` |
| AppAlign.AppChunksOfOne | app/src/lib/align.ts:14-72 | one piece makes one chunk, stretched and clamped |
| AppAlign.SingleChunkTest | app/src/lib/align.test.ts:5-27 | one piece over [0, 1000] with `maxIndex` 19 gives one chunk over images 0 to 19 |
| AppAlign.ClampOfSingle | app/src/lib/align.test.ts:18-24 | the chunk over [0, 1000] clamps to images 0 to 19 |
| AppAlign.SmallChunksTest | app/src/lib/align.test.ts:29-63 | the six short pieces with `maxIndex` 2 give "a b c" over images 0 to 1 and "d e f" over [11, 20], images 2 to 2 |
| AppAlign.LargerChunksTest | app/src/lib/align.test.ts:65-110 | with `maxIndex` 6 the four chunks get images 0-1, 2-3, 4-4 and, stretched to 60 seconds, 5-6 |
| AppAlign.SpanningChunksTest | app/src/lib/align.test.ts:112-175 | with `maxIndex` 5, "a" starting at 0 gets images 0-3 and starting at 15 gets 2-3; "b c" over [33, 50] gets 4-5 |
| DocAlign.SatU64 | src/pages/docs/_doc_id.rs:92 | `as u64` on a whole number saturates: negatives give 0, values past `u64::MAX` give `u64::MAX`, others are kept |
| DocAlign.RawIndex | src/pages/docs/_doc_id.rs:79-97 | the ceiling or floor of time over interval, cast saturating; a zero interval gives `u64::MAX` for a positive time and 0 otherwise |
| DocAlign.ClampIndex | src/pages/docs/_doc_id.rs:92-97 | `.max(1).min(max_index)` never exceeds max_index and is at least 1 when max_index is; `DocAlign.ClampIndexBounds` gives the exact values |
| DocAlign.ClampIndexBounds | src/pages/docs/_doc_id.rs:92-97 | `.max(1).min(max_index)` lands in [1, max_index] when max_index is at least 1 and gives 0 when it is 0; an index already in range is kept |
| DocAlign.SentenceTexts | src/pages/docs/_doc_id.rs:83-86 | no more texts than sentences |
| DocAlign.SentenceTextsAllStrings | src/pages/docs/_doc_id.rs:83-87 | sentences that all have string texts contribute every text, in order |
| DocAlign.SentenceWithoutTextSkipped | src/pages/docs/_doc_id.rs:86 | a sentence without a string text is skipped |
| DocAlign.ParagraphChunk | src/pages/docs/_doc_id.rs:82-104 | a paragraph gives a chunk exactly when it has a sentence list; the text is the sentence texts joined by spaces and the indices are the clamped ceiling of the start and floor of the end, with missing times read as 0 |
| DocAlign.ChunksOf | src/pages/docs/_doc_id.rs:80-105 | no more chunks than paragraphs |
| DocAlign.Kept | src/pages/docs/_doc_id.rs:82-84 | positions of paragraphs, each within range |
| DocAlign.Paragraphs | src/pages/docs/_doc_id.rs:72-77 | the nested paragraph array, or none; a transcript whose `results` is not an object has none, and `DocAlign.Align` states that none gives no chunks |
| DocAlign.Align | src/pages/docs/_doc_id.rs:67-108 | no images, no transcript or no paragraph array gives no chunks; otherwise the chunks of the paragraphs |
| DocAlign.KeptPositions | src/pages/docs/_doc_id.rs:82-84 | kept positions increase and a paragraph is kept exactly when it has a sentence list |
| DocAlign.ChunksFollowParagraphs | src/pages/docs/_doc_id.rs:80-105 | one chunk per paragraph with a sentence list, chunk k coming from the k-th such paragraph |
| DocAlign.ChunkIndexBounds | src/pages/docs/_doc_id.rs:92-97 | every chunk's indices lie in [1, max_index], or are both 0 when max_index is 0 |
| DocAlign.MissingTimesGiveFirstImage | src/pages/docs/_doc_id.rs:89-97 | a paragraph without times starts and ends at image 1, or 0 when max_index is 0 |
| DocAlign.RenderedImages | src/pages/docs/_doc_id.rs:161-179 | the page shows every index from start to end inclusive, each marked removed exactly when the index cast `as u32` is in the removed set |
| DocAlign.RenderedRange | src/pages/docs/_doc_id.rs:117-166 | a range whose start is past its end shows nothing, and an index below 2^32 is drawn as removed exactly when `images.removed` lists it |
| DocAlign.RenderedWrapsAtU32 | src/pages/docs/_doc_id.rs:165-166 | an index of 2^32 + j is drawn as removed exactly when j is listed, because of the `as u32` cast |
| WebAlign.WebIndex | web/src/lib/align.ts:25-26 | `max(1, min(raw, numImages - 1))` is at least 1, at most the last image when there are two or more, and keeps an in-range index |
| WebAlign.ParagraphChunk | web/src/lib/align.ts:19-31 | a paragraph's chunk has its times, its sentences joined by spaces, and two image indices of at least 1 and at most max_index |
| WebAlign.Align | web/src/lib/align.ts:4-33 | no images or no transcript gives no chunks; a missing first channel or alternative throws; missing paragraphs give no chunks; otherwise one chunk per paragraph, in order |
| WebAlign.ClampOrdersAgree | web/src/lib/align.ts:25-26 | the web app's clamp and the Rust page's agree whenever max_index is at least 1, and give 1 against 0 when it is 0 |
| Queries.AsStr | src/models/video/queries.rs:57-62 | each field's column name is "updated_at" or "created_at" |
| Queries.FromStr | src/models/video/queries.rs:74-82 | exactly the two column names parse, each to the field it names; anything else is InvalidField |
| Queries.FromStrOfAsStr | src/models/video/queries.rs:57-82 | `from_str` undoes `as_str` |
| Queries.AllowedDirection | src/models/video/queries.rs:64-68 | every field accepts both directions |
| Queries.ParseOrderBy | src/models/video/queries.rs:85-94 | a parsed order is descending exactly when the text starts with '-', and the text is that optional '-' followed by the field's name; failures are InvalidField |
| Queries.ParseOrderByExactly | src/models/video/queries.rs:85-94 | exactly the four texts "updated_at", "created_at", "-updated_at" and "-created_at" parse |
| Queries.ParseOrderByOfName | src/models/video/queries.rs:85-94 | every field parses from its name ascending and from '-' plus its name descending |
| Queries.DoubleDashRefused | src/models/video/queries.rs:86-89 | only one '-' is stripped, so "--updated_at" is InvalidField |
| Queries.OrderClause | src/models/video/queries.rs:210-218 | with no order the clause is "updated_at DESC"; otherwise the parsed field's name and direction, failing exactly when parsing fails |
| Queries.PerPage | src/models/video/queries.rs:146-152 | the page size is between 1 and 200, 50 by default, a requested size in range is kept, larger ones give 200 and 0 gives 1 |
| Queries.Offset | src/models/video/queries.rs:153 | with no page the offset is 0 |
| Queries.PagesAdjacent | src/models/video/queries.rs:146-155 | page p + 1 starts where page p ends, so no row is skipped or repeated |
| Queries.Entry | src/models/video/queries.rs:96-110 | each present filter pairs its column with the operator and value kind that column compares against |
| Queries.PresentUpTo | src/models/video/queries.rs:116-138 | no more present filters than filters considered |
| Queries.Present | src/models/video/queries.rs:113-143 | at most six filters are present |
| Queries.PresentTyped | src/models/video/queries.rs:116-138 | every present filter's value has the kind its column compares against |
| Queries.Numbered | src/models/video/queries.rs:114-138 | one condition per present filter |
| Queries.NumberedAt | src/models/video/queries.rs:114-138 | the k-th present filter reads placeholder 5 + k |
| Queries.WhereUpToNumbered | src/models/video/queries.rs:114-138 | each filter considered adds its condition with the next placeholder, so the conditions are the present filters numbered in order |
| Queries.BuildWhereClause | src/models/video/queries.rs:113-143 | the conditions are the present filters, in source order, numbered from $5 |
| Queries.Values | src/models/video/queries.rs:157-185 | one bound value per present filter |
| Queries.ValuesAt | src/models/video/queries.rs:157-185 | the k-th filter value bound follows the earlier ones |
| Queries.BoundUpToValues | src/models/video/queries.rs:157-185 | each filter considered binds its value after the earlier ones |
| Queries.BindToQuery | src/models/video/queries.rs:145-188 | the query gets the page size, the offset, then each present filter's value, in order, after what it already held |
| Queries.ListBindings | src/models/video/queries.rs:222-228 | four fixed values precede the filter values |
| Queries.ConditionsMatchBindings | src/models/video/queries.rs:113-188 | each condition's placeholder $n receives the value of the very filter it tests |
| Queries.DefaultRequest | src/models/video/queries.rs:146-153 | a request without filters has no conditions, binds page size 50 and offset 0, and orders by "updated_at DESC" |
| Clock.TruncDiv | src/pages/mod.rs:165-166 | Rust's `/` on `i32`: the Euclidean quotient for non-negative dividends, truncated toward zero for negative ones |
| Clock.TruncRem | src/pages/mod.rs:166-167 | Rust's `%`: quotient times divisor plus remainder gives the dividend, and the remainder takes the dividend's sign |
| Clock.PartsRecompose | src/pages/mod.rs:164-167 | for a non-negative duration, hours, minutes below 60 and seconds below 60 recompose it |
| Clock.SplitJoin | web/src/lib/format.ts:11 | fields joined by a separator none of them contains split back into the same fields |
| Clock.Pad2Digits | web/src/lib/format.ts:11 | a padded field is a digit string of the same value, at least two digits long, exactly two below 100 |
| Clock.Pad2OfDigit | web/src/lib/format.ts:11 | a single digit gets one leading zero |
| Clock.ClockOfTwo | web/src/lib/format.ts:6-11 | two fields read back as minutes times 60 plus seconds |
| Clock.ClockOfThree | web/src/lib/format.ts:6-11 | three fields read back as hours times 3600, minutes times 60 and seconds |
| Format.Segments | web/src/lib/format.ts:2-9 | two fields, minutes and seconds, below an hour; hours, minutes and seconds otherwise |
| Format.Fields | web/src/lib/format.ts:11 | one padded field per segment |
| Format.FieldsWellFormed | web/src/lib/format.ts:11 | every field is a digit string of at least two digits without ':' |
| Format.FieldsSplitBack | web/src/lib/format.ts:11 | the joined fields split on ':' into the same fields |
| Format.ClockOfTwoFields | web/src/lib/format.ts:11 | padded minutes and seconds read back as their seconds |
| Format.ClockOfThreeFields | web/src/lib/format.ts:11 | padded hours, minutes and seconds read back as their seconds |
| Format.ClockOfShort | web/src/lib/format.ts:6-11 | below an hour the text has two fields worth the duration |
| Format.ClockOfLong | web/src/lib/format.ts:6-11 | from an hour on the text has three fields worth the duration |
| Format.FormatDurationRoundTrip | web/src/lib/format.ts:1-12 | the text splits into two fields below an hour and three from an hour on, each of at least two digits, and read back in base 60 they give the duration |
| Format.FormatDuration | web/src/lib/format.ts:1-12 | `formatDuration`; what its text means is stated by `Format.FormatDurationRoundTrip` (fields, padding, base-60 value) and `Format.FormatOfOneHour` |
| Format.FormatOfOneHour | web/src/lib/format.ts:1-12 | 3725 seconds format as "01:02:05" |
| Pages.RenderTo | src/pages/mod.rs:162-174 | the buffer grows by exactly the duration text |
| Pages.AppendClockText | src/pages/mod.rs:169-172 | writing the hours, then minutes and seconds, appends the whole clock text |
| Pages.ZeroPadOfNat | src/pages/mod.rs:172 | `{:02}` of a non-negative number is the same two-digit padding the web app uses |
| Pages.ClockTextOfNats | src/pages/mod.rs:169-172 | the text is the unpadded hours and ':' when there are hours, then padded minutes ':' padded seconds |
| Pages.NoDurationText | src/pages/mod.rs:164-172 | a video without a duration shows "00:00" |
| Pages.DurationText | src/pages/mod.rs:160-174 | the text `render_to` writes; `Pages.DurationRoundTrip` and `Pages.DurationAgreesWithFormat` state what it means |
| Pages.ClockFields | src/pages/mod.rs:169-172 | three fields when there are hours, two otherwise |
| Pages.ClockTextJoin | src/pages/mod.rs:169-172 | for non-negative parts the text is its fields joined by ':' |
| Pages.ClockFieldsDigits | src/pages/mod.rs:169-172 | every field of the clock text, the hours in decimal and the padded minutes and seconds, is a digit string without ':', so splitting on ':' cannot cut one |
| Pages.ClockFieldsValue | src/pages/mod.rs:169-172 | every field is a digit string without ':', and read back in base 60 they give the parts' seconds |
| Pages.DurationRoundTrip | src/pages/mod.rs:160-174 | a non-negative duration's text splits into two fields below an hour and three from an hour on, minutes and seconds have two digits, and the fields read back give the duration |
| Pages.Pad2OfTwoDigits | src/pages/mod.rs:172 | a number of two or more digits is not padded |
| Pages.AgreeBelowAnHour | src/pages/mod.rs:160-174 | below an hour the Rust page and the web app print the same text |
| Pages.AgreeFromAnHour | src/pages/mod.rs:169-172 | from an hour on the two texts differ only in whether the hours field is padded |
| Pages.AgreeFromTenHours | src/pages/mod.rs:160-174 | from ten hours on both texts are equal |
| Pages.ZeroBelowTenHours | src/pages/mod.rs:169-170 | from one to ten hours the web app's text has one more leading zero |
| Pages.DurationAgreesWithFormat | src/pages/mod.rs:160-174 | the two duration texts agree below an hour and from ten hours on, and differ by a leading zero between |
| Pages.MarkReadIcon | src/pages/mod.rs:113-119 | the envelope icon exactly for `read`, the open envelope otherwise |
| Pages.BoolText | src/pages/mod.rs:137-138 | a boolean displays as "true" or "false" |
| Pages.ValsText | src/pages/mod.rs:136-139 | the `hx-vals` text; `Pages.ValsRoundTrip` states that it reads back as its payload |
| Pages.ParseBool | src/pages/mod.rs:107-111 | a parsed boolean is the text's leading "true" or "false" |
| Pages.ParseBoolText | src/pages/mod.rs:107-111 | a displayed boolean parses back |
| Pages.ParseVals | src/pages/mod.rs:107-111 | a parsed payload is exactly the `hx-vals` text written from it |
| Pages.ValsRoundTrip | src/pages/mod.rs:136-139 | the button's `hx-vals` reads back as the payload it was written from |
| Pages.MarkReadFragment | src/pages/mod.rs:121-145 | the button posts the opposite read flag and the list's mode, deletes its row exactly when it marks a video read in an unread-only list, and shows the icon for the next state |
| Pages.MarkReadAction | src/pages/mod.rs:147-158 | the stored flag becomes the posted one and the answer is the button for the new state |
| Pages.ClickToggles | src/pages/mod.rs:121-158 | a click flips the flag and keeps the mode; the new button offers the flip back, so a second click restores the video |
| Pages.HomeUnreadOnly | src/pages/mod.rs:307-318 | the list is unread-only unless the query says otherwise |
| Pages.VideoListFilters | src/pages/mod.rs:267-276 | 50 per page, ordered by "-created_at", with `read = false` only in unread-only mode |
| Pages.VideoListQuery | src/pages/mod.rs:267-277 | the list query's only filter is the read condition in unread-only mode, it orders by "created_at DESC" and binds the first page of 50 |
| Pages.RowRemovedIffUnlisted | src/pages/mod.rs:121-128 | the button deletes its row exactly when the click takes the video out of the list being shown |
| Pages.ToggleFlips | src/pages/mod.rs:281-285 | following the switch link shows the other mode |
| Pages.ToggleHref | src/pages/mod.rs:281-285 | the switch link's target; `Pages.ToggleFlips` states that following it shows the other mode |
| Pages.HrefUnreadOnly | src/pages/mod.rs:307-318 | the `unread_only` the home page reads from such a link |
| Pages.VideoRow | src/pages/mod.rs:193-260 | a row polls every five seconds exactly when the video is not ready; a ready row links to the document and shows the title, the duration and the mark-read button; otherwise the title or URL and the state |
| Pages.RowLifecycle | src/pages/mod.rs:193-260 | a listed row stops polling exactly when it offers the mark-read button, which deletes the row exactly in unread-only mode |
| AppServer.MaxId | app/src/lib/server/data.ts:114 | the reduce gives 0 or an id in use, and no id exceeds it |
| AppServer.NewId | app/src/lib/server/data.ts:114 | a new id is positive and greater than every id in use |
| AppServer.FindIndex | app/src/lib/server/data.ts:83-86 | the position of the first item with the id, or none when no item has it |
| AppServer.FindByPath | app/src/lib/server/data.ts:104-107 | the position of the first item stored under the path, or none when no item is |
| AppServer.Without | app/src/lib/server/data.ts:130-134 | exactly the items whose id differs are kept |
| AppServer.WithoutConcat | app/src/lib/server/data.ts:132 | the filter keeps order: it distributes over concatenation |
| AppServer.WithoutAbsent | app/src/lib/server/data.ts:132 | removing an id no item has changes nothing |
| AppServer.MigratedItems | app/src/lib/server/data.ts:22-39 | migration keeps the number of items |
| AppServer.FilledItems | app/src/lib/server/data.ts:50-57 | after the start-up pass every item has reader state and every id is kept in place |
| AppServer.MigrationTestAsWritten | app/src/lib/server/data.ts:45 | as written the test is taken exactly when the version is not 0 |
| AppServer.MigrationNeeded | app/src/lib/server/data.ts:20-25 | the intended test is taken exactly when the version, 0 when absent, is below 2 |
| AppServer.LoadedAsWritten | app/src/lib/server/data.ts:41-57 | as written, a version-0 config keeps version 0 and any other is marked 2; the items keep their number and all get reader state |
| AppServer.Loaded | app/src/lib/server/data.ts:41-57 | with the intended test, a config older than 2 is marked 2 and a newer one keeps its version; the items keep their number and all get reader state |
| AppServer.MigrationTestCounterexamples | app/src/lib/server/data.ts:41-57 | as written a version-0 config is neither migrated nor marked current, and a version-3 config is marked as 2 |
| AppServer.LoadedIsCurrent | app/src/lib/server/data.ts:41-57 | with the intended test a loaded config is at least version 2, every item has reader state, ids stay in order, and items from before version 1 start unread |
| AppServer.LoadedIdempotent | app/src/lib/server/data.ts:41-57 | loading a loaded config again changes nothing |
| AppServer.Applied | app/src/lib/server/data.ts:161-200 | an update keeps the item's id and its reader state present |
| AppServer.UpdatesAreLocal | app/src/lib/server/data.ts:161-200 | each reader-state update sets one field; flagging an error sets the status and the message; finishing overlays every field of the result, clears any recorded error (the result's `process` record has none), marks the item complete and keeps read flag and progress |
| AppServer.UpdatedItems | app/src/lib/server/data.ts:79-94 | an update keeps the number of items and their reader state present |
| AppServer.UpdateResult | app/src/lib/server/data.ts:83-93 | an updated item is answered exactly when an item has the id |
| AppServer.UpdateOnlyTarget | app/src/lib/server/data.ts:79-94 | an update changes only the first item with the id, keeps every id in place and so keeps ids distinct; without such an item nothing changes |
| AppServer.NewItem | app/src/lib/server/data.ts:116-123 | a new item has the new id, the loaded path and fresh reader state |
| AppServer.LoadNew | app/src/lib/server/data.ts:97-128 | an item already under the path is answered unchanged; otherwise a failed read adds nothing and a successful one appends a new item under a new id |
| AppServer.LoadNewAddsFreshOnce | app/src/lib/server/data.ts:97-128 | loading keeps the stored items and keeps ids distinct; when the config's `processedPath` equals the path looked up, loading the same path again adds nothing |
| AppServer.LoadNewAgainAppends | app/src/lib/server/data.ts:97-128 | when the path looked up differs from the `processedPath` that `loadItem` records (the directory's base name, data.ts:215), loading the same path again appends a second item for the same directory under a larger id |
| AppServer.ReloadAsWrittenDrops | app/src/lib/server/data.ts:136-159 | as written, reloading answers null and removes every item with the id |
| AppServer.ReloadAsWritten | app/src/lib/server/data.ts:136-159 | as written, reloading never answers an item |
| AppServer.ReloadKeepsItem | app/src/lib/server/data.ts:136-159 | the intended reload keeps every item and id in place, replaces only the item with the id by its re-read config with its reader state kept, and answers it exactly when it was found and read |
| AppServer.Reload | app/src/lib/server/data.ts:139-158 | the intended reload keeps the number of items and answers an item exactly when the id is stored and its config could be read |
| AppServer.ImageFileNameOfFrame | app/src/lib/server/data.ts:245 | the image file for index `id` is the extractor's file of frame `id + 1` |
| AppServer.ImageFileName | app/src/lib/server/data.ts:245 | the file `loadImage` opens; `AppServer.ImageFileNameOfFrame` states that it is the extractor's name of frame `id + 1` |
| AppServer.ItemStore.Fresh | app/src/lib/server/data.ts:58-66 | a config that cannot be read is replaced by an empty current one |
| AppServer.ItemStore.Load | app/src/lib/server/data.ts:41-57 | the store holds the loaded config under the intended migration test |
| AppServer.ItemStore.MigrateConfig | app/src/lib/server/data.ts:22-39 | items before version 1 get fresh reader state, in place, and the version becomes 2 |
| AppServer.ItemStore.FillMissingViewerData | app/src/lib/server/data.ts:50-57 | every item lacking reader state gets fresh state, in place |
| AppServer.ItemStore.GetItem | app/src/lib/server/data.ts:220-222 | an item is found exactly when one has the id, and the one found has it |
| AppServer.ItemStore.UpdateItem | app/src/lib/server/data.ts:79-94 | the items become the updated items and the answer is the updated item |
| AppServer.ItemStore.UpdateReadState | app/src/lib/server/data.ts:161-165 | the read flag of the item is set |
| AppServer.ItemStore.UpdateReadProgress | app/src/lib/server/data.ts:167-171 | the progress of the item is set |
| AppServer.ItemStore.UpdateProcessStatus | app/src/lib/server/data.ts:173-177 | the processing status of the item is set |
| AppServer.ItemStore.FlagProcessingError | app/src/lib/server/data.ts:179-187 | the item is marked in error with the message |
| AppServer.ItemStore.FinishProcessing | app/src/lib/server/data.ts:189-200 | the result is overlaid on the item, replacing a recorded error, and it is marked complete |
| AppServer.ItemStore.LoadNewItem | app/src/lib/server/data.ts:97-128 | the items and the answer are those of loading the path |
| AppServer.ItemStore.DeleteItem | app/src/lib/server/data.ts:130-134 | the items become those without the id |
| AppServer.ItemStore.ReloadItemAsWritten | app/src/lib/server/data.ts:136-159 | the as-written reload: filter, then look up what remains |
| AppServer.ItemStore.ReloadItem | app/src/lib/server/data.ts:139-158 | the intended reload in place |
| AppServer.ItemStore.LoadImage | app/src/lib/server/data.ts:235-249 | nothing for an unknown item or an index past the last image; otherwise the item's directory and the padded file name |
| AppServer.ItemStore.EnqueueNewItem | app/src/lib/server/data.ts:251-278 | a queued placeholder under a new id is appended and handed to the queue |
| AppServer.ItemStore.ReprocessItem | app/src/lib/server/data.ts:280-288 | a known item is queued again with its original path; an unknown one leaves the queue as it was |
| AppServer.QueuedItem | app/src/lib/server/data.ts:254-271 | the placeholder has the new id, the input as its original path and the queued status, unread |
| AppServer.EnqueueKeepsIdsDistinct | app/src/lib/server/data.ts:251-273 | enqueueing keeps the stored items and distinct ids, and the new item is found under its id |
| AppServer.GetFirst | app/src/lib/server/data.ts:220-222 | a found item has the id asked for |
| AppServer.AfterRun | app/src/lib/server/process_queue.ts:26-32 | the end of a run keeps the number of items and their reader state present |
| AppServer.RunOutcomeRecorded | app/src/lib/server/process_queue.ts:26-32 | a successful run marks its item complete with the result and no recorded error, a failed one marks it in error with the message, and no other item changes |
| AppServer.ProcessQueue.constructor | app/src/lib/server/process_queue.ts:8-9 | the queue starts empty and idle |
| AppServer.ProcessQueue.QueueItem | app/src/lib/server/process_queue.ts:11-21 | an entry starts at once exactly when nothing waits or runs, and otherwise waits at the back; either way a run is then in flight |
| AppServer.ProcessQueue.StartProcessing | app/src/lib/server/process_queue.ts:23-24 | starting a run marks the queue busy with that entry |
| AppServer.ProcessQueue.Complete | app/src/lib/server/process_queue.ts:23-43 | the run's outcome is recorded on its item, then the front entry starts or the queue goes idle |
| AppServer.FirstInFirstOut | app/src/lib/server/process_queue.ts:11-43 | entries start in the order they were accepted, the rest wait in that order, and entries wait only while a run is in flight |
| ViewerData.MaxId | viewer/src/lib/server/data.ts:55 | the reduce gives 0 or more, and no stored id exceeds it |
| ViewerData.FindIndex | viewer/src/lib/server/data.ts:77-79 | the position of the first document with the id, or none when no document has it |
| ViewerData.FindByPath | viewer/src/lib/server/data.ts:41-44 | the position of the first document stored under the path, or none when none is |
| ViewerData.Without | viewer/src/lib/server/data.ts:73 | exactly the documents whose id differs are kept |
| ViewerData.WithoutShrinks | viewer/src/lib/server/data.ts:72-75 | deleting an absent id changes nothing; deleting a present one shortens the list |
| ViewerData.Dirname | viewer/src/lib/server/data.ts:48 | `path.dirname`: "." without a '/', the root "/" or the doubled root "//" when the only separators are leading, otherwise everything before the last '/' |
| ViewerData.ContentDir | viewer/src/lib/server/data.ts:46-49 | a path not ending in ".json" is its own content directory |
| ViewerData.LoadNew | viewer/src/lib/server/data.ts:40-70 | a document already under the path answers its id; otherwise an unreadable config throws and leaves the list, and a readable one appends and answers the document with id one above the largest stored id (so greater than every one), the config's title, video path, image interval, image count and duration, stored under the content directory |
| ViewerData.LoadTwice | viewer/src/lib/server/data.ts:40-67 | a directory loaded twice is added once; a ".json" path whose directory differs is added again, because the lookup compares the path given with the stored directory |
| ViewerData.JsonPathStoresDirectory | viewer/src/lib/server/data.ts:46-49 | a document's "sbbp.json" path is stored under its directory |
| ViewerData.DoubledRootKept | viewer/src/lib/server/data.ts:46-49 | a ".json" file directly under "//" is stored under "//", the root `path.dirname` keeps |
| ViewerData.Store.constructor | viewer/src/lib/server/data.ts:17-27 | the store starts from the items of a config file that can be read and parsed, and empty otherwise |
| ViewerData.Store.LoadNewItem | viewer/src/lib/server/data.ts:40-70 | the documents and the answer are those of loading the path |
| ViewerData.Store.DeleteItem | viewer/src/lib/server/data.ts:72-75 | the documents become those without the id |
| ViewerData.Store.GetItem | viewer/src/lib/server/data.ts:77-79 | a document is found exactly when one has the id, and the one found is stored and has it |
| ViewerData.Store.LoadImage | viewer/src/lib/server/data.ts:86-105 | a path exactly when the document exists and the index is below its number of images, and then the document's image file for that index |
| WebProcess.DropNonAlnum | web/src/lib/server/process.ts:16 | what remains after a run of characters outside `[a-zA-Z0-9]` at the front: a suffix that is empty or starts with a letter or digit, with only such characters removed |
| WebProcess.Sanitize | web/src/lib/server/process.ts:16 | the directory name holds only letters, digits and '_', never two '_' in a row, is empty only for an empty input, and starts with the input's first character or with '_' for a leading run |
| WebProcess.AlnumsOfDropped | web/src/lib/server/process.ts:16 | dropping a leading run loses no letter or digit |
| WebProcess.SanitizeKeepsAlnums | web/src/lib/server/process.ts:16 | the name keeps every letter and digit of the input, in order, and no other character of it |
| WebProcess.SanitizeFixed | web/src/lib/server/process.ts:16 | a name of letters, digits and single '_'s is left unchanged |
| WebProcess.SanitizeIdempotent | web/src/lib/server/process.ts:16 | sanitising twice is sanitising once |
| WebProcess.DropOfDirname | web/src/lib/server/process.ts:16 | dropping a leading run commutes with the download job's per-character replacement |
| WebProcess.SanitizeOfDirname | web/src/lib/server/process.ts:16 | collapsing the download job's directory name gives the web app's name for the same input |
| WebProcess.ProcessDirInsideData | web/src/lib/server/process.ts:16 | for a non-empty input the processing directory is one level inside the data directory, under a name with no '/' and no '.' |
| WebProcess.ProcessDir | web/src/lib/server/process.ts:16 | `path.join(dataDir, name)` for a `dataDir` that is already normalised (no trailing '/'); `WebProcess.ProcessDirInsideData` states where it lies |
| WebProcess.TrimTrailing | web/src/lib/server/process.ts:57 | a prefix of the path that does not end in the separator |
| WebProcess.Basename | web/src/lib/server/process.ts:57 | the base name has no '/', and a name without '/' is its own base name |
| WebProcess.Stem | web/src/lib/server/process.ts:58-61 | the name up to its last '.', which is then followed by no other '.', or the whole name when it has none |
| WebProcess.TitleFromFilename | web/src/lib/server/process.ts:56-64 | a title has no '/' |
| WebProcess.BasenameOfJoin | web/src/lib/server/process.ts:57 | the base name of a directory joined with a name is that name |
| WebProcess.StemOfDotted | web/src/lib/server/process.ts:58-61 | the stem of `name.ext` is `name` |
| WebProcess.TitleOfFile | web/src/lib/server/process.ts:56-64 | the title of `dir/name.ext` is `name` |
| WebProcess.SliceFrom | web/src/lib/server/process.ts:77 | `slice(k)` is the suffix from `k`, or "" past the end |
| WebProcess.ErrorMessage | web/src/lib/server/process.ts:74-82 | every failure but the downloader's own carries one of the run's two messages |
| WebProcess.DownloadVideo | web/src/lib/server/process.ts:66-90 | an "http" input succeeds exactly when the downloader exits cleanly and the glob finds a file, which is then the video; any other input is itself the video, titled by its file name, and fails exactly when the file is missing; a missing glob match throws "Failed to download video" and a missing file "No such file or directory: " and the path |
| WebProcess.DownloadedTitle | web/src/lib/server/process.ts:70-77 | a file named by the output template `video-dl-<title>.<ext>` gives back the title |
| WebProcess.ExtractImages | web/src/lib/server/process.ts:128-154 | the frames run from 0 to `maxIndex`, one less than their number, at an interval of 10 seconds, with the removed list kept |
| WebProcess.Ceil | web/src/lib/server/process.ts:109 | the least integer at or above the end time |
| WebProcess.LastEnd | web/src/lib/server/process.ts:108 | the end time found is non-zero and present among the chunks; with none found every end is absent or 0 |
| WebProcess.LastEndIsLast | web/src/lib/server/process.ts:107-108 | the end time found is that of the last chunk with a non-zero end |
| WebProcess.FinalTimestampBounds | web/src/lib/server/process.ts:107-109 | the duration covers the last timed chunk's end and is less than a second past it |
| WebProcess.FinalTimestamp | web/src/lib/server/process.ts:107-109 | the recorded duration; `WebProcess.FinalTimestampBounds` and `WebProcess.NoTimedChunk` state its value |
| WebProcess.NoTimedChunk | web/src/lib/server/process.ts:109 | with no end time the duration is 0 |
| WebProcess.RunContents | web/src/lib/server/process.ts:14-54 | a run fails exactly when the download does, with its error; a finished config records the title, the input, the processing directory, the frames, the summary or "" when summarising threw, and the duration |
| WebProcess.RunResult | web/src/lib/server/process.ts:14-54 | the config a run writes, or why it stopped; `WebProcess.RunContents` states its contents |
| WebProcess.ProcessInput | web/src/lib/server/process.ts:14-54 | the run gives that config, and the status callback hears "downloading", then "processing" and "complete" only when the download succeeded |
| Login.ChooseFlow | api/src/pages/login.rs:53-55 | the email-link flow exactly for its button or for no password without the login button; "password required" exactly for the login button without a password; the password check exactly for a password not sent by the email-link button |
| Login.RenderForm | api/src/pages/login.rs:102-138 | a non-empty message is listed alone, the errors and the posted email are shown, and the hidden target is the one given or else the one posted |
| Login.LoginPage | api/src/pages/login.rs:140-148 | the empty form has no message, no error, no email and the query's target |
| Login.RedirectTarget | api/src/pages/login.rs:84-92 | as written the target starts with '/', is the requested one when that starts with '/' and parses, and otherwise is "/" |
| Login.SafeRedirectTarget | api/src/pages/login.rs:84-92 | the intended target stays on the site, is the requested one when that is a local path that parses, and otherwise is "/" |
| Login.Respond | api/src/pages/login.rs:40-100 | the handler redirects exactly for a valid form in the password flow whose login answered OK, and then to the target it is given |
| Login.LoginFormAsWritten | api/src/pages/login.rs:40-100 | as written, a redirect goes to a target that starts with '/' |
| Login.LoginForm | api/src/pages/login.rs:40-100 | with the intended filter, a redirect goes to a path on this site |
| Login.TargetsDifferOnlyOffSite | api/src/pages/login.rs:84-92 | the two filters differ only where the written one lets through a "//" or "/\" target, which the intended one sends to "/" |
| Login.OffSiteRedirectAsWritten | api/src/pages/login.rs:84-92 | as written a login with target "//evil.example" redirects there; the intended handler redirects to "/" |
| Login.RedirectOnlyAfterLogin | api/src/pages/login.rs:40-100 | the browser is redirected exactly when a valid form with a password, not sent by the email-link button, passed the password check, and then to a local path |
| Login.Messages | api/src/pages/login.rs:55-99 | the email-link flow shows the sent or the generic message; a missing password adds "Password is required" under the field; a rejected password shows "Incorrect email or password"; any other failure the generic message |
| Login.InvalidFormShownAgain | api/src/pages/login.rs:48-51 | a form that failed validation is shown again with its errors, no message, and the target and email it was posted with |
| Login.TargetCarriedOver | api/src/pages/login.rs:46 | a page shown again keeps the requested target, or the posted one when the form named none |

## Left out

- External programs and services are outside the model: yt-dlp, ffmpeg, the speech service, the language model, the image-similarity measure, image decoding, resizing and WebP encoding. What they answer is a parameter (a score function, a status, a found file, a reply value).
- Object storage, Postgres, the job queue and the file system are outside the model. A read is a parameter. A write, an upload or an enqueue is recorded as a value the model returns, or left out where it changes nothing the model tracks (`saveConfig`, the `sbbp.json` write, `mkdir`, `unlink`).
- SQL text and the `FilterBuilder` internals are not modelled. The list query is modelled by its conditions and bound values, in order.
- Concurrency is modelled sequentially: `try_for_each_concurrent`, `try_join`, `Promise.all`, `spawn_blocking`, and the queue's `setImmediate` hand-off. Fan-out limits and ordering between concurrent tasks are not captured.
- Retry backoff delays and timing measurements are not modelled: the elapsed-time values and the `timing` object of the web and app runs.
- Floating point: f64 and JavaScript numbers are reals. NaN, infinities and the saturating `as u64` casts beyond the bound the model states are not modelled.
- ViewerAlign.Align, AppAlign.Align and WebAlign.Align require a positive image interval, because the source divides by it. With a zero interval JavaScript would produce infinities.
- Clock.PartsRecompose holds for durations of 0 or more. Rust's `/` and `%` truncate toward zero, so negative durations are rendered as written but the recomposition is not claimed for them.
- Format.FormatDurationRoundTrip is about whole non-negative seconds. Fractional and negative inputs, which JavaScript's `%` and `Math.floor` treat differently, are not modelled.
- Queries.BindToQuery does not model `u32` overflow of `page * per_page`, nor the `as i32` casts of the page size and offset (`src/models/video/queries.rs:155`), which turn an offset of 2^31 or more into a negative number before the `u32` product overflows.
- Download.Dirname keeps ASCII letters and digits only. Rust's `char::is_alphanumeric` also keeps non-ASCII letters and digits, which the model maps to '_'. The web app's sanitiser (`[a-zA-Z0-9]`) is ASCII in the source too.
- JSON pointers are modelled without the `~0`/`~1` escapes, which the fixed pointers used here never contain.
- The permission table, the job-error enum's other variants and their report text, markup layout, cookies and the session are not modelled. Email validation of the login form is left out; whether the form validated is an input.
- Whether a redirect target parses as a URI is a parameter of the login handler; the URI grammar is not modelled.
- The `hx-vals` attribute is read back by a small parser written for that attribute's shape, not a full JSON parser.
- ViewerData.Dirname models `path.dirname` for paths that do not end in '/', the only ones it is given (they end in ".json"); the skipping of trailing separators is not modelled.
- The viewer store's image path leaves out the data directory that `path.join` puts in front of the item's directory (`viewer/src/lib/server/data.ts:96-102`); `ViewerData.Store.LoadImage` answers the path relative to it.
- AppServer.LoadNewAddsFreshOnce: "loading the same path again adds nothing" is proved only when the path looked up equals the `processedPath` that `loadItem` records. `loadNewItem` turns a relative path into an absolute one and an absolute one into a path relative to the data directory (`app/src/lib/server/data.ts:97-101`), and `loadItem` records the directory's base name (:215). So a relative path never matches, and neither does an absolute path that is not directly under the data directory. Each such load appends another item (`AppServer.LoadNewAgainAppends`). The path arithmetic itself is not modelled: the path looked up is an input.
- The app store does not model path resolution against the data directory, `loadItem`'s `stat` and `dirname` handling, or object aliasing between the queue's entries and the stored items. Items are values that the store's methods reassign.
- Summarize.Run: a video row that is missing when the job reads it (`fetch_one` failing with the database error, `api/src/jobs/summarize.rs:28-34`) is not modelled; the row's transcript column is an input.
- VideoModel.RerunStage: a failed enqueue (`Error::TaskQueue`, `src/models/video/mod.rs:157`) is not modelled; the job queue is outside the model, so a stage that is found always yields its payload.
- WebProcess.RunResult, WebProcess.RunContents, WebProcess.ProcessInput: the web run does not model `path.join` normalisation (".." segments, doubled separators, a trailing '/' on the data directory, which `WebProcess.ProcessDir` takes as already normalised), the failures of ffmpeg, the transcriber or the similarity pass, or the process runner's error message when the downloader fails.
- The viewer's dead image-index code after its loop and the commented-out block of the web app's `align` are not modelled. The document page's render stub in `api/src/pages/docs/_doc_id.rs` has no logic to model.

## Findings

| source | as written | input that shows it | evidently intended | confidence | as-written member | corrected member |
|---|---|---|---|---|---|---|
| app/src/lib/server/data.ts:136-159 | `reloadItem` filters the item out of the list before looking it up, so the lookup never finds it | any stored item's id | the item is re-read in place and returned | high; not executed | AppServer.ReloadAsWrittenDrops | AppServer.ReloadKeepsItem |
| app/src/lib/server/data.ts:45 | `config.version ?? 0 < CONFIG_VERSION` parses as `config.version ?? (0 < 2)`, so the test is taken whenever the version is not 0 | a config with version 0 is not migrated; a config with version 3 is marked as version 2 | migrate exactly when the version, 0 when absent, is below 2 | high; not executed | AppServer.MigrationTestCounterexamples | AppServer.LoadedIsCurrent |
| api/src/pages/login.rs:84-92 | the redirect filter only checks for a leading '/' | a successful login with target "//evil.example" is sent to another host | only paths on this site are followed | medium; not executed | Login.OffSiteRedirectAsWritten | Login.RedirectOnlyAfterLogin |

/** The video record and the JSON shapes stored in its `metadata` and `images`
    columns, with their serde encodings. Ids and timestamps are modelled by
    the strings they serialise to. */
module VideoTypes {
  import opened Wrappers
  import opened Strings
  import opened Json

  /** The lifecycle a video moves through; `Queued` is the default. */
  datatype ProcessingState = Queued | Downloading | Downloaded | Processing | Ready

  const DefaultState: ProcessingState := Queued
  const AllStates: seq<ProcessingState> := [Queued, Downloading, Downloaded, Processing, Ready]

  /** The `Display` names. */
  function Display(s: ProcessingState): (r: string)
    ensures |r| > 0 && 'A' <= r[0] <= 'Z'
    ensures forall i :: 1 <= i < |r| ==> 'a' <= r[i] <= 'z'
  {
    match s
    case Queued => "Queued"
    case Downloading => "Downloading"
    case Downloaded => "Downloaded"
    case Processing => "Processing"
    case Ready => "Ready"
  }

  /** The serde and SQL name (`rename_all = "snake_case"`). */
  function SnakeName(s: ProcessingState): (r: string)
    ensures r == AsciiLower(Display(s))
  {
    match s
    case Queued => "queued"
    case Downloading => "downloading"
    case Downloaded => "downloaded"
    case Processing => "processing"
    case Ready => "ready"
  }

  function ParseState(name: string): (r: Option<ProcessingState>)
    ensures r.Some? ==> SnakeName(r.value) == name
  {
    if name == "queued" then Some(Queued)
    else if name == "downloading" then Some(Downloading)
    else if name == "downloaded" then Some(Downloaded)
    else if name == "processing" then Some(Processing)
    else if name == "ready" then Some(Ready)
    else None
  }

  /** Every state is listed, and the five are distinct both in their display
      names and in their stored names. */
  lemma StatesEnumerated(s: ProcessingState, t: ProcessingState)
    ensures s in AllStates && |AllStates| == 5
    ensures Display(s) == Display(t) ==> s == t
    ensures SnakeName(s) == SnakeName(t) ==> s == t
  {
  }

  /** A stored state name reads back as the same state. */
  lemma ParseSnakeName(s: ProcessingState)
    ensures ParseState(SnakeName(s)) == Some(s)
  {
  }

  /** How long one pipeline stage took and, optionally, the file it produced. */
  datatype StageStats = StageStats(duration: nat, filename: Option<string>)

  datatype VideoChapter = VideoChapter(startTime: real, endTime: real, title: string)

  /** Everything in the metadata column is optional. */
  datatype VideoMetadata = VideoMetadata(
    download: Option<StageStats>,
    audioExtraction: Option<StageStats>,
    imageExtraction: Option<StageStats>,
    chapters: Option<seq<VideoChapter>>)

  /** The frames extracted from a video: indices 0..=maxIndex taken every
      `interval` seconds, the thumbnail widths generated and the indices removed
      as near-duplicates. */
  datatype VideoImages = VideoImages(maxIndex: nat, interval: nat, thumbnailWidths: seq<nat>, removed: seq<nat>)

  const U32_LIMIT: nat := 0x1_0000_0000

  predicate AllU32(xs: seq<nat>) {
    forall i :: 0 <= i < |xs| ==> xs[i] < U32_LIMIT
  }

  // ---- serde encodings -------------------------------------------------

  function EncodeOptStr(o: Option<string>): Json {
    match o case Some(s) => Str(s) case None => Null
  }

  /** An `Option<String>` field: absent or `null` is `None`. */
  function DecodeOptStr(j: Json): (r: Option<Option<string>>)
    ensures r.Some? <==> (j.Null? || j.Str?)
  {
    match j
    case Null => Some(None)
    case Str(s) => Some(Some(s))
    case _ => None
  }

  function EncodeStageStats(s: StageStats): Json {
    Object(map["duration" := Int(s.duration), "filename" := EncodeOptStr(s.filename)])
  }

  function DecodeStageStats(j: Json): (r: Option<StageStats>)
    ensures r.Some? ==> j.Object? && AsNat(Get(j, "duration")).Some?
  {
    if !j.Object? then None
    else match (AsNat(Get(j, "duration")), DecodeOptStr(Get(j, "filename")))
      case (Some(d), Some(f)) => Some(StageStats(d, f))
      case _ => None
  }

  function EncodeOptStats(o: Option<StageStats>): Json {
    match o case Some(s) => EncodeStageStats(s) case None => Null
  }

  function DecodeOptStats(j: Json): Option<Option<StageStats>> {
    if j.Null? then Some(None)
    else match DecodeStageStats(j)
      case Some(s) => Some(Some(s))
      case None => None
  }

  /** A chapter serialises as an object of its three fields. */
  function EncodeChapter(c: VideoChapter): (r: Json)
    ensures r.Object? && r.fields.Keys == {"start_time", "end_time", "title"}
    ensures AsStr(Get(r, "title")) == Some(c.title)
  {
    Object(map["start_time" := Float(c.startTime), "end_time" := Float(c.endTime), "title" := Str(c.title)])
  }

  /** A chapter deserialises from an object whose times are numbers and
      whose title is a string. */
  function DecodeChapter(j: Json): (r: Option<VideoChapter>)
    ensures r.Some? <==>
      (j.Object? && AsF64(Get(j, "start_time")).Some? && AsF64(Get(j, "end_time")).Some? && AsStr(Get(j, "title")).Some?)
    ensures r.Some? ==> r.value.title == Get(j, "title").s
  {
    if !j.Object? then None
    else match (AsF64(Get(j, "start_time")), AsF64(Get(j, "end_time")), AsStr(Get(j, "title")))
      case (Some(s), Some(e), Some(t)) => Some(VideoChapter(s, e, t))
      case _ => None
  }

  function EncodeChapters(cs: seq<VideoChapter>): (r: seq<Json>)
    ensures |r| == |cs|
  {
    seq(|cs|, i requires 0 <= i < |cs| => EncodeChapter(cs[i]))
  }

  /** A JSON array of chapters: fails if any element fails. */
  function DecodeChapters(js: seq<Json>): (r: Option<seq<VideoChapter>>)
    ensures r.Some? ==> |r.value| == |js|
    decreases |js|
  {
    if js == [] then Some([])
    else match (DecodeChapters(js[..|js| - 1]), DecodeChapter(js[|js| - 1]))
      case (Some(init), Some(c)) => Some(init + [c])
      case _ => None
  }

  lemma {:induction false} ChaptersRoundTrip(cs: seq<VideoChapter>)
    ensures DecodeChapters(EncodeChapters(cs)) == Some(cs)
    decreases |cs|
  {
    if cs == [] {
      assert EncodeChapters(cs) == [];
    } else {
      var n := |cs| - 1;
      var init := cs[..n];
      var js := EncodeChapters(cs);
      assert js[..n] == EncodeChapters(init);
      assert js[n] == EncodeChapter(cs[n]);
      ChaptersRoundTrip(init);
      ChapterRoundTrip(cs[n]);
      assert DecodeChapters(js) == Some(init + [cs[n]]);
      assert init + [cs[n]] == cs;
    }
  }

  lemma ChapterRoundTrip(c: VideoChapter)
    ensures DecodeChapter(EncodeChapter(c)) == Some(c)
  {
  }

  function EncodeOptChapters(o: Option<seq<VideoChapter>>): Json {
    match o case Some(cs) => Array(EncodeChapters(cs)) case None => Null
  }

  function DecodeOptChapters(j: Json): Option<Option<seq<VideoChapter>>> {
    match j
    case Null => Some(None)
    case Array(a) =>
      (match DecodeChapters(a) case Some(cs) => Some(Some(cs)) case None => None)
    case _ => None
  }

  /** The metadata serialises as an object of exactly its four fields. */
  function EncodeMetadata(m: VideoMetadata): (r: Json)
    ensures r.Object? && r.fields.Keys == {"download", "audio_extraction", "image_extraction", "chapters"}
    ensures m.chapters.None? <==> Get(r, "chapters").Null?
  {
    Object(map[
      "download" := EncodeOptStats(m.download),
      "audio_extraction" := EncodeOptStats(m.audioExtraction),
      "image_extraction" := EncodeOptStats(m.imageExtraction),
      "chapters" := EncodeOptChapters(m.chapters)])
  }

  /** Deserialise the metadata column. Every field is optional, so a missing
      key (read as `Null`) is `None`; unknown keys are ignored. */
  function DecodeMetadata(j: Json): (r: Option<VideoMetadata>)
    ensures r.Some? ==> j.Object?
  {
    if !j.Object? then None
    else match (DecodeOptStats(Get(j, "download")), DecodeOptStats(Get(j, "audio_extraction")),
                DecodeOptStats(Get(j, "image_extraction")), DecodeOptChapters(Get(j, "chapters")))
      case (Some(d), Some(a), Some(i), Some(c)) => Some(VideoMetadata(d, a, i, c))
      case _ => None
  }

  lemma StatsRoundTrip(o: Option<StageStats>)
    ensures DecodeOptStats(EncodeOptStats(o)) == Some(o)
  {
  }

  lemma OptChaptersRoundTrip(o: Option<seq<VideoChapter>>)
    ensures DecodeOptChapters(EncodeOptChapters(o)) == Some(o)
  {
    if o.Some? {
      ChaptersRoundTrip(o.value);
    }
  }

  lemma MetadataRoundTrip(m: VideoMetadata)
    ensures DecodeMetadata(EncodeMetadata(m)) == Some(m)
  {
    var j := EncodeMetadata(m);
    assert Get(j, "download") == EncodeOptStats(m.download);
    assert Get(j, "audio_extraction") == EncodeOptStats(m.audioExtraction);
    assert Get(j, "image_extraction") == EncodeOptStats(m.imageExtraction);
    assert Get(j, "chapters") == EncodeOptChapters(m.chapters);
    StatsRoundTrip(m.download);
    StatsRoundTrip(m.audioExtraction);
    StatsRoundTrip(m.imageExtraction);
    OptChaptersRoundTrip(m.chapters);
  }

  /** An empty object is valid metadata with nothing recorded. */
  lemma MetadataAllOptional()
    ensures DecodeMetadata(Object(map[])) == Some(VideoMetadata(None, None, None, None))
  {
  }

  function EncodeNats(xs: seq<nat>): (r: seq<Json>)
    ensures |r| == |xs|
  {
    seq(|xs|, i requires 0 <= i < |xs| => Int(xs[i]))
  }

  /** A JSON array of `u32`. */
  function DecodeU32s(js: seq<Json>): (r: Option<seq<nat>>)
    ensures r.Some? ==> |r.value| == |js| && AllU32(r.value)
    decreases |js|
  {
    if js == [] then Some([])
    else
      var last := js[|js| - 1];
      match DecodeU32s(js[..|js| - 1])
      case Some(init) =>
        if last.Int? && 0 <= last.i < U32_LIMIT then Some(init + [last.i]) else None
      case None => None
  }

  lemma {:induction false} U32sRoundTrip(xs: seq<nat>)
    requires AllU32(xs)
    ensures DecodeU32s(EncodeNats(xs)) == Some(xs)
    decreases |xs|
  {
    if xs != [] {
      var init := xs[..|xs| - 1];
      assert EncodeNats(xs)[..|xs| - 1] == EncodeNats(init);
      U32sRoundTrip(init);
      assert init + [xs[|xs| - 1]] == xs;
    }
  }

  /** The images record serialises as an object of exactly its four fields. */
  function EncodeImages(im: VideoImages): (r: Json)
    ensures r.Object? && r.fields.Keys == {"max_index", "interval", "thumbnail_widths", "removed"}
    ensures AsNat(Get(r, "max_index")) == Some(im.maxIndex) && AsNat(Get(r, "interval")) == Some(im.interval)
  {
    Object(map[
      "max_index" := Int(im.maxIndex),
      "interval" := Int(im.interval),
      "thumbnail_widths" := Array(EncodeNats(im.thumbnailWidths)),
      "removed" := Array(EncodeNats(im.removed))])
  }

  /** A `#[serde(default)]` list of `u32`: absent is empty, anything other
      than an array of `u32` fails. */
  function DecodeDefaultU32s(j: Json, key: string): (r: Option<seq<nat>>)
    requires j.Object?
    ensures key !in j.fields ==> r == Some([])
  {
    if key !in j.fields then Some([])
    else match j.fields[key]
      case Array(a) => DecodeU32s(a)
      case _ => None
  }

  /** Deserialise the images column: `max_index` and `interval` are required,
      the two lists default to empty. */
  function DecodeImages(j: Json): (r: Option<VideoImages>)
    ensures r.Some? ==> (j.Object? && AsNat(Get(j, "max_index")) == Some(r.value.maxIndex)
      && AsNat(Get(j, "interval")) == Some(r.value.interval))
    ensures r.Some? ==> AllU32(r.value.thumbnailWidths) && AllU32(r.value.removed)
  {
    if !j.Object? then None
    else match (AsNat(Get(j, "max_index")), AsNat(Get(j, "interval")),
                DecodeDefaultU32s(j, "thumbnail_widths"), DecodeDefaultU32s(j, "removed"))
      case (Some(m), Some(iv), Some(w), Some(rm)) => Some(VideoImages(m, iv, w, rm))
      case _ => None
  }

  lemma ImagesRoundTrip(im: VideoImages)
    requires AllU32(im.thumbnailWidths) && AllU32(im.removed)
    ensures DecodeImages(EncodeImages(im)) == Some(im)
  {
    U32sRoundTrip(im.thumbnailWidths);
    U32sRoundTrip(im.removed);
  }

  /** An images object written before thumbnails and de-duplication ran still
      reads, with both lists empty. */
  lemma ImagesListsDefaultEmpty(maxIndex: nat, interval: nat)
    ensures DecodeImages(Object(map["max_index" := Int(maxIndex), "interval" := Int(interval)]))
      == Some(VideoImages(maxIndex, interval, [], []))
  {
  }

  // ---- the video record ------------------------------------------------

  datatype ObjectPermission = Owner | Write | Read

  /** A video row as the API returns it. */
  datatype Video = Video(
    id: string,
    organizationId: string,
    updatedAt: string,
    createdAt: string,
    processingState: ProcessingState,
    url: Option<string>,
    title: Option<string>,
    duration: Option<int>,
    author: Option<string>,
    date: Option<string>,
    metadata: Option<VideoMetadata>,
    read: bool,
    progress: int,
    images: Option<VideoImages>,
    transcript: Option<Json>,
    summary: Option<string>,
    processedPath: Option<string>,
    permission: ObjectPermission)

  /** The row of a list query: the video without `images` and `transcript`. */
  datatype VideoListResult = VideoListResult(
    id: string,
    organizationId: string,
    updatedAt: string,
    createdAt: string,
    processingState: ProcessingState,
    url: Option<string>,
    title: Option<string>,
    duration: Option<int>,
    author: Option<string>,
    date: Option<string>,
    metadata: Option<VideoMetadata>,
    read: bool,
    progress: int,
    summary: Option<string>,
    processedPath: Option<string>,
    permission: ObjectPermission)

  /** `Video::default()`; the id, organisation id and timestamps are the
      defaults of library types outside this model and are passed in. */
  function DefaultVideo(id: string, organizationId: string, epoch: string): (v: Video)
    ensures v.processingState == DefaultState && !v.read && v.progress == 0 && v.permission == Owner
    ensures v.url.None? && v.title.None? && v.duration.None? && v.author.None? && v.date.None?
    ensures v.metadata.None? && v.images.None? && v.transcript.None? && v.summary.None? && v.processedPath.None?
  {
    Video(id, organizationId, epoch, epoch, Queued, None, None, None, None, None, None,
      false, 0, None, None, None, None, Owner)
  }

  function ToListResult(v: Video): VideoListResult {
    VideoListResult(v.id, v.organizationId, v.updatedAt, v.createdAt, v.processingState, v.url, v.title,
      v.duration, v.author, v.date, v.metadata, v.read, v.progress, v.summary, v.processedPath, v.permission)
  }

  /** The model's names for the permission levels. */
  function PermissionName(p: ObjectPermission): string {
    match p case Owner => "owner" case Write => "write" case Read => "read"
  }

  function EncodeOptInt(o: Option<int>): Json {
    match o case Some(i) => Int(i) case None => Null
  }

  function EncodeOptMetadata(o: Option<VideoMetadata>): Json {
    match o case Some(m) => EncodeMetadata(m) case None => Null
  }

  function EncodeOptImages(o: Option<VideoImages>): Json {
    match o case Some(im) => EncodeImages(im) case None => Null
  }

  const VideoFieldNames: seq<string> := ["id", "organization_id", "updated_at", "created_at",
    "processing_state", "url", "title", "duration", "author", "date", "metadata", "read", "progress",
    "images", "transcript", "summary", "processed_path", "_permission"]

  const ListFieldNames: seq<string> := ["id", "organization_id", "updated_at", "created_at",
    "processing_state", "url", "title", "duration", "author", "date", "metadata", "read", "progress",
    "summary", "processed_path", "_permission"]

  function Names(fields: seq<(string, Json)>): (r: seq<string>)
    ensures |r| == |fields| && forall i :: 0 <= i < |fields| ==> r[i] == fields[i].0
  {
    seq(|fields|, i requires 0 <= i < |fields| => fields[i].0)
  }

  /** The fields `Video` serialises, in order. */
  function SerializeVideo(v: Video): (r: seq<(string, Json)>)
    ensures Names(r) == VideoFieldNames
  {
    [("id", Str(v.id)), ("organization_id", Str(v.organizationId)), ("updated_at", Str(v.updatedAt)),
     ("created_at", Str(v.createdAt)), ("processing_state", Str(SnakeName(v.processingState))),
     ("url", EncodeOptStr(v.url)), ("title", EncodeOptStr(v.title)), ("duration", EncodeOptInt(v.duration)),
     ("author", EncodeOptStr(v.author)), ("date", EncodeOptStr(v.date)),
     ("metadata", EncodeOptMetadata(v.metadata)), ("read", Bool(v.read)), ("progress", Int(v.progress)),
     ("images", EncodeOptImages(v.images)), ("transcript", v.transcript.GetOr(Null)),
     ("summary", EncodeOptStr(v.summary)), ("processed_path", EncodeOptStr(v.processedPath)),
     ("_permission", Str(PermissionName(v.permission)))]
  }

  /** The fields the list result serialises, in order. */
  function SerializeListResult(v: VideoListResult): (r: seq<(string, Json)>)
    ensures Names(r) == ListFieldNames
  {
    [("id", Str(v.id)), ("organization_id", Str(v.organizationId)), ("updated_at", Str(v.updatedAt)),
     ("created_at", Str(v.createdAt)), ("processing_state", Str(SnakeName(v.processingState))),
     ("url", EncodeOptStr(v.url)), ("title", EncodeOptStr(v.title)), ("duration", EncodeOptInt(v.duration)),
     ("author", EncodeOptStr(v.author)), ("date", EncodeOptStr(v.date)),
     ("metadata", EncodeOptMetadata(v.metadata)), ("read", Bool(v.read)), ("progress", Int(v.progress)),
     ("summary", EncodeOptStr(v.summary)), ("processed_path", EncodeOptStr(v.processedPath)),
     ("_permission", Str(PermissionName(v.permission)))]
  }

  /** `fields` with the entries whose name is in `drop` removed, order kept. */
  function Without(fields: seq<(string, Json)>, drop: set<string>): (r: seq<(string, Json)>)
    ensures |r| <= |fields|
    decreases |fields|
  {
    if fields == [] then []
    else
      var rest := Without(fields[..|fields| - 1], drop);
      if fields[|fields| - 1].0 in drop then rest else rest + [fields[|fields| - 1]]
  }

  /** Serialising a video's list projection gives exactly the full
      serialisation with `images` and `transcript` left out. */
  lemma ListResultOmitsImagesAndTranscript(v: Video)
    ensures SerializeListResult(ToListResult(v)) == Without(SerializeVideo(v), {"images", "transcript"})
    ensures |SerializeVideo(v)| == 18 && |SerializeListResult(ToListResult(v))| == 16
  {
    var full := SerializeVideo(v);
    var list := SerializeListResult(ToListResult(v));
    DroppedNames();
    assert forall i :: 0 <= i < 13 ==> list[i] == full[i];
    assert forall i :: 13 <= i < 16 ==> list[i] == full[i + 2];
    assert forall i :: 0 <= i < 18 ==> full[i].0 == VideoFieldNames[i];
    OmitTwo(full, list, {"images", "transcript"});
  }

  /** Dropping the two adjacent fields at positions 13 and 14, and no other,
      leaves the fields before and after them. */
  lemma OmitTwo(full: seq<(string, Json)>, list: seq<(string, Json)>, drop: set<string>)
    requires |full| == 18 && |list| == 16
    requires forall i :: 0 <= i < 13 ==> list[i] == full[i]
    requires forall i :: 13 <= i < 16 ==> list[i] == full[i + 2]
    requires forall i :: 0 <= i < 18 ==> (full[i].0 in drop <==> i == 13 || i == 14)
    ensures Without(full, drop) == list
  {
    assert forall k :: 0 <= k < 13 ==> full[..13][k].0 !in drop;
    assert forall k :: 0 <= k < 3 ==> full[15..][k] == full[15 + k];
    assert full == full[..13] + full[13..15] + full[15..];
    WithoutAppend(full[..13] + full[13..15], full[15..], drop);
    WithoutAppend(full[..13], full[13..15], drop);
    WithoutKeepsAll(full[..13], drop);
    WithoutKeepsAll(full[15..], drop);
    assert Without(full[13..15], drop) == [] by {
      assert full[13..15][..1] == [full[13]];
      assert Without(full[13..15][..1], drop) == Without([], drop);
    }
    assert list == full[..13] + full[15..];
  }

  /** Only the 14th and 15th names, `images` and `transcript`, are dropped
      from the list result. */
  lemma DroppedNames()
    ensures forall i :: 0 <= i < |VideoFieldNames| ==>
      (VideoFieldNames[i] in {"images", "transcript"} <==> i == 13 || i == 14)
  {
  }

  lemma {:induction false} WithoutAppend(a: seq<(string, Json)>, b: seq<(string, Json)>, drop: set<string>)
    ensures Without(a + b, drop) == Without(a, drop) + Without(b, drop)
    decreases |b|
  {
    if b != [] {
      var b' := b[..|b| - 1];
      assert (a + b)[..|a + b| - 1] == a + b';
      WithoutAppend(a, b', drop);
    } else {
      assert a + b == a;
    }
  }

  lemma {:induction false} WithoutKeepsAll(fields: seq<(string, Json)>, drop: set<string>)
    requires forall i :: 0 <= i < |fields| ==> fields[i].0 !in drop
    ensures Without(fields, drop) == fields
    decreases |fields|
  {
    if fields != [] {
      WithoutKeepsAll(fields[..|fields| - 1], drop);
    }
  }
}

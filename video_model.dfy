/** Video-level operations of the web server: the image naming scheme shared
    with the frame extractor, creating a video from a URL, and re-running one
    pipeline stage by building that stage's job payload from the stored row. */
module VideoModel {
  import opened Wrappers
  import opened Strings
  import opened VideoTypes

  // ---- image file names ------------------------------------------------

  /** The five-digit, zero-padded frame number (`{:05}`). */
  function Pad5(index: nat): string {
    PadStart(Decimal(index), 5, '0')
  }

  /** The padded number has at least five digits and reads back as the
      index. */
  lemma Pad5Digits(index: nat)
    ensures |Pad5(index)| >= 5 && AllDigits(Pad5(index)) && Value(Pad5(index)) == index
  {
    ValueOfZeroPadded(Decimal(index), 5);
  }

  /** The file name of frame `index`, or of its thumbnail `width` pixels wide. */
  function ImageFilename(index: nat, width: Option<nat>): string {
    match width
    case Some(w) => "image-" + Pad5(index) + "-" + Decimal(w) + "w.webp"
    case None => "image-" + Pad5(index) + ".webp"
  }

  /** Every frame and thumbnail name starts with "image-" and ends with
      ".webp". */
  lemma ImageFilenameAffixes(index: nat, width: Option<nat>)
    ensures StartsWith(ImageFilename(index, width), "image-") && EndsWith(ImageFilename(index, width), ".webp")
  {
    match width {
      case None => Affixes("image-", Pad5(index), ".webp");
      case Some(w) =>
        ThumbnailNameForm(Pad5(index), Decimal(w));
        Affixes("image-", Pad5(index) + ['-'] + (Decimal(w) + ['w']), ".webp");
    }
  }

  /** Recover the frame number and thumbnail width from a file name. */
  function ParseImageFilename(name: string): Option<(nat, Option<nat>)> {
    if |name| < 11 || name[..6] != "image-" || name[|name| - 5..] != ".webp" then None
    else ParseImageStem(name[6..|name| - 5])
  }

  /** The part between "image-" and ".webp": `NNNNN` or `NNNNN-Ww`. */
  function ParseImageStem(stem: string): Option<(nat, Option<nat>)> {
    var parts := Split(stem, '-');
    if |parts| == 1 && |parts[0]| > 0 && AllDigits(parts[0]) then
      Some((Value(parts[0]), None))
    else if |parts| == 2 && |parts[0]| > 0 && AllDigits(parts[0])
      && |parts[1]| > 1 && parts[1][|parts[1]| - 1] == 'w' && AllDigits(parts[1][..|parts[1]| - 1]) then
      Some((Value(parts[0]), Some(Value(parts[1][..|parts[1]| - 1]))))
    else None
  }

  lemma DigitsHaveNoDash(s: string)
    requires AllDigits(s)
    ensures '-' !in s
  {
  }

  lemma ParseNameOfStem(stem: string)
    requires |stem| > 0
    ensures ParseImageFilename("image-" + stem + ".webp") == ParseImageStem(stem)
  {
    var name := "image-" + stem + ".webp";
    assert name[..6] == "image-" && name[|name| - 5..] == ".webp";
    assert name[6..|name| - 5] == stem;
  }

  lemma ParseFrameName(index: nat)
    ensures ParseImageFilename(ImageFilename(index, None)) == Some((index, None))
  {
    var p := Pad5(index);
    Pad5Digits(index);
    assert ImageFilename(index, None) == "image-" + p + ".webp";
    ParseNameOfStem(p);
    DigitsHaveNoDash(p);
    SplitNoSeparator(p, '-');
  }

  lemma ThumbnailStem(a: string, b: string)
    requires |a| > 0 && |b| > 0 && AllDigits(a) && AllDigits(b)
    ensures ParseImageStem(a + ['-'] + (b + ['w'])) == Some((Value(a), Some(Value(b))))
  {
    var rest := b + ['w'];
    DigitsHaveNoDash(a);
    DigitsHaveNoDash(b);
    assert '-' !in rest;
    SplitAtFirst(a, '-', rest);
    SplitNoSeparator(rest, '-');
    var parts := Split(a + ['-'] + rest, '-');
    assert parts == [a, rest];
    assert |rest| > 1 && rest[|rest| - 1] == 'w';
    assert rest[..|rest| - 1] == b;
  }

  /** A thumbnail name is "image-", its stem and ".webp". */
  lemma ThumbnailNameForm(a: string, b: string)
    ensures "image-" + a + "-" + b + "w.webp" == "image-" + (a + ['-'] + (b + ['w'])) + ".webp"
  {
    assert "w.webp" == ['w'] + ".webp";
    assert "-" == ['-'];
  }

  lemma ParseThumbnailName(index: nat, w: nat)
    ensures ParseImageFilename(ImageFilename(index, Some(w))) == Some((index, Some(w)))
  {
    var stem := Pad5(index) + ['-'] + (Decimal(w) + ['w']);
    Pad5Digits(index);
    ThumbnailNameForm(Pad5(index), Decimal(w));
    ParseNameOfStem(stem);
    ThumbnailStem(Pad5(index), Decimal(w));
  }

  /** Every name the scheme produces reads back as the frame and width it
      was made from. */
  lemma ParseImageFilenameRoundTrip(index: nat, width: Option<nat>)
    ensures ParseImageFilename(ImageFilename(index, width)) == Some((index, width))
  {
    match width {
      case None => ParseFrameName(index);
      case Some(w) => ParseThumbnailName(index, w);
    }
  }

  /** Distinct frames or widths never share a file name; in particular a
      thumbnail name never collides with a full-size frame name. */
  lemma ImageFilenameInjective(i: nat, w: Option<nat>, j: nat, v: Option<nat>)
    ensures ImageFilename(i, w) == ImageFilename(j, v) ==> i == j && w == v
  {
    ParseImageFilenameRoundTrip(i, w);
    ParseImageFilenameRoundTrip(j, v);
  }

  /** The ffmpeg output pattern the frame extractor writes with. */
  const VIDEO_IMAGE_TEMPLATE: string := "image-%05d.webp"

  /** printf-style expansion of `%0Nd` (one-digit N) and `%%`, as ffmpeg
      expands an image sequence pattern for frame `n`. */
  function ExpandTemplate(t: string, n: nat): string
    decreases |t|
  {
    if |t| >= 4 && t[0] == '%' && t[1] == '0' && IsDigit(t[2]) && t[3] == 'd' then
      PadStart(Decimal(n), DigitValue(t[2]), '0') + ExpandTemplate(t[4..], n)
    else if |t| >= 2 && t[0] == '%' && t[1] == '%' then "%" + ExpandTemplate(t[2..], n)
    else if |t| == 0 then ""
    else [t[0]] + ExpandTemplate(t[1..], n)
  }

  lemma {:induction false} ExpandLiteral(lit: string, rest: string, n: nat)
    requires '%' !in lit
    ensures ExpandTemplate(lit + rest, n) == lit + ExpandTemplate(rest, n)
    decreases |lit|
  {
    if lit != [] {
      var t := lit + rest;
      assert t[0] == lit[0] && t[0] != '%';
      assert t[1..] == lit[1..] + rest;
      assert ExpandTemplate(t, n) == [lit[0]] + ExpandTemplate(lit[1..] + rest, n);
      ExpandLiteral(lit[1..], rest, n);
      assert lit == [lit[0]] + lit[1..];
    } else {
      assert lit + rest == rest;
    }
  }

  lemma ExpandDirective(t: string, rest: string, n: nat)
    requires |t| == 4 && t[0] == '%' && t[1] == '0' && IsDigit(t[2]) && t[3] == 'd'
    ensures ExpandTemplate(t + rest, n) == PadStart(Decimal(n), DigitValue(t[2]), '0') + ExpandTemplate(rest, n)
  {
    assert (t + rest)[4..] == rest;
  }

  lemma ExpandTemplateHead(index: nat)
    ensures ExpandTemplate(VIDEO_IMAGE_TEMPLATE, index) == "image-" + ExpandTemplate("%05d.webp", index)
  {
    var head, rest := "image-", "%05d.webp";
    assert VIDEO_IMAGE_TEMPLATE == head + rest;
    ExpandLiteral(head, rest, index);
  }

  lemma ExpandDirectiveThenLiteral(directive: string, tail: string, n: nat)
    requires |directive| == 4 && directive[0] == '%' && directive[1] == '0' && IsDigit(directive[2]) && directive[3] == 'd'
    requires '%' !in tail
    ensures ExpandTemplate(directive + tail, n) == PadStart(Decimal(n), DigitValue(directive[2]), '0') + tail
  {
    ExpandDirective(directive, tail, n);
    ExpandLiteral(tail, "", n);
    assert tail + "" == tail;
  }

  lemma ExpandTemplateTail(index: nat)
    ensures ExpandTemplate("%05d.webp", index) == Pad5(index) + ".webp"
  {
    var directive, tail := "%05d", ".webp";
    assert directive + tail == "%05d.webp";
    assert DigitValue(directive[2]) == 5;
    assert '%' !in tail;
    ExpandDirectiveThenLiteral(directive, tail, index);
  }

  /** The extractor's pattern and the server's naming scheme name every
      frame identically. */
  lemma ImageTemplateAgrees(index: nat)
    ensures ExpandTemplate(VIDEO_IMAGE_TEMPLATE, index) == ImageFilename(index, None)
  {
    ExpandTemplateHead(index);
    ExpandTemplateTail(index);
    FrameNameForm(index);
  }

  lemma FrameNameForm(index: nat)
    ensures ImageFilename(index, None) == "image-" + (Pad5(index) + ".webp")
  {
  }

  // ---- stage payloads --------------------------------------------------

  /** The payload each pipeline job is enqueued with. */
  datatype JobPayload =
    | DownloadPayload(id: string, downloadUrl: string, storagePrefix: string)
    | ExtractPayload(id: string, storagePrefix: string, videoFilename: string)
    | AnalyzePayload(id: string, storagePrefix: string, maxIndex: nat)
    | TranscribePayload(id: string, storagePrefix: string, audioPath: string)
    | SummarizePayload(id: string)

  datatype Error = NotFound(what: string)

  /** The row `create_via_url` inserts. */
  datatype NewVideoRow = NewVideoRow(id: string, organizationId: string, state: ProcessingState,
    url: string, metadata: Json.Json)

  /** Create a video for `url` under the freshly generated `id`: the row starts
      queued with empty metadata, and a download job is enqueued whose storage
      prefix is the id. */
  function CreateViaUrl(id: string, organizationId: string, url: string): (r: (NewVideoRow, JobPayload))
    ensures r.0.state == Queued && r.0.metadata == Json.Object(map[]) && r.0.url == url && r.0.id == id
    ensures r.1.DownloadPayload? && r.1.id == id && r.1.downloadUrl == url && r.1.storagePrefix == id
  {
    (NewVideoRow(id, organizationId, Queued, url, Json.Object(map[])), DownloadPayload(id, url, id))
  }

  const Stages: set<string> := {"download", "extract", "analyze", "transcribe", "summarize"}

  /** The downloaded file recorded in the metadata column, if any. */
  function DownloadedFilename(v: Video): Option<string> {
    if v.metadata.Some? && v.metadata.value.download.Some? then v.metadata.value.download.value.filename
    else None
  }

  /** Re-run one stage of the pipeline for the video fetched by id (`None` when
      the lookup found no row). Returns the payload to enqueue. */
  function RerunStage(video: Option<Video>, stage: string): (r: Result<JobPayload, Error>)
    ensures video.None? ==> r == Err(NotFound("Video"))
    ensures video.Some? && stage !in Stages ==> r == Err(NotFound("Unknown stage"))
    ensures video.Some? && stage == "download" ==>
      (r.Ok? <==> video.value.url.Some?)
      && (r.Ok? ==> r.value == DownloadPayload(video.value.id, video.value.url.value, video.value.id))
      && (r.Err? ==> r.error == NotFound("Video URL"))
    ensures video.Some? && stage == "extract" ==>
      (r.Ok? <==> DownloadedFilename(video.value).Some?)
      && (r.Ok? ==> r.value == ExtractPayload(video.value.id, video.value.id, DownloadedFilename(video.value).value))
      && (r.Err? ==> r.error == NotFound("Video not downloaded yet"))
    ensures video.Some? && stage == "analyze" ==>
      (r.Ok? <==> video.value.images.Some?)
      && (r.Ok? ==> r.value == AnalyzePayload(video.value.id, video.value.id, video.value.images.value.maxIndex))
      && (r.Err? ==> r.error == NotFound("Video not extracted yet"))
    ensures video.Some? && stage == "transcribe" ==>
      r == Ok(TranscribePayload(video.value.id, video.value.id, video.value.id + "/audio.mp4"))
    ensures video.Some? && stage == "summarize" ==> r == Ok(SummarizePayload(video.value.id))
    ensures r.Ok? ==> r.value.id == video.value.id
    ensures r.Ok? && !r.value.SummarizePayload? ==> r.value.storagePrefix == video.value.id
  {
    match video
    case None => Err(NotFound("Video"))
    case Some(v) =>
      var prefix := v.id;
      if stage == "download" then
        (match v.url
         case Some(url) => Ok(DownloadPayload(v.id, url, prefix))
         case None => Err(NotFound("Video URL")))
      else if stage == "extract" then
        (match DownloadedFilename(v)
         case Some(f) => Ok(ExtractPayload(v.id, prefix, f))
         case None => Err(NotFound("Video not downloaded yet")))
      else if stage == "analyze" then
        (match v.images
         case Some(im) => Ok(AnalyzePayload(v.id, prefix, im.maxIndex))
         case None => Err(NotFound("Video not extracted yet")))
      else if stage == "transcribe" then
        Ok(TranscribePayload(v.id, prefix, prefix + "/audio.mp4"))
      else if stage == "summarize" then
        Ok(SummarizePayload(v.id))
      else Err(NotFound("Unknown stage"))
  }

  /** Re-running the download stage on a video just created from a URL
      enqueues exactly the payload its creation enqueued. */
  lemma RerunDownloadRepeatsCreation(id: string, organizationId: string, url: string, v: Video)
    requires v.id == id && v.url == Some(url)
    ensures RerunStage(Some(v), "download") == Ok(CreateViaUrl(id, organizationId, url).1)
  {
  }

  /** The transcription stage reads the audio file the extraction stage
      writes under the video's storage prefix. */
  lemma RerunTranscribeAudioPath(v: Video)
    ensures RerunStage(Some(v), "transcribe").Ok?
    ensures RerunStage(Some(v), "transcribe").value.audioPath == v.id + "/audio.mp4"
  {
  }
}

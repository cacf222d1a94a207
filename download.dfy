/** The download job: derive a directory name from the URL, read the
    downloader's info file, upload it and the video, and record the video
    on its row. The downloader itself, the file system and storage are
    parameters. */
module Download {
  import opened Wrappers
  import opened Strings
  import opened Json
  import opened VideoTypes

  /** The download job's own error kinds. */
  datatype DownloadError = Payload | StartingDownloader | ReadingInfoJson | Uploading | Db

  datatype DownloadPayload = DownloadPayload(id: string, downloadUrl: string)

  /** One character of the directory name: alphanumerics are kept, anything
      else becomes '_'. */
  function DirChar(c: char): (r: char)
    ensures IsAsciiAlnum(c) ==> r == c
    ensures !IsAsciiAlnum(c) ==> r == '_'
  {
    if IsAsciiAlnum(c) then c else '_'
  }

  /** The directory name derived from the download URL. */
  function Dirname(url: string): (r: string)
    ensures |r| == |url|
    ensures forall i :: 0 <= i < |r| ==> r[i] == DirChar(url[i])
  {
    seq(|url|, i requires 0 <= i < |url| => DirChar(url[i]))
  }

  /** Every character of a directory name is alphanumeric or '_', so it
      holds no path separator. */
  lemma DirnameSafe(url: string)
    ensures forall i :: 0 <= i < |url| ==> IsAsciiAlnum(Dirname(url)[i]) || Dirname(url)[i] == '_'
    ensures '/' !in Dirname(url)
  {
  }

  /** Sanitising a directory name again changes nothing. */
  lemma DirnameIdempotent(url: string)
    ensures Dirname(Dirname(url)) == Dirname(url)
  {
  }

  /** A URL made only of alphanumerics is its own directory name. */
  lemma DirnameKeepsAlphanumeric(url: string)
    requires forall i :: 0 <= i < |url| ==> IsAsciiAlnum(url[i])
    ensures Dirname(url) == url
  {
  }

  /** `Path::join` of a relative name, displayed: a separator is added
      unless the directory is empty or already ends with one. */
  function JoinPath(dir: string, name: string): (r: string)
    ensures |r| >= |dir| + |name|
    ensures r[|r| - |name|..] == name
    ensures dir != "" ==> r[..|dir|] == dir
  {
    if dir == "" || dir[|dir| - 1] == '/' then dir + name else dir + "/" + name
  }

  /** The fields of the downloader's info file the job requires. */
  datatype InfoJson = InfoJson(
    ext: string,
    title: string,
    aspectRatio: real,
    duration: nat,
    releaseDate: string,
    uploadDate: string,
    uploader: string,
    webpageUrl: string)

  const INFO_FIELDS: set<string> :=
    {"ext", "title", "aspect_ratio", "duration", "release_date", "upload_date", "uploader", "webpage_url"}

  /** `usize` holds values below 2^64. */
  const USIZE_LIMIT: nat := 0x1_0000_0000_0000_0000

  function StrField(m: map<string, Json>, key: string): (r: Result<string, DownloadError>)
    ensures r.Ok? <==> key in m && m[key].Str?
    ensures r.Ok? ==> r.value == m[key].s
  {
    if key in m && m[key].Str? then Ok(m[key].s) else Err(ReadingInfoJson)
  }

  /** Deserialising the info file: it must be an object holding all eight
      fields with the right types; other keys are ignored. */
  function ParseInfoJson(v: Json): (r: Result<InfoJson, DownloadError>)
    ensures r.Err? ==> r.error == ReadingInfoJson
    ensures r.Ok? ==> v.Object? && INFO_FIELDS <= v.fields.Keys
    ensures r.Ok? ==> r.value.duration < USIZE_LIMIT
  {
    if !v.Object? then Err(ReadingInfoJson)
    else
      var m := v.fields;
      var ext :- StrField(m, "ext");
      var title :- StrField(m, "title");
      var aspect :- OkOr(if "aspect_ratio" in m then AsF64(m["aspect_ratio"]) else None, ReadingInfoJson);
      var duration :- OkOr(if "duration" in m then AsNat(m["duration"]) else None, ReadingInfoJson);
      if duration >= USIZE_LIMIT then Err(ReadingInfoJson)
      else
        var releaseDate :- StrField(m, "release_date");
        var uploadDate :- StrField(m, "upload_date");
        var uploader :- StrField(m, "uploader");
        var webpageUrl :- StrField(m, "webpage_url");
        Ok(InfoJson(ext, title, aspect, duration, releaseDate, uploadDate, uploader, webpageUrl))
  }

  /** Serialising the struct back, as stored in the metadata column. */
  function EncodeInfoJson(info: InfoJson): (r: Json)
    ensures r.Object? && r.fields.Keys == INFO_FIELDS
  {
    Object(map[
      "ext" := Str(info.ext),
      "title" := Str(info.title),
      "aspect_ratio" := Float(info.aspectRatio),
      "duration" := Int(info.duration),
      "release_date" := Str(info.releaseDate),
      "upload_date" := Str(info.uploadDate),
      "uploader" := Str(info.uploader),
      "webpage_url" := Str(info.webpageUrl)])
  }

  lemma InfoJsonRoundTrip(info: InfoJson)
    requires info.duration < USIZE_LIMIT
    ensures ParseInfoJson(EncodeInfoJson(info)) == Ok(info)
  {
  }

  /** An info file lacking any of the eight fields is rejected. */
  lemma MissingFieldRejected(m: map<string, Json>, key: string)
    requires key in INFO_FIELDS && key !in m
    ensures ParseInfoJson(Object(m)) == Err(ReadingInfoJson)
  {
  }

  /** Keys the file has beyond the eight do not reach the stored metadata. */
  lemma ExtraKeysDropped(m: map<string, Json>, extra: string, x: Json)
    requires extra !in INFO_FIELDS
    ensures ParseInfoJson(Object(m[extra := x])) == ParseInfoJson(Object(m))
    ensures ParseInfoJson(Object(m)).Ok? ==> extra !in EncodeInfoJson(ParseInfoJson(Object(m)).value).fields
  {
    var m' := m[extra := x];
    assert forall k :: k in INFO_FIELDS ==> (k in m' <==> k in m) && (k in m ==> m'[k] == m[k]);
  }

  /** Where the video is stored: "{dirname}/video.{ext}". */
  function VideoStorageKey(dirname: string, ext: string): (r: string)
    ensures |r| == |dirname| + 7 + |ext|
    ensures r[..|dirname|] == dirname && r[|dirname|..|dirname| + 7] == "/video."
    ensures r[|dirname| + 7..] == ext
  {
    dirname + "/video." + ext
  }

  /** With a slash-free directory name and extension, the video key has a
      single '/', right after the directory name. */
  lemma VideoKeySingleSeparator(dirname: string, ext: string)
    requires '/' !in dirname && '/' !in ext
    ensures forall i :: 0 <= i < |VideoStorageKey(dirname, ext)| ==>
      (VideoStorageKey(dirname, ext)[i] == '/' <==> i == |dirname|)
  {
    var key := VideoStorageKey(dirname, ext);
    forall i | 0 <= i < |key|
      ensures key[i] == '/' <==> i == |dirname|
    {
      if i < |dirname| {
        assert key[i] == dirname[i];
      } else if i >= |dirname| + 7 {
        assert key[i] == ext[i - |dirname| - 7];
      } else {
        assert key[|dirname|..|dirname| + 7][i - |dirname|] == key[i];
      }
    }
  }

  /** Where the info file is stored: the full local download directory
      (temporary directory joined with the directory name), not the
      directory name alone. */
  function InfoJsonStorageKey(temp: string, dirname: string): (r: string)
    ensures |r| >= |temp| + |dirname| + 16
    ensures temp != "" ==> r[..|temp|] == temp
    ensures r[|r| - 16..] == "/video.info.json"
  {
    JoinPath(temp, dirname) + "/video.info.json"
  }

  /** `duration as i32`: the low 32 bits read as a signed number. */
  function AsI32(n: nat): (r: int)
    ensures -0x8000_0000 <= r < 0x8000_0000
    ensures (r - n) % 0x1_0000_0000 == 0
    ensures n < 0x8000_0000 ==> r == n
  {
    var low := if n < 0x1_0000_0000 then n else n % 0x1_0000_0000;
    if low < 0x8000_0000 then low else low - 0x1_0000_0000
  }

  /** The row update: title, duration, the stored video key, the whole
      re-serialised info file as the metadata, and the downloaded state. */
  datatype RowUpdate = RowUpdate(title: string, duration: int, processedPath: string, metadata: Json,
                                 state: ProcessingState)

  datatype Outcome = Outcome(result: Result<(), DownloadError>, uploaded: seq<string>, update: Option<RowUpdate>)

  /** `run`. `downloaderRan` is whether the downloader could be started and
      waited for (its exit status is never looked at); `infoFile` is the
      parsed info file, None when it is missing or not JSON; `put(key)` is
      whether storing under `key` succeeds; `videoOpened` whether the local
      video file opens; `dbOk` whether the UPDATE succeeds. */
  function Run(payload: DownloadPayload, temp: string, downloaderRan: bool, infoFile: Option<Json>,
               put: string -> bool, videoOpened: bool, dbOk: bool): (r: Outcome)
    ensures !downloaderRan ==> r == Outcome(Err(StartingDownloader), [], None)
    ensures downloaderRan && (infoFile.None? || ParseInfoJson(infoFile.value).Err?) ==>
      r == Outcome(Err(ReadingInfoJson), [], None)
    ensures r.update.Some? <==> r.result.Ok?
    ensures r.result.Ok? ==>
      && infoFile.Some? && ParseInfoJson(infoFile.value).Ok?
      && var info := ParseInfoJson(infoFile.value).value;
      && var dir := Dirname(payload.downloadUrl);
      && r.uploaded == [InfoJsonStorageKey(temp, dir), VideoStorageKey(dir, info.ext)]
      && r.update.value == RowUpdate(info.title, AsI32(info.duration), VideoStorageKey(dir, info.ext),
                                     EncodeInfoJson(info), Downloaded)
    ensures |r.uploaded| <= 2
  {
    if !downloaderRan then Outcome(Err(StartingDownloader), [], None)
    else if infoFile.None? then Outcome(Err(ReadingInfoJson), [], None)
    else
      match ParseInfoJson(infoFile.value)
      case Err(e) => Outcome(Err(e), [], None)
      case Ok(info) =>
        var dir := Dirname(payload.downloadUrl);
        var infoKey := InfoJsonStorageKey(temp, dir);
        if !put(infoKey) then Outcome(Err(Uploading), [], None)
        else
          var videoKey := VideoStorageKey(dir, info.ext);
          if !videoOpened || !put(videoKey) then Outcome(Err(Uploading), [infoKey], None)
          else if !dbOk then Outcome(Err(Db), [infoKey, videoKey], None)
          else
            Outcome(Ok(()), [infoKey, videoKey],
              Some(RowUpdate(info.title, AsI32(info.duration), videoKey, EncodeInfoJson(info), Downloaded)))
  }

  /** A successful run stores the metadata as exactly the eight info fields
      and the processed path under the sanitised directory name. */
  lemma RunRecordsInfo(payload: DownloadPayload, temp: string, infoFile: Option<Json>, put: string -> bool)
    requires infoFile.Some? && ParseInfoJson(infoFile.value).Ok?
    requires forall key :: put(key)
    ensures var r := Run(payload, temp, true, infoFile, put, true, true);
      && r.result.Ok?
      && r.update.value.metadata.fields.Keys == INFO_FIELDS
      && r.update.value.state == Downloaded
      && r.update.value.processedPath[..|payload.downloadUrl|] == Dirname(payload.downloadUrl)
  {
  }
}

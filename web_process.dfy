/** The web app's processing run: the directory a submitted URL is processed
    in, the title taken from the video file's name, and the config the run
    writes. The downloader, ffmpeg, the transcriber, the summariser and the
    file system are parameters. */
module WebProcess {
  import opened Wrappers
  import opened Strings
  import Download

  /** `[a-zA-Z0-9]*` at the front of `s` is kept; this drops the run of
      other characters that starts `s`. */
  function DropNonAlnum(s: string): (r: string)
    ensures |r| <= |s| && r == s[|s| - |r|..]
    ensures r == [] || IsAsciiAlnum(r[0])
    ensures forall i :: 0 <= i < |s| - |r| ==> !IsAsciiAlnum(s[i])
    decreases |s|
  {
    if s == [] || IsAsciiAlnum(s[0]) then s else DropNonAlnum(s[1..])
  }

  /** `replaceAll(/[^a-zA-Z0-9]+/g, '_')`: every maximal run of characters
      outside `[a-zA-Z0-9]` becomes one '_'. */
  function Sanitize(s: string): (r: string)
    ensures forall i :: 0 <= i < |r| ==> IsAsciiAlnum(r[i]) || r[i] == '_'
    ensures forall i :: 0 <= i < |r| - 1 ==> r[i] != '_' || r[i + 1] != '_'
    ensures s == [] <==> r == []
    ensures s != [] && IsAsciiAlnum(s[0]) ==> r[0] == s[0]
    ensures s != [] && !IsAsciiAlnum(s[0]) ==> r[0] == '_'
    decreases |s|
  {
    if s == [] then []
    else
      var head := if IsAsciiAlnum(s[0]) then s[0] else '_';
      var rest := if IsAsciiAlnum(s[0]) then s[1..] else DropNonAlnum(s[1..]);
      var tail := Sanitize(rest);
      assert head == '_' ==> tail == [] || tail[0] != '_';
      var r := [head] + tail;
      assert forall i :: 1 <= i < |r| ==> r[i] == tail[i - 1];
      r
  }

  /** The characters of `s` in `[a-zA-Z0-9]`, in order. */
  function Alnums(s: string): string
    decreases |s|
  {
    if s == [] then [] else (if IsAsciiAlnum(s[0]) then [s[0]] else []) + Alnums(s[1..])
  }

  lemma AlnumsCons(c: char, s: string)
    ensures Alnums([c] + s) == (if IsAsciiAlnum(c) then [c] else []) + Alnums(s)
  {
    assert ([c] + s)[1..] == s;
  }

  lemma {:induction false} AlnumsOfDropped(s: string)
    ensures Alnums(DropNonAlnum(s)) == Alnums(s)
    decreases |s|
  {
    if s != [] && !IsAsciiAlnum(s[0]) {
      AlnumsOfDropped(s[1..]);
    }
  }

  /** Sanitising keeps every letter and digit, in order, and nothing else
      of the input. */
  lemma {:induction false} SanitizeKeepsAlnums(s: string)
    ensures Alnums(Sanitize(s)) == Alnums(s)
    decreases |s|
  {
    if s != [] {
      if IsAsciiAlnum(s[0]) {
        SanitizeKeepsAlnums(s[1..]);
        assert Sanitize(s) == [s[0]] + Sanitize(s[1..]);
        AlnumsCons(s[0], Sanitize(s[1..]));
      } else {
        var rest := DropNonAlnum(s[1..]);
        SanitizeKeepsAlnums(rest);
        AlnumsOfDropped(s[1..]);
        assert Sanitize(s) == ['_'] + Sanitize(rest);
        AlnumsCons('_', Sanitize(rest));
      }
    }
  }

  /** A name made of letters, digits and single '_'s is left as it is, so
      sanitising twice is sanitising once. */
  lemma {:induction false} SanitizeFixed(r: string)
    requires forall i :: 0 <= i < |r| ==> IsAsciiAlnum(r[i]) || r[i] == '_'
    requires forall i :: 0 <= i < |r| - 1 ==> r[i] != '_' || r[i + 1] != '_'
    ensures Sanitize(r) == r
    decreases |r|
  {
    if r != [] {
      SanitizeFixed(r[1..]);
      if !IsAsciiAlnum(r[0]) {
        assert r[1..] == [] || IsAsciiAlnum(r[1]);
        assert DropNonAlnum(r[1..]) == r[1..];
      }
    }
  }

  lemma SanitizeIdempotent(s: string)
    ensures Sanitize(Sanitize(s)) == Sanitize(s)
  {
    SanitizeFixed(Sanitize(s));
  }

  lemma {:induction false} DropOfDirname(s: string)
    ensures DropNonAlnum(Download.Dirname(s)) == Download.Dirname(DropNonAlnum(s))
    decreases |s|
  {
    if s != [] {
      assert Download.Dirname(s)[1..] == Download.Dirname(s[1..]);
      if !IsAsciiAlnum(s[0]) {
        DropOfDirname(s[1..]);
      }
    }
  }

  /** The web app collapses each run into one '_' where the API's download
      job replaces character by character: collapsing the job's name gives
      the web app's name. */
  lemma {:induction false} SanitizeOfDirname(s: string)
    ensures Sanitize(Download.Dirname(s)) == Sanitize(s)
    decreases |s|
  {
    if s != [] {
      var d := Download.Dirname(s);
      assert d[1..] == Download.Dirname(s[1..]);
      if IsAsciiAlnum(s[0]) {
        SanitizeOfDirname(s[1..]);
      } else {
        DropOfDirname(s[1..]);
        SanitizeOfDirname(DropNonAlnum(s[1..]));
      }
    }
  }

  /** `path.join(dataDir, name)` for a name with no separator and no dot. */
  function ProcessDir(dataDir: string, inputUrl: string): (r: string)
  {
    var name := Sanitize(inputUrl);
    if name == [] then dataDir else dataDir + "/" + name
  }

  /** The processing directory sits directly inside the data directory
      under a name of letters, digits and '_' only, whatever the URL. */
  lemma ProcessDirInsideData(dataDir: string, inputUrl: string)
    requires inputUrl != []
    ensures var r := ProcessDir(dataDir, inputUrl);
      && |r| > |dataDir| + 1 && r[..|dataDir| + 1] == dataDir + "/"
      && '/' !in r[|dataDir| + 1..] && '.' !in r[|dataDir| + 1..]
  {
    var r := ProcessDir(dataDir, inputUrl);
    assert r[|dataDir| + 1..] == Sanitize(inputUrl);
  }

  /** `s` without the separators it ends with. */
  function TrimTrailing(s: string, c: char): (r: string)
    ensures |r| <= |s| && r == s[..|r|]
    ensures r == [] || r[|r| - 1] != c
    decreases |s|
  {
    if s != [] && s[|s| - 1] == c then TrimTrailing(s[..|s| - 1], c) else s
  }

  /** Node's `path.basename` on '/'-separated paths. */
  function Basename(p: string): (r: string)
    ensures '/' !in r
    ensures '/' !in p ==> r == p
  {
    var q := TrimTrailing(p, '/');
    q[LastIndexOf(q, '/') + 1..]
  }

  /** A file name up to its last '.', or the whole name when it has none. */
  function Stem(b: string): (r: string)
    ensures |r| <= |b| && r == b[..|r|]
    ensures '.' !in b ==> r == b
    ensures '.' in b ==> |r| < |b| && b[|r|] == '.' && '.' !in b[|r| + 1..]
  {
    var dot := LastIndexOf(b, '.');
    if dot >= 0 then
      assert b[dot] == '.';
      var after := b[dot + 1..];
      assert forall k :: 0 <= k < |after| ==> after[k] == b[dot + 1 + k];
      b[..dot]
    else
      assert forall k :: 0 <= k < |b| ==> b[k] != '.';
      b
  }

  /** `titleFromFilename`: the base name up to its last '.'. */
  function TitleFromFilename(filename: string): (r: string)
    ensures '/' !in r
  {
    Stem(Basename(filename))
  }

  /** The base name of `dir/b` is `b` for a non-empty `b` without '/'. */
  lemma BasenameOfJoin(dir: string, b: string)
    requires '/' !in b && b != []
    ensures Basename(dir + "/" + b) == b
  {
    var p := dir + "/" + b;
    assert p == dir + ['/'] + b;
    assert p[|p| - 1] == b[|b| - 1];
    assert TrimTrailing(p, '/') == p;
    LastIndexOfAfter(dir, '/', b);
    assert p[|dir| + 1..] == b;
  }

  /** The stem of `name.ext` is `name` for an extension without a dot. */
  lemma StemOfDotted(name: string, ext: string)
    requires '.' !in ext
    ensures Stem(name + "." + ext) == name
  {
    var b := name + "." + ext;
    assert b == name + ['.'] + ext;
    LastIndexOfAfter(name, '.', ext);
    assert b[..|name|] == name;
  }

  /** The title of `dir/name.ext` is `name` for an extension without a dot;
      for a name that starts with its only dot (`dir/.ext`) it is "". */
  lemma TitleOfFile(dir: string, name: string, ext: string)
    requires '/' !in name && '/' !in ext && '.' !in ext
    ensures TitleFromFilename(dir + "/" + name + "." + ext) == name
  {
    var b := name + "." + ext;
    assert '/' !in b by {
      assert forall k :: 0 <= k < |b| ==> b[k] == (if k < |name| then name[k] else if k == |name| then '.' else ext[k - |name| - 1]);
    }
    assert dir + "/" + name + "." + ext == dir + "/" + b;
    BasenameOfJoin(dir, b);
    StemOfDotted(name, ext);
  }

  /** JavaScript `s.slice(k)` for `k >= 0`. */
  function SliceFrom(s: string, k: nat): (r: string)
    ensures k <= |s| ==> r == s[k..]
    ensures k > |s| ==> r == ""
  {
    if k <= |s| then s[k..] else ""
  }

  /** The downloader's output template puts this in front of the title. */
  const DownloadPrefix := "video-dl-"

  /** The ways the run stops. */
  datatype ProcessError = DownloaderFailed | NoDownloadedFile | NoSuchFile(path: string)

  /** The message of the error the run throws; the downloader's own
      failure carries the process runner's message, not modelled here. */
  function ErrorMessage(e: ProcessError): (r: Option<string>)
    ensures r.None? <==> e.DownloaderFailed?
  {
    match e
    case DownloaderFailed => None
    case NoDownloadedFile => Some("Failed to download video")
    case NoSuchFile(path) => Some("No such file or directory: " + path)
  }

  datatype Downloaded = Downloaded(videoFile: string, title: string)

  /** `downloadVideo`. An input starting with "http" is downloaded:
      `downloaderOk` is whether the downloader exited cleanly and `found`
      what the glob for the downloaded file matched. Any other input is a
      local file; `fileExists` is whether it is there. */
  function DownloadVideo(inputUrl: string, downloaderOk: bool, found: seq<string>, fileExists: bool): (r: Result<Downloaded, ProcessError>)
    ensures StartsWith(inputUrl, "http") ==>
      (r.Ok? <==> downloaderOk && found != [] && found[0] != "")
    ensures StartsWith(inputUrl, "http") && r.Ok? ==> r.value.videoFile == found[0]
    ensures !StartsWith(inputUrl, "http") ==>
      r == (if fileExists then Ok(Downloaded(inputUrl, TitleFromFilename(inputUrl))) else Err(NoSuchFile(inputUrl)))
    ensures r.Err? && StartsWith(inputUrl, "http") && downloaderOk ==>
      ErrorMessage(r.error) == Some("Failed to download video")
    ensures r.Err? && !StartsWith(inputUrl, "http") ==>
      ErrorMessage(r.error) == Some("No such file or directory: " + inputUrl)
  {
    if StartsWith(inputUrl, "http") then
      if !downloaderOk then Err(DownloaderFailed)
      else if found == [] || found[0] == "" then Err(NoDownloadedFile)
      else Ok(Downloaded(found[0], SliceFrom(TitleFromFilename(found[0]), |DownloadPrefix|)))
    else
      var title := TitleFromFilename(inputUrl);
      if !fileExists then Err(NoSuchFile(inputUrl)) else Ok(Downloaded(inputUrl, title))
  }

  /** A downloaded file named by the output template
      `<dir>/video-dl-<title>.<ext>` gives back the title. */
  lemma DownloadedTitle(inputUrl: string, processDir: string, title: string, ext: string, fileExists: bool)
    requires StartsWith(inputUrl, "http")
    requires '/' !in title && '/' !in ext && '.' !in ext
    ensures var file := processDir + "/" + DownloadPrefix + title + "." + ext;
      DownloadVideo(inputUrl, true, [file], fileExists) == Ok(Downloaded(file, title))
  {
    var name := DownloadPrefix + title;
    var file := processDir + "/" + name + "." + ext;
    assert processDir + "/" + DownloadPrefix + title + "." + ext == file;
    assert TitleFromFilename(file) == name by {
      TitleOfFile(processDir, name, ext);
    }
    assert SliceFrom(name, |DownloadPrefix|) == title by {
      assert name[|DownloadPrefix|..] == title;
    }
    DownloadedFound(inputUrl, file, fileExists);
  }

  /** A download that finds a non-empty file name yields that file, with
      the title read from its name after the output template's prefix. */
  lemma DownloadedFound(inputUrl: string, file: string, fileExists: bool)
    requires StartsWith(inputUrl, "http") && file != ""
    ensures DownloadVideo(inputUrl, true, [file], fileExists)
      == Ok(Downloaded(file, SliceFrom(TitleFromFilename(file), |DownloadPrefix|)))
  {
  }

  /** The images' part of the config. */
  datatype ImageConfig = ImageConfig(maxIndex: int, removed: seq<int>, interval: int)

  /** One frame is extracted every this many seconds. */
  const ImageInterval := 10

  /** `extractImages`: the frames are numbered from 0 to `maxIndex`. */
  function ExtractImages(removed: seq<int>, numImages: nat): (r: ImageConfig)
    ensures r.maxIndex + 1 == numImages
    ensures r.interval == 10 && r.removed == removed
  {
    ImageConfig(numImages - 1, removed, ImageInterval)
  }

  /** The least integer at or above `x` (`Math.ceil`). */
  function Ceil(x: real): (r: int)
    ensures x <= r as real < x + 1.0
  {
    -((-x).Floor)
  }

  /** `findLast((t) => t.timestamp[1])`: the last end time that is present
      and not 0. */
  function LastEnd(ends: seq<Option<real>>): (r: Option<real>)
    ensures r.Some? ==> r.value != 0.0 && exists k :: 0 <= k < |ends| && ends[k] == r
    ensures r.None? ==> forall k :: 0 <= k < |ends| ==> ends[k] == None || ends[k] == Some(0.0)
    decreases |ends|
  {
    if ends == [] then None
    else
      var last := ends[|ends| - 1];
      if last.Some? && last.value != 0.0 then last else LastEnd(ends[..|ends| - 1])
  }

  /** The duration recorded: the last chunk's end rounded up, skipping
      trailing chunks without one, or 0. */
  function FinalTimestamp(ends: seq<Option<real>>): (r: int)
  {
    Ceil(LastEnd(ends).GetOr(0.0))
  }

  lemma {:induction false} LastEndIsLast(ends: seq<Option<real>>, k: nat)
    requires k < |ends| && ends[k].Some? && ends[k].value != 0.0
    requires forall j :: k < j < |ends| ==> ends[j] == None || ends[j] == Some(0.0)
    ensures LastEnd(ends) == ends[k]
    decreases |ends|
  {
    if k < |ends| - 1 {
      LastEndIsLast(ends[..|ends| - 1], k);
    }
  }

  /** The duration covers the last timed chunk and is less than a second
      past it; with no timed chunk it is 0. */
  lemma FinalTimestampBounds(ends: seq<Option<real>>, k: nat)
    requires k < |ends| && ends[k].Some? && ends[k].value != 0.0
    requires forall j :: k < j < |ends| ==> ends[j] == None || ends[j] == Some(0.0)
    ensures ends[k].value <= FinalTimestamp(ends) as real < ends[k].value + 1.0
  {
    LastEndIsLast(ends, k);
  }

  lemma NoTimedChunk(ends: seq<Option<real>>)
    requires forall j :: 0 <= j < |ends| ==> ends[j] == None
    ensures FinalTimestamp(ends) == 0
  {
  }

  /** What `statusCb` is told. */
  datatype ProcessStatus = Downloading | Processing | Complete

  /** The config the run writes to `sbbp.json` and returns. */
  datatype ProcessResult = ProcessResult(
    title: string,
    originalVideoPath: string,
    processedPath: string,
    images: ImageConfig,
    summary: string,
    duration: int)

  /** The config a run produces, or why it stopped. */
  function RunResult(inputUrl: string, dataDir: string, downloaderOk: bool, found: seq<string>, fileExists: bool,
                     ends: seq<Option<real>>, summary: Option<string>, removed: seq<int>, numImages: nat): Result<ProcessResult, ProcessError>
  {
    match DownloadVideo(inputUrl, downloaderOk, found, fileExists)
    case Err(e) => Err(e)
    case Ok(d) => Ok(Completed(d, inputUrl, dataDir, ends, summary, removed, numImages))
  }

  /** The config written once the video is at hand: the audio pass gives the
      summary and the duration, the image pass the frames. */
  function Completed(d: Downloaded, inputUrl: string, dataDir: string, ends: seq<Option<real>>, summary: Option<string>,
                     removed: seq<int>, numImages: nat): ProcessResult
  {
    ProcessResult(d.title, inputUrl, ProcessDir(dataDir, inputUrl), ExtractImages(removed, numImages),
      summary.GetOr(""), FinalTimestamp(ends))
  }

  /** What `statusCb` has been told by the end of a run. */
  function StatusesOf(r: Result<ProcessResult, ProcessError>): seq<ProcessStatus> {
    if r.Ok? then [Downloading, Processing, Complete] else [Downloading]
  }

  /** A run fails exactly when the download does, with its error; a run
      that completes records the input as the original path, its own
      directory as the processed path, the downloaded title, the frame
      count, the summary or "" when summarising threw, and the duration. */
  lemma RunContents(inputUrl: string, dataDir: string, downloaderOk: bool, found: seq<string>, fileExists: bool,
                    ends: seq<Option<real>>, summary: Option<string>, removed: seq<int>, numImages: nat)
    ensures var r := RunResult(inputUrl, dataDir, downloaderOk, found, fileExists, ends, summary, removed, numImages);
      var d := DownloadVideo(inputUrl, downloaderOk, found, fileExists);
      && (r.Err? <==> d.Err?)
      && (r.Err? ==> r.error == d.error)
      && (r.Ok? ==>
        && r.value.title == d.value.title
        && r.value.originalVideoPath == inputUrl
        && r.value.processedPath == ProcessDir(dataDir, inputUrl)
        && r.value.images.maxIndex + 1 == numImages && r.value.images.interval == ImageInterval
        && r.value.images.removed == removed
        && (summary.None? ==> r.value.summary == "")
        && (summary.Some? ==> r.value.summary == summary.value)
        && r.value.duration == FinalTimestamp(ends))
  {
  }

  lemma StatusesInOrder()
    ensures [Downloading] + [Processing] + [Complete] == StatusesOf(Ok(ProcessResult("", "", "", ImageConfig(0, [], 0), "", 0)))
  {
  }

  /** `processInput`. `summary` is what the summariser returned, or None
      when it threw; `ends` are the transcript chunks' end times; `removed`
      and `numImages` are what the similarity pass reported. */
  method ProcessInput(inputUrl: string, dataDir: string, downloaderOk: bool, found: seq<string>, fileExists: bool,
                      ends: seq<Option<real>>, summary: Option<string>, removed: seq<int>, numImages: nat)
    returns (statuses: seq<ProcessStatus>, r: Result<ProcessResult, ProcessError>)
    ensures r == RunResult(inputUrl, dataDir, downloaderOk, found, fileExists, ends, summary, removed, numImages)
    ensures statuses == StatusesOf(r)
  {
    statuses := [Downloading];
    var downloaded := DownloadVideo(inputUrl, downloaderOk, found, fileExists);
    match downloaded {
      case Err(e) =>
        r := Err(e);
        assert statuses == StatusesOf(r);
      case Ok(d) =>
        statuses := statuses + [Processing];
        var config := Completed(d, inputUrl, dataDir, ends, summary, removed, numImages);
        statuses := statuses + [Complete];
        r := Ok(config);
        StatusesInOrder();
    }
  }
}

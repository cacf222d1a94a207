/** The analysis job: download the extracted frames, mark near-duplicate
    frames for removal, generate thumbnails, and merge the outcome into the
    video's `images` column. Image decoding, resizing, WebP encoding, storage
    transfers and the similarity measure are parameters. */
module Analyze {
  import opened Wrappers
  import opened Json
  import opened VideoTypes
  import opened VideoModel
  import opened Jobs
  import Dedup

  /** A decoded frame; only its width matters to this model. */
  datatype Image = Image(width: nat, height: nat, pixels: seq<int>)

  const THUMBNAIL_SIZES: seq<nat> := [720, 1280, 1920]

  /** Files by name; `None` is a file that is present but does not decode. */
  type Files = map<string, Option<Image>>

  /** `image::open`: succeeds on a present, decodable file. */
  function Open(files: Files, name: string): (r: Option<Image>)
    ensures r.Some? <==> name in files && files[name].Some?
  {
    if name in files then files[name] else None
  }

  /** The similarity measure: a score, or `None` where it fails. */
  type Compare = (Image, Image) -> Option<real>

  // ---- near-duplicate detection ---------------------------------------

  /** `i as u32`. */
  function AsU32(i: nat): (r: nat)
    ensures r < U32_LIMIT
    ensures i < U32_LIMIT ==> r == i
  {
    if i < U32_LIMIT then i else i % U32_LIMIT
  }

  /** Opening frame i of the working directory. */
  type Reader = nat -> Option<Image>

  function FrameReader(files: Files): (read: Reader)
    ensures forall i :: read(i) == Open(files, ImageFilename(i, None))
  {
    (i: nat) => Open(files, ImageFilename(i, None))
  }

  /** Frames removed so far and the current reference frame. */
  datatype SsimState = SsimState(removed: seq<nat>, reference: Image)

  /** Visit frame i: it fails to read, the comparison fails, it is removed
      (reference unchanged), or it is kept and becomes the reference. */
  function SsimStep(read: Reader, compare: Compare, threshold: real, st: SsimState, i: nat): (r: Result<SsimState, JobError>)
    ensures r.Ok? ==> r.value.removed == st.removed || r.value.removed == st.removed + [AsU32(i)]
  {
    var img := read(i);
    if img.None? then Err(ReadImage)
    else
      var score := compare(st.reference, img.value);
      if score.None? then Err(CalculatingSimilarity)
      else if score.value >= threshold then Ok(SsimState(st.removed + [AsU32(i)], st.reference))
      else Ok(SsimState(st.removed, img.value))
  }

  /** The walk over frames 1..=upto starting from reference `init`, or the
      first failure. */
  function SsimWalk(read: Reader, compare: Compare, threshold: real, init: Image, upto: nat): (r: Result<SsimState, JobError>)
    ensures r.Ok? ==> |r.value.removed| <= upto
    ensures r.Err? ==> r.error == ReadImage || r.error == CalculatingSimilarity
    decreases upto
  {
    if upto == 0 then Ok(SsimState([], init))
    else
      var prev := SsimWalk(read, compare, threshold, init, upto - 1);
      if prev.Err? then prev else SsimStep(read, compare, threshold, prev.value, upto)
  }

  /** The de-duplication pass: the reference starts as the LAST frame, then
      frames 1..=maxIndex are walked in order. Frame 0 is never considered. */
  function SsimPipeline(files: Files, maxIndex: nat, compare: Compare, threshold: real): (r: Result<seq<nat>, JobError>)
    ensures Open(files, ImageFilename(maxIndex, None)).None? ==> r == Err(ExtractingImages)
  {
    match Open(files, ImageFilename(maxIndex, None))
    case None => Err(ExtractingImages)
    case Some(init) =>
      var w := SsimWalk(FrameReader(files), compare, threshold, init, maxIndex);
      if w.Err? then Err(w.error) else Ok(w.value.removed)
  }

  lemma {:induction false} SsimWalkErrorPersists(read: Reader, compare: Compare, threshold: real, init: Image, k: nat, m: nat)
    requires k <= m
    requires SsimWalk(read, compare, threshold, init, k).Err?
    ensures SsimWalk(read, compare, threshold, init, m) == SsimWalk(read, compare, threshold, init, k)
    decreases m - k
  {
    if k < m {
      SsimWalkErrorPersists(read, compare, threshold, init, k, m - 1);
    }
  }

  /** A walk that has not failed takes one more step. */
  lemma SsimWalkStep(read: Reader, compare: Compare, threshold: real, init: Image, i: nat)
    requires i > 0 && SsimWalk(read, compare, threshold, init, i - 1).Ok?
    ensures SsimWalk(read, compare, threshold, init, i)
      == SsimStep(read, compare, threshold, SsimWalk(read, compare, threshold, init, i - 1).value, i)
  {
  }

  method RunSsimPipeline(files: Files, maxIndex: nat, compare: Compare, threshold: real) returns (r: Result<seq<nat>, JobError>)
    ensures r == SsimPipeline(files, maxIndex, compare, threshold)
  {
    var first := Open(files, ImageFilename(maxIndex, None));
    if first.None? {
      return Err(ExtractingImages);
    }
    ghost var read := FrameReader(files);
    var init := first.value;
    var lastImage := init;
    var removed: seq<nat> := [];
    for i := 1 to maxIndex + 1
      invariant SsimWalk(read, compare, threshold, init, i - 1) == Ok(SsimState(removed, lastImage))
    {
      SsimWalkStep(read, compare, threshold, init, i);
      var thisImage := Open(files, ImageFilename(i, None));
      assert read(i) == thisImage;
      if thisImage.None? {
        SsimWalkErrorPersists(read, compare, threshold, init, i, maxIndex);
        return Err(ReadImage);
      }
      var ssim := compare(lastImage, thisImage.value);
      if ssim.None? {
        SsimWalkErrorPersists(read, compare, threshold, init, i, maxIndex);
        return Err(CalculatingSimilarity);
      }
      if ssim.value >= threshold {
        removed := removed + [AsU32(i)];
      } else {
        lastImage := thisImage.value;
      }
    }
    return Ok(removed);
  }

  /** The removed list is strictly increasing and every entry is a frame in
      [1, maxIndex] (indices fit in `u32`). */
  lemma {:induction false} SsimWalkRemovedShape(read: Reader, compare: Compare, threshold: real, init: Image, upto: nat)
    requires upto < U32_LIMIT
    requires SsimWalk(read, compare, threshold, init, upto).Ok?
    ensures var removed := SsimWalk(read, compare, threshold, init, upto).value.removed;
      Dedup.Increasing(removed) && forall k :: 0 <= k < |removed| ==> 1 <= removed[k] <= upto
    decreases upto
  {
    if upto > 0 {
      SsimWalkRemovedShape(read, compare, threshold, init, upto - 1);
      var prev := SsimWalk(read, compare, threshold, init, upto - 1).value.removed;
      var now := SsimWalk(read, compare, threshold, init, upto).value.removed;
      assert AsU32(upto) == upto;
      if now != prev {
        assert now == prev + [upto];
        Dedup.IncreasingSnoc(prev, upto);
      }
    }
  }

  lemma SsimRemovedShape(files: Files, maxIndex: nat, compare: Compare, threshold: real)
    requires maxIndex < U32_LIMIT
    requires SsimPipeline(files, maxIndex, compare, threshold).Ok?
    ensures var removed := SsimPipeline(files, maxIndex, compare, threshold).value;
      Dedup.Increasing(removed) && forall k :: 0 <= k < |removed| ==> 1 <= removed[k] <= maxIndex
  {
    var init := Open(files, ImageFilename(maxIndex, None)).value;
    SsimWalkRemovedShape(FrameReader(files), compare, threshold, init, maxIndex);
  }

  // ---- agreement with the reference walk --------------------------------

  /** Every frame 1..=upto decodes. */
  predicate FramesReadable(read: Reader, upto: nat) {
    forall i :: 1 <= i <= upto ==> read(i).Some?
  }

  /** Frames 1..=upto, in order. */
  function Frames(read: Reader, upto: nat): (r: seq<Image>)
    requires FramesReadable(read, upto)
    ensures |r| == upto
    ensures upto > 0 ==> r[upto - 1] == read(upto).value
    decreases upto
  {
    if upto == 0 then [] else Frames(read, upto - 1) + [read(upto).value]
  }

  /** The similarity measure never fails. */
  ghost predicate Total(compare: Compare) {
    forall a, b :: compare(a, b).Some?
  }

  ghost function Score(compare: Compare): (Image, Image) -> real
    requires Total(compare)
  {
    (a, b) => compare(a, b).value
  }

  /** Positions in the walk are frames shifted by one. */
  function ToFrames(positions: seq<nat>): (r: seq<nat>)
    ensures |r| == |positions| && forall k :: 0 <= k < |r| ==> r[k] == AsU32(positions[k] + 1)
  {
    seq(|positions|, k requires 0 <= k < |positions| => AsU32(positions[k] + 1))
  }

  lemma ToFramesSnoc(positions: seq<nat>, p: nat)
    ensures ToFrames(positions + [p]) == ToFrames(positions) + [AsU32(p + 1)]
  {
  }

  /** When every frame decodes and the measure never fails, the job's walk is
      the reference walk over frames 1..=upto. */
  lemma {:induction false} SsimWalkIsDedup(read: Reader, compare: Compare, threshold: real, init: Image, upto: nat)
    requires FramesReadable(read, upto) && Total(compare)
    ensures var w := Dedup.Walk(init, Frames(read, upto), Score(compare), threshold);
      SsimWalk(read, compare, threshold, init, upto) == Ok(SsimState(ToFrames(w.removed), w.reference))
    decreases upto
  {
    if upto > 0 {
      var n: nat := upto - 1;
      assert FramesReadable(read, n);
      SsimWalkIsDedup(read, compare, threshold, init, n);
      var score := Score(compare);
      var before := Frames(read, n);
      var img := read(upto).value;
      assert Frames(read, upto) == before + [img];
      Dedup.WalkSnoc(init, before, img, score, threshold);
      var prev := Dedup.Walk(init, before, score, threshold);
      var st := SsimState(ToFrames(prev.removed), prev.reference);
      assert SsimWalk(read, compare, threshold, init, upto) == SsimStep(read, compare, threshold, st, upto);
      assert compare(prev.reference, img) == Some(score(prev.reference, img));
      if score(prev.reference, img) >= threshold {
        ToFramesSnoc(prev.removed, n);
      }
    }
  }

  /** Shifting positions below `U32_LIMIT - 1` to frames: frame i is listed
      exactly when position i - 1 is. */
  lemma ToFramesHas(positions: seq<nat>, bound: nat, i: nat)
    requires 1 <= i && bound < U32_LIMIT
    requires forall k :: 0 <= k < |positions| ==> positions[k] < bound
    ensures i in ToFrames(positions) <==> i - 1 in positions
  {
    var frames := ToFrames(positions);
    if i in frames {
      var k :| 0 <= k < |frames| && frames[k] == i;
      assert AsU32(positions[k] + 1) == positions[k] + 1;
    }
    if i - 1 in positions {
      var k :| 0 <= k < |positions| && positions[k] == i - 1;
      assert frames[k] == i;
    }
  }

  /** Frame i of the walk is removed exactly when it scores at or above the
      threshold against the reference in force when it is reached. */
  lemma SsimWalkRemovedIff(read: Reader, compare: Compare, threshold: real, init: Image, upto: nat, i: nat)
    requires 1 <= i <= upto < U32_LIMIT
    requires FramesReadable(read, upto) && Total(compare)
    ensures var frames := Frames(read, upto);
      SsimWalk(read, compare, threshold, init, upto).Ok?
      && (i in SsimWalk(read, compare, threshold, init, upto).value.removed <==>
          Score(compare)(Dedup.ReferenceBefore(init, frames, Score(compare), threshold, i - 1), frames[i - 1]) >= threshold)
  {
    var frames := Frames(read, upto);
    SsimWalkIsDedup(read, compare, threshold, init, upto);
    var w := Dedup.Walk(init, frames, Score(compare), threshold);
    Dedup.RemovedIff(init, frames, Score(compare), threshold, i - 1);
    ToFramesHas(w.removed, upto, i);
  }

  /** Frame i in 1..=maxIndex is removed exactly when it scores at or above
      the threshold against the reference in force when it is reached: the
      last frame kept before it, or frame maxIndex if none was. */
  lemma SsimRemovedIff(files: Files, maxIndex: nat, compare: Compare, threshold: real, i: nat)
    requires 1 <= i <= maxIndex < U32_LIMIT
    requires FramesReadable(FrameReader(files), maxIndex) && Total(compare)
    ensures var init := Open(files, ImageFilename(maxIndex, None)).value;
      var frames := Frames(FrameReader(files), maxIndex);
      SsimPipeline(files, maxIndex, compare, threshold).Ok?
      && (i in SsimPipeline(files, maxIndex, compare, threshold).value <==>
          Score(compare)(Dedup.ReferenceBefore(init, frames, Score(compare), threshold, i - 1), frames[i - 1]) >= threshold)
  {
    var read := FrameReader(files);
    assert read(maxIndex).Some?;
    var init := Open(files, ImageFilename(maxIndex, None)).value;
    SsimWalkRemovedIff(read, compare, threshold, init, maxIndex, i);
  }

  /** When every frame before the last was removed, the last frame is
      compared with the initial reference. */
  lemma SsimWalkLastAgainstInit(read: Reader, compare: Compare, threshold: real, init: Image, upto: nat)
    requires 1 <= upto < U32_LIMIT
    requires FramesReadable(read, upto) && Total(compare)
    requires SsimWalk(read, compare, threshold, init, upto).Ok?
    requires forall i :: 1 <= i < upto ==> i in SsimWalk(read, compare, threshold, init, upto).value.removed
    ensures upto in SsimWalk(read, compare, threshold, init, upto).value.removed <==>
      compare(init, read(upto).value).value >= threshold
  {
    var frames := Frames(read, upto);
    var score := Score(compare);
    var removed := SsimWalk(read, compare, threshold, init, upto).value.removed;
    forall k | 0 <= k < upto - 1
      ensures k in Dedup.Removed(init, frames, score, threshold)
    {
      SsimWalkRemovedIff(read, compare, threshold, init, upto, k + 1);
      Dedup.RemovedIff(init, frames, score, threshold, k);
      assert k + 1 in removed;
    }
    Dedup.LastAgainstInitial(init, frames, score, threshold);
    SsimWalkRemovedIff(read, compare, threshold, init, upto, upto);
    Dedup.RemovedIff(init, frames, score, threshold, upto - 1);
  }

  /** The last frame is not protected: when every earlier frame was removed
      it is compared with itself, and is removed too whenever a frame scores
      at or above the threshold against itself. */
  lemma LastFrameComparedWithItself(files: Files, maxIndex: nat, compare: Compare, threshold: real)
    requires 1 <= maxIndex < U32_LIMIT
    requires FramesReadable(FrameReader(files), maxIndex) && Total(compare)
    requires SsimPipeline(files, maxIndex, compare, threshold).Ok?
    requires forall i :: 1 <= i < maxIndex ==> i in SsimPipeline(files, maxIndex, compare, threshold).value
    ensures var last := Open(files, ImageFilename(maxIndex, None)).value;
      maxIndex in SsimPipeline(files, maxIndex, compare, threshold).value <==> compare(last, last).value >= threshold
  {
    var read := FrameReader(files);
    assert read(maxIndex).Some?;
    var init := Open(files, ImageFilename(maxIndex, None)).value;
    assert read(maxIndex).value == init;
    SsimWalkLastAgainstInit(read, compare, threshold, init, maxIndex);
  }

  /** If every frame differs from every other, nothing is removed; if every
      frame matches the last one, frames 1..=maxIndex are all removed. */
  lemma SsimExtremes(files: Files, maxIndex: nat, compare: Compare, threshold: real)
    requires maxIndex < U32_LIMIT
    requires Open(files, ImageFilename(maxIndex, None)).Some?
    requires FramesReadable(FrameReader(files), maxIndex) && Total(compare)
    ensures (forall a, b :: compare(a, b).value < threshold) ==>
      SsimPipeline(files, maxIndex, compare, threshold) == Ok([])
    ensures (forall a, b :: compare(a, b).value >= threshold) ==>
      SsimPipeline(files, maxIndex, compare, threshold) == Ok(ToFrames(Dedup.Range(0, maxIndex)))
  {
    var read := FrameReader(files);
    var init := Open(files, ImageFilename(maxIndex, None)).value;
    var frames := Frames(read, maxIndex);
    var score := Score(compare);
    SsimWalkIsDedup(read, compare, threshold, init, maxIndex);
    if forall a, b :: compare(a, b).value < threshold {
      Dedup.AllDifferent(init, frames, score, threshold);
    }
    if forall a, b :: compare(a, b).value >= threshold {
      Dedup.AllSimilar(init, frames, score, threshold);
    }
  }

  // ---- thumbnails --------------------------------------------------------

  /** The sizes of `sizes` strictly below `width`, in order. */
  function SizesBelow(sizes: seq<nat>, width: nat): (r: seq<nat>)
    ensures forall s :: s in r <==> s in sizes && s < width
    ensures |r| <= |sizes|
    ensures Dedup.Increasing(sizes) ==> Dedup.Increasing(r)
    decreases |sizes|
  {
    if sizes == [] then []
    else
      var rest := SizesBelow(sizes[..|sizes| - 1], width);
      var s := sizes[|sizes| - 1];
      assert forall x :: x in sizes <==> x in sizes[..|sizes| - 1] || x == s;
      if s < width then
        (if Dedup.Increasing(sizes) then
           assert Dedup.Increasing(sizes[..|sizes| - 1]);
           assert forall k :: 0 <= k < |rest| ==> rest[k] in sizes[..|sizes| - 1];
           Dedup.IncreasingSnoc(rest, s);
           rest + [s]
         else rest + [s])
      else rest
  }

  /** The sizes are ascending, so the thumbnails made are a prefix of them. */
  lemma ThumbnailSizesForWidth(width: nat)
    ensures SizesBelow(THUMBNAIL_SIZES, width) ==
      if width <= 720 then [] else if width <= 1280 then [720] else if width <= 1920 then [720, 1280]
      else THUMBNAIL_SIZES
  {
    assert THUMBNAIL_SIZES[..2] == [720, 1280];
    assert THUMBNAIL_SIZES[..2][..1] == [720];
    assert THUMBNAIL_SIZES[..2][..1][..0] == [];
  }

  /** `generate_thumbnails`: one WebP file per size below the frame's width,
      named after the frame and size; an encoder failure on any of them fails
      the whole frame. `encodes` says whether encoding at a size succeeds. */
  function GenerateThumbnails(image: Image, index: nat, encodes: (Image, nat) -> bool)
    : (r: Result<seq<string>, JobError>)
    ensures r.Ok? <==> forall s :: s in SizesBelow(THUMBNAIL_SIZES, image.width) ==> encodes(image, s)
    ensures r.Err? ==> r.error == Thumbnail
    ensures r.Ok? ==> (|r.value| == |SizesBelow(THUMBNAIL_SIZES, image.width)|
      && forall k :: 0 <= k < |r.value| ==>
        r.value[k] == ImageFilename(index, Some(SizesBelow(THUMBNAIL_SIZES, image.width)[k])))
  {
    EncodeAll(SizesBelow(THUMBNAIL_SIZES, image.width), image, encodes, (w: nat) => ImageFilename(index, Some(w)))
  }

  /** Encoding `image` at each size in turn, naming each output with `name`;
      the first size that fails to encode fails the whole list. */
  function EncodeAll(sizes: seq<nat>, image: Image, encodes: (Image, nat) -> bool, name: nat -> string)
    : (r: Result<seq<string>, JobError>)
    ensures r.Ok? <==> forall s :: s in sizes ==> encodes(image, s)
    ensures r.Err? ==> r.error == Thumbnail
    ensures r.Ok? ==> |r.value| == |sizes| && forall k :: 0 <= k < |sizes| ==> r.value[k] == name(sizes[k])
    decreases |sizes|
  {
    if sizes == [] then Ok([])
    else
      var front := sizes[..|sizes| - 1];
      var s := sizes[|sizes| - 1];
      SplitLast(sizes);
      match EncodeAll(front, image, encodes, name)
      case Err(e) => Err(e)
      case Ok(names) =>
        if encodes(image, s) then
          var all := names + [name(s)];
          assert forall k :: 0 <= k < |front| ==> all[k] == names[k] && sizes[k] == front[k];
          Ok(all)
        else Err(Thumbnail)
  }

  /** A non-empty sequence is its front and its last element. */
  lemma SplitLast<T>(s: seq<T>)
    requires |s| > 0
    ensures s == s[..|s| - 1] + [s[|s| - 1]]
    ensures forall x :: x in s <==> x in s[..|s| - 1] || x == s[|s| - 1]
  {
  }

  /** One frame of the thumbnail pass: open frame `index`, encode its
      thumbnails and upload each under the storage prefix. The keys put, or
      the first failure. */
  function ThumbnailFrame(files: Files, prefix: string, index: nat, encodes: (Image, nat) -> bool,
                          uploads: string -> bool): (r: Result<seq<string>, JobError>)
    ensures r.Ok? ==> Open(files, ImageFilename(index, None)).Some?
    ensures r.Err? ==> r.error == ReadImage || r.error == Thumbnail || r.error == StorageUpload
  {
    match Open(files, ImageFilename(index, None))
    case None => Err(ReadImage)
    case Some(img) =>
      match GenerateThumbnails(img, index, encodes)
      case Err(e) => Err(e)
      case Ok(names) =>
        var keys := StorageKeys(prefix, names);
        if forall k :: k in keys ==> uploads(k) then Ok(keys) else Err(StorageUpload)
  }

  /** The thumbnail pass over frames 1..=upto: the storage keys uploaded, or
      the first failure (`uploads` says whether a put to a key succeeds). */
  function ThumbnailPipeline(files: Files, prefix: string, upto: nat, encodes: (Image, nat) -> bool,
                             uploads: string -> bool): (r: Result<seq<string>, JobError>)
    ensures r.Err? ==> r.error == ReadImage || r.error == Thumbnail || r.error == StorageUpload
  {
    var frame := (i: nat) => ThumbnailFrame(files, prefix, i, encodes, uploads);
    var r := EachFrame(upto, frame);
    assert r.Err? ==> exists i :: 1 <= i <= upto && frame(i) == Err(r.error);
    r
  }

  /** A thumbnail pass that succeeds has opened every frame from 1 to `upto`. */
  lemma ThumbnailPipelineOpensAll(files: Files, prefix: string, upto: nat,
                                  encodes: (Image, nat) -> bool, uploads: string -> bool, i: nat)
    requires ThumbnailPipeline(files, prefix, upto, encodes, uploads).Ok?
    requires 1 <= i <= upto
    ensures Open(files, ImageFilename(i, None)).Some?
  {
    var frame := (j: nat) => ThumbnailFrame(files, prefix, j, encodes, uploads);
    assert EachFrame(upto, frame).Ok?;
    assert frame(i).Ok?;
  }

  /** Frames 1..=upto passed in turn through `frame`, collecting what each
      answers; the first failure stops the pass. */
  function EachFrame(upto: nat, frame: nat -> Result<seq<string>, JobError>): (r: Result<seq<string>, JobError>)
    ensures r.Ok? ==> forall i :: 1 <= i <= upto ==> frame(i).Ok?
    ensures r.Err? ==> exists i :: 1 <= i <= upto && frame(i) == Err(r.error)
    decreases upto
  {
    if upto == 0 then Ok([])
    else
      match EachFrame(upto - 1, frame)
      case Err(e) => Err(e)
      case Ok(keys) =>
        match frame(upto)
        case Err(e) => Err(e)
        case Ok(newKeys) => Ok(keys + newKeys)
  }

  function StorageKeys(prefix: string, names: seq<string>): (r: seq<string>)
    ensures |r| == |names| && forall k :: 0 <= k < |r| ==> r[k] == prefix + "/" + names[k]
  {
    seq(|names|, k requires 0 <= k < |names| => prefix + "/" + names[k])
  }

  // ---- the whole job ---------------------------------------------------

  /** Frames 1..=upto copied from storage into the working directory, or
      `StorageDownload` if one is missing. Frame 0 is not fetched. */
  function DownloadFrames(storage: Files, prefix: string, upto: nat): (r: Result<Files, JobError>)
    ensures r.Ok? <==> forall i :: 1 <= i <= upto ==> prefix + "/" + ImageFilename(i, None) in storage
    ensures r.Err? ==> r.error == StorageDownload
    ensures r.Ok? ==> forall i :: 1 <= i <= upto ==>
      ImageFilename(i, None) in r.value && r.value[ImageFilename(i, None)] == storage[prefix + "/" + ImageFilename(i, None)]
    ensures r.Ok? ==> forall name :: name in r.value ==> exists i :: 1 <= i <= upto && name == ImageFilename(i, None)
  {
    var name := (i: nat) => ImageFilename(i, None);
    assert forall i: nat :: name(i) == ImageFilename(i, None);
    DownloadNamed(storage, prefix, upto, name)
  }

  /** The download loop for files named by `name`, fetched from the key
      `prefix/name`. */
  function DownloadNamed(storage: Files, prefix: string, upto: nat, name: nat -> string): (r: Result<Files, JobError>)
    ensures r.Ok? <==> forall i :: 1 <= i <= upto ==> prefix + "/" + name(i) in storage
    ensures r.Err? ==> r.error == StorageDownload
    ensures r.Ok? ==> forall i :: 1 <= i <= upto ==>
      name(i) in r.value && r.value[name(i)] == storage[prefix + "/" + name(i)]
    ensures r.Ok? ==> forall n :: n in r.value ==> exists i :: 1 <= i <= upto && n == name(i)
    decreases upto
  {
    if upto == 0 then Ok(map[])
    else
      var key := prefix + "/" + name(upto);
      match DownloadNamed(storage, prefix, upto - 1, name)
      case Err(e) => Err(e)
      case Ok(files) =>
        if key in storage then Ok(files[name(upto) := storage[key]]) else Err(StorageDownload)
  }

  /** The object merged into the `images` column: the full size list, whatever
      thumbnails were actually produced, and the removed frames. */
  function ImagesUpdate(removed: seq<nat>): (r: Json)
    ensures r.Object? && r.fields.Keys == {"thumbnail_widths", "removed"}
    ensures r.fields["removed"].Array? && |r.fields["removed"].elems| == |removed|
  {
    Object(map["thumbnail_widths" := Array(EncodeNats(THUMBNAIL_SIZES)), "removed" := Array(EncodeNats(removed))])
  }

  datatype Outcome = Outcome(images: Option<Json>, uploadedKeys: seq<string>)

  /** The analysis job for a video whose frames live under `prefix`, given the
      current `images` column. Any failure happens before the update, so the
      column is only ever changed by a successful run. */
  function Run(storage: Files, prefix: string, maxIndex: nat, compare: Compare, threshold: real,
               encodes: (Image, nat) -> bool, uploads: string -> bool, images: Option<Json>): (r: Result<Outcome, JobError>)
    ensures r.Ok? ==> DownloadFrames(storage, prefix, maxIndex).Ok?
    ensures r.Ok? ==> var files := DownloadFrames(storage, prefix, maxIndex).value;
      SsimPipeline(files, maxIndex, compare, threshold).Ok?
      && ThumbnailPipeline(files, prefix, maxIndex, encodes, uploads).Ok?
      && r.value.images == Concat(images, ImagesUpdate(SsimPipeline(files, maxIndex, compare, threshold).value))
  {
    match DownloadFrames(storage, prefix, maxIndex)
    case Err(e) => Err(e)
    case Ok(files) =>
      var ssim := SsimPipeline(files, maxIndex, compare, threshold);
      var thumbs := ThumbnailPipeline(files, prefix, maxIndex, encodes, uploads);
      if ssim.Err? then Err(ssim.error)
      else if thumbs.Err? then Err(thumbs.error)
      else Ok(Outcome(Concat(images, ImagesUpdate(ssim.value)), thumbs.value))
  }

  /** With no frame after 0 the reference frame is never fetched, so the job
      fails reading it. */
  lemma RunWithoutFrames(storage: Files, prefix: string, compare: Compare, threshold: real,
                         encodes: (Image, nat) -> bool, uploads: string -> bool, images: Option<Json>)
    ensures Run(storage, prefix, 0, compare, threshold, encodes, uploads, images) == Err(ExtractingImages)
  {
  }

  lemma {:induction false} U32Frames(read: Reader, compare: Compare, threshold: real, init: Image, upto: nat)
    requires SsimWalk(read, compare, threshold, init, upto).Ok?
    ensures AllU32(SsimWalk(read, compare, threshold, init, upto).value.removed)
    decreases upto
  {
    if upto > 0 {
      U32Frames(read, compare, threshold, init, upto - 1);
    }
  }

  /** Merging the update into an images object that reads as `im` gives one
      that reads with the same frame count and interval, all three thumbnail
      widths and the given removed frames. */
  lemma MergedImagesDecode(column: Json, removed: seq<nat>)
    requires DecodeImages(column).Some? && AllU32(removed)
    ensures Concat(Some(column), ImagesUpdate(removed)).Some?
    ensures var im := DecodeImages(column).value;
      DecodeImages(Concat(Some(column), ImagesUpdate(removed)).value) ==
        Some(VideoImages(im.maxIndex, im.interval, THUMBNAIL_SIZES, removed))
  {
    U32sRoundTrip(removed);
    U32sRoundTrip(THUMBNAIL_SIZES);
    var upd := ImagesUpdate(removed);
    var merged := Object(column.fields + upd.fields);
    assert Concat(Some(column), upd) == Some(merged);
    assert Get(merged, "max_index") == Get(column, "max_index");
    assert Get(merged, "interval") == Get(column, "interval");
    assert merged.fields["thumbnail_widths"] == Array(EncodeNats(THUMBNAIL_SIZES));
    assert merged.fields["removed"] == Array(EncodeNats(removed));
  }

  /** After a successful run, an images column that held a valid
      `VideoImages` still reads back with the same frame count and interval,
      all three thumbnail widths, and the frames just removed. */
  lemma RunRecordsImages(storage: Files, prefix: string, maxIndex: nat, compare: Compare, threshold: real,
                         encodes: (Image, nat) -> bool, uploads: string -> bool, column: Json)
    requires Run(storage, prefix, maxIndex, compare, threshold, encodes, uploads, Some(column)).Ok?
    requires DecodeImages(column).Some?
    ensures var files := DownloadFrames(storage, prefix, maxIndex).value;
      var im := DecodeImages(column).value;
      var out := Run(storage, prefix, maxIndex, compare, threshold, encodes, uploads, Some(column)).value;
      out.images.Some? && DecodeImages(out.images.value) ==
        Some(VideoImages(im.maxIndex, im.interval, THUMBNAIL_SIZES, SsimPipeline(files, maxIndex, compare, threshold).value))
  {
    var files := DownloadFrames(storage, prefix, maxIndex).value;
    var removed := SsimPipeline(files, maxIndex, compare, threshold).value;
    var init := Open(files, ImageFilename(maxIndex, None)).value;
    U32Frames(FrameReader(files), compare, threshold, init, maxIndex);
    MergedImagesDecode(column, removed);
  }

  /** A NULL images column stays NULL even after a successful run: the
      removed frames are then not recorded anywhere. */
  lemma RunOnNullColumn(storage: Files, prefix: string, maxIndex: nat, compare: Compare, threshold: real,
                        encodes: (Image, nat) -> bool, uploads: string -> bool)
    requires Run(storage, prefix, maxIndex, compare, threshold, encodes, uploads, None).Ok?
    ensures Run(storage, prefix, maxIndex, compare, threshold, encodes, uploads, None).value.images.None?
  {
  }
}

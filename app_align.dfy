/** The app's `align`: the same greedy chunker as the viewer's, without
    per-chunk image ranges in the loop; afterwards the last chunk is
    stretched to the last image and every chunk gets a clamped image
    range. */
module AppAlign {
  import opened Wrappers
  import opened Strings
  import opened Chunking
  import ViewerAlign

  /** The part of a video record `align` reads: `images.maxIndex` and
      `images.interval`. */
  datatype ImageInfo = ImageInfo(maxIndex: int, interval: real)

  /** A chunk's image range, both ends clamped to the last image. */
  function Clamp(c: ViewerChunk, interval: real, numImages: int): (r: ViewerChunk)
    requires interval > 0.0
    ensures r.start == c.start && r.end == c.end && r.text == c.text
    ensures r.images == [MinInt(Ceil(c.start / interval), numImages - 1), MinInt(Floor(c.end / interval), numImages - 1)]
  {
    c.(images := [MinInt(Ceil(c.start / interval), numImages - 1), MinInt(Floor(c.end / interval), numImages - 1)])
  }

  /** The last chunk's end raised to at least the last image's time. */
  function Stretch(cs: seq<ViewerChunk>, interval: real, numImages: int): (r: seq<ViewerChunk>)
    requires |cs| > 0
    ensures |r| == |cs| && r[..|r| - 1] == cs[..|cs| - 1]
    ensures r[|r| - 1] == cs[|cs| - 1].(end := MaxReal(ImageTimestamp(numImages - 1, interval), cs[|cs| - 1].end))
  {
    var last := cs[|cs| - 1];
    cs[..|cs| - 1] + [last.(end := MaxReal(ImageTimestamp(numImages - 1, interval), last.end))]
  }

  /** The chunks `align` returns for a non-empty transcript. */
  function AppChunks(texts: seq<TextPiece>, info: ImageInfo): (r: seq<ViewerChunk>)
    requires |texts| > 0 && info.interval > 0.0
    ensures |r| == |Chunks(texts, info.interval)|
  {
    var numImages := info.maxIndex + 1;
    var cs := Stretch(Chunks(texts, info.interval), info.interval, numImages);
    seq(|cs|, i requires 0 <= i < |cs| => Clamp(cs[i], info.interval, numImages))
  }

  /** What `align` computes; None when it throws on an empty transcript. */
  function AlignSpec(info: ImageInfo, texts: seq<TextPiece>): (r: Option<seq<ViewerChunk>>)
    requires info.interval > 0.0
  {
    if |texts| == 0 then None else Some(AppChunks(texts, info))
  }

  /** The state of the grouping loop after the first `idx` pieces: the
      chunks they form, or those and the empty chunk piece `idx` has just
      opened. */
  ghost predicate Growing(texts: seq<TextPiece>, interval: real, idx: nat, justOpened: bool, output: seq<ViewerChunk>)
  {
    && idx <= |texts|
    && (justOpened ==>
         && idx < |texts|
         && output == Partial(texts, interval, idx) + [Open(texts[idx])]
         && (idx > 0 ==> OpensChunk(texts, interval, idx)))
    && (!justOpened ==> idx >= 1 && output == Partial(texts, interval, idx))
  }

  lemma GrowingStart(texts: seq<TextPiece>, interval: real)
    requires |texts| > 0
    ensures Growing(texts, interval, 0, true, [ViewerChunk(texts[0].start, texts[0].start, "", [])])
  {
  }

  /** A piece starting beyond the current chunk's window opens a chunk; a
      chunk that was just opened is never followed by another. */
  lemma OpenStep(texts: seq<TextPiece>, interval: real, idx: nat, justOpened: bool, output: seq<ViewerChunk>)
    requires interval >= 0.0 && idx < |texts|
    requires Growing(texts, interval, idx, justOpened, output)
    requires texts[idx].start > output[|output| - 1].start + interval
    ensures !justOpened
    ensures Growing(texts, interval, idx, true, output + [ViewerChunk(texts[idx].start, texts[idx].start, "", [])])
  {
  }

  /** A piece starting within the current chunk's window joins it. */
  lemma JoinStep(texts: seq<TextPiece>, interval: real, idx: nat, justOpened: bool, output: seq<ViewerChunk>)
    requires idx < |texts|
    requires Growing(texts, interval, idx, justOpened, output)
    requires !(texts[idx].start > output[|output| - 1].start + interval)
    ensures var cur := output[|output| - 1];
      Growing(texts, interval, idx + 1, false,
        output[..|output| - 1] + [cur.(text := JoinText(cur.text, texts[idx].text), end := MaxReal(texts[idx].end, cur.end))])
  {
    if idx == 0 {
      PartialFirst(texts, interval);
    } else {
      PartialStep(texts, interval, idx);
    }
  }

  /** When every piece has been seen, the loop holds the grouping's chunks. */
  lemma GrowingDone(texts: seq<TextPiece>, interval: real, numImages: int, idx: nat, justOpened: bool,
                    output: seq<ViewerChunk>)
    requires |texts| > 0
    requires Growing(texts, interval, idx, justOpened, output) && idx >= |texts|
    ensures output == Chunks(texts, interval)
    ensures var last := output[|output| - 1];
      output[..|output| - 1] + [last.(end := MaxReal(ImageTimestamp(numImages - 1, interval), last.end))]
        == Stretch(Chunks(texts, interval), interval, numImages)
  {
    assert texts[..|texts|] == texts;
  }

  /** The chunks with the first `i` image ranges set. */
  function ClampedUpTo(cs: seq<ViewerChunk>, interval: real, numImages: int, i: nat): (r: seq<ViewerChunk>)
    requires interval > 0.0 && i <= |cs|
    ensures |r| == |cs|
  {
    seq(|cs|, k requires 0 <= k < |cs| => if k < i then Clamp(cs[k], interval, numImages) else cs[k])
  }

  lemma ClampedNone(cs: seq<ViewerChunk>, interval: real, numImages: int)
    requires interval > 0.0
    ensures ClampedUpTo(cs, interval, numImages, 0) == cs
  {
  }

  /** Setting chunk `i`'s image range extends the clamped prefix by one;
      with every range set, the result is `AppChunks`. */
  lemma ClampedStep(cs: seq<ViewerChunk>, interval: real, numImages: int, i: nat)
    requires interval > 0.0 && i < |cs|
    ensures var done := ClampedUpTo(cs, interval, numImages, i);
      var chunk := done[i];
      && chunk == cs[i]
      && done[i := chunk.(images := [MinInt(Ceil(chunk.start / interval), numImages - 1),
                                     MinInt(Floor(chunk.end / interval), numImages - 1)])]
         == ClampedUpTo(cs, interval, numImages, i + 1)
  {
  }

  lemma ClampedAll(texts: seq<TextPiece>, info: ImageInfo)
    requires |texts| > 0 && info.interval > 0.0
    ensures var cs := Stretch(Chunks(texts, info.interval), info.interval, info.maxIndex + 1);
      ClampedUpTo(cs, info.interval, info.maxIndex + 1, |cs|) == AppChunks(texts, info)
  {
  }

  /** `align`: the grouping loop, the stretch of the last chunk, then a
      second loop setting every chunk's clamped image range. */
  method Align(info: ImageInfo, inputText: seq<TextPiece>) returns (r: Option<seq<ViewerChunk>>)
    requires info.interval > 0.0
    ensures r == AlignSpec(info, inputText)
  {
    var imageInterval, maxImageIndex := info.interval, info.maxIndex;
    var numImages := maxImageIndex + 1;
    if |inputText| == 0 {
      return None;
    }
    var n := |inputText|;
    var first := inputText[0].start;
    var output: seq<ViewerChunk> := [ViewerChunk(first, first, "", [])];
    var textIndex := 0;
    ghost var justOpened := true;
    GrowingStart(inputText, imageInterval);
    while textIndex < n
      invariant |output| > 0 && Growing(inputText, imageInterval, textIndex, justOpened, output)
      decreases n - textIndex, if justOpened then 0 else 1
    {
      var textStart := inputText[textIndex].start;
      var currentChunk := output[|output| - 1];
      var chunkBoundary := currentChunk.start + imageInterval;
      if textStart > chunkBoundary {
        OpenStep(inputText, imageInterval, textIndex, justOpened, output);
        output := output + [ViewerChunk(textStart, textStart, "", [])];
        justOpened := true;
      } else {
        JoinStep(inputText, imageInterval, textIndex, justOpened, output);
        var text := ViewerAlign.AppendText(currentChunk.text, inputText[textIndex].text);
        var end := MaxReal(inputText[textIndex].end, currentChunk.end);
        output := output[..|output| - 1] + [currentChunk.(text := text, end := end)];
        textIndex := textIndex + 1;
        justOpened := false;
      }
    }
    GrowingDone(inputText, imageInterval, numImages, textIndex, justOpened, output);
    ClampedAll(inputText, info);
    var lastChunk := output[|output| - 1];
    output := output[..|output| - 1] + [lastChunk.(end := MaxReal(ImageTimestamp(numImages - 1, imageInterval), lastChunk.end))];
    output := SetImageRanges(output, imageInterval, numImages);
    r := Some(output);
  }

  /** The second loop of `align`: each chunk's image range, clamped to the
      last image. */
  method SetImageRanges(chunks: seq<ViewerChunk>, imageInterval: real, numImages: int) returns (output: seq<ViewerChunk>)
    requires imageInterval > 0.0
    ensures output == ClampedUpTo(chunks, imageInterval, numImages, |chunks|)
  {
    output := chunks;
    ClampedNone(chunks, imageInterval, numImages);
    for i := 0 to |output|
      invariant output == ClampedUpTo(chunks, imageInterval, numImages, i)
    {
      var chunk := output[i];
      ClampedStep(chunks, imageInterval, numImages, i);
      chunk := chunk.(images := [MinInt(Ceil(chunk.start / imageInterval), numImages - 1),
                                 MinInt(Floor(chunk.end / imageInterval), numImages - 1)]);
      output := output[i := chunk];
    }
  }

  /** Every chunk, not only the last, gets an image range clamped to
      `maxIndex`; chunks keep the grouping's starts and texts, and only the
      last chunk's end may move (up to the last image's time). */
  lemma EveryChunkClamped(texts: seq<TextPiece>, info: ImageInfo, i: nat)
    requires |texts| > 0 && info.interval > 0.0
    requires i < |AppChunks(texts, info)|
    ensures var a := AppChunks(texts, info);
      var cs := Chunks(texts, info.interval);
      && a[i].start == cs[i].start && a[i].text == cs[i].text
      && (i < |a| - 1 ==> a[i].end == cs[i].end)
      && (i == |a| - 1 ==> a[i].end == MaxReal(ImageTimestamp(info.maxIndex, info.interval), cs[i].end))
      && a[i].images == [MinInt(Ceil(a[i].start / info.interval), info.maxIndex),
                         MinInt(Floor(a[i].end / info.interval), info.maxIndex)]
      && a[i].images[0] <= info.maxIndex && a[i].images[1] <= info.maxIndex
  {
    var n := info.maxIndex + 1;
    var cs := Chunks(texts, info.interval);
    var st := Stretch(cs, info.interval, n);
    assert AppChunks(texts, info)[i] == Clamp(st[i], info.interval, n);
    if i < |st| - 1 {
      assert st[i] == st[..|st| - 1][i] == cs[..|cs| - 1][i];
    }
  }

  /** With `numImages` = `maxIndex` + 1 the app and the viewer build the
      same chunks; the app's image ranges are the viewer's clamped to
      `maxIndex` (the viewer clamps only the last). */
  lemma AgreesWithViewer(texts: seq<TextPiece>, info: ImageInfo, i: nat)
    requires |texts| > 0 && info.interval > 0.0
    requires i < |AppChunks(texts, info)|
    ensures var a := AppChunks(texts, info)[i];
      var v := ViewerAlign.AlignChunks(texts, info.interval, info.maxIndex + 1)[i];
      && a.start == v.start && a.end == v.end && a.text == v.text
      && |v.images| == 2
      && a.images == [MinInt(v.images[0], info.maxIndex), MinInt(v.images[1], info.maxIndex)]
  {
    EveryChunkClamped(texts, info, i);
    var cs := Chunks(texts, info.interval);
    var v := ViewerAlign.AlignChunks(texts, info.interval, info.maxIndex + 1);
    if i < |cs| - 1 {
      assert v[i] == ViewerAlign.CloseAll(cs[..|cs| - 1], info.interval)[i];
    } else {
      assert v[i] == ViewerAlign.FinishLast(cs[i], info.interval, info.maxIndex + 1);
    }
  }

  /** A single piece makes a single chunk. */
  lemma AppChunksOfOne(p: TextPiece, info: ImageInfo)
    requires info.interval > 0.0
    ensures var c := Absorb(Open(p), p);
      AppChunks([p], info)
        == [Clamp(c.(end := MaxReal(ImageTimestamp(info.maxIndex + 1 - 1, info.interval), c.end)),
                  info.interval, info.maxIndex + 1)]
  {
    PartialFirst([p], info.interval);
    assert [p][..1] == [p];
    var a := AppChunks([p], info);
    assert a == [a[0]];
  }

  /** The `single chunk` unit test with `maxIndex` 19. */
  lemma SingleChunkTest()
    ensures AlignSpec(ImageInfo(19, 10.0), [TextPiece(0.0, 1000.0, "test")]) ==
      Some([ViewerChunk(0.0, 1000.0, "test", [0, 19])])
  {
    AppChunksOfOne(TextPiece(0.0, 1000.0, "test"), ImageInfo(19, 10.0));
    assert ImageTimestamp(19, 10.0) == 190.0;
    ClampOfSingle();
  }

  lemma ClampOfSingle()
    ensures Clamp(ViewerChunk(0.0, 1000.0, "test", []), 10.0, 20) == ViewerChunk(0.0, 1000.0, "test", [0, 19])
  {
    assert Floor(1000.0 / 10.0) == 100 && Ceil(0.0 / 10.0) == 0;
  }

  /** The `multiple chunks smaller than image size` unit test with
      `maxIndex` 2. */
  lemma SmallChunksTest()
    ensures AlignSpec(ImageInfo(2, 10.0), SmallPieces()) ==
      Some([ViewerChunk(0.0, 11.0, "a b c", [0, 1]), ViewerChunk(11.0, 20.0, "d e f", [2, 2])])
  {
    SmallPiecesChunks();
    var info := ImageInfo(2, 10.0);
    var c0 := ViewerChunk(0.0, 11.0, "a b c", []);
    var c1 := ViewerChunk(11.0, 14.0, "d e f", []);
    var st := Stretch([c0, c1], 10.0, 3);
    assert st == [c0, c1.(end := 20.0)];
    var a := AppChunks(SmallPieces(), info);
    assert |a| == 2 && a[0] == Clamp(c0, 10.0, 3) && a[1] == Clamp(c1.(end := 20.0), 10.0, 3);
    assert Floor(11.0 / 10.0) == 1 && Ceil(11.0 / 10.0) == 2 && Floor(20.0 / 10.0) == 2 && Ceil(0.0 / 10.0) == 0;
    assert Clamp(c0, 10.0, 3) == ViewerChunk(0.0, 11.0, "a b c", [0, 1]);
    assert Clamp(c1.(end := 20.0), 10.0, 3) == ViewerChunk(11.0, 20.0, "d e f", [2, 2]);
    assert a == [ViewerChunk(0.0, 11.0, "a b c", [0, 1]), ViewerChunk(11.0, 20.0, "d e f", [2, 2])];
  }

  /** The `text chunks somewhat larger than image interval` unit test with
      `maxIndex` 6. */
  lemma LargerChunksTest()
    ensures AlignSpec(ImageInfo(6, 10.0), LargerPieces()) ==
      Some([ViewerChunk(0.0, 15.0, "a b", [0, 1]), ViewerChunk(15.0, 31.0, "c", [2, 3]),
            ViewerChunk(31.0, 45.0, "d e", [4, 4]), ViewerChunk(45.0, 60.0, "f", [5, 6])])
  {
    LargerPiecesChunks();
    var c3 := ViewerChunk(45.0, 50.0, "f", []);
    var cs := Chunks(LargerPieces(), 10.0);
    var st := Stretch(cs, 10.0, 7);
    assert ImageTimestamp(6, 10.0) == 60.0;
    assert st == cs[..3] + [c3.(end := 60.0)];
    var a := AppChunks(LargerPieces(), ImageInfo(6, 10.0));
    assert |a| == 4 && a[0] == Clamp(cs[0], 10.0, 7) && a[1] == Clamp(cs[1], 10.0, 7)
      && a[2] == Clamp(cs[2], 10.0, 7) && a[3] == Clamp(c3.(end := 60.0), 10.0, 7);
    assert Ceil(0.0 / 10.0) == 0 && Floor(15.0 / 10.0) == 1;
    assert Ceil(15.0 / 10.0) == 2 && Floor(31.0 / 10.0) == 3;
    assert Ceil(31.0 / 10.0) == 4 && Floor(45.0 / 10.0) == 4;
    assert Ceil(45.0 / 10.0) == 5 && Floor(60.0 / 10.0) == 6;
    assert Clamp(cs[0], 10.0, 7) == ViewerChunk(0.0, 15.0, "a b", [0, 1]);
    assert Clamp(cs[1], 10.0, 7) == ViewerChunk(15.0, 31.0, "c", [2, 3]);
    assert Clamp(cs[2], 10.0, 7) == ViewerChunk(31.0, 45.0, "d e", [4, 4]);
    assert Clamp(c3.(end := 60.0), 10.0, 7) == ViewerChunk(45.0, 60.0, "f", [5, 6]);
    assert a == [a[0], a[1], a[2], a[3]];
  }

  /** The `text chunks span multiple image intervals` unit test (`start` 0)
      and the `no text at start of video` unit test (`start` 15) with
      `maxIndex` 5. */
  lemma SpanningChunksTest(start: real, first: int)
    requires (start == 0.0 && first == 0) || (start == 15.0 && first == 2)
    ensures AlignSpec(ImageInfo(5, 10.0), SpanningPieces(start)) ==
      Some([ViewerChunk(start, 33.0, "a", [first, 3]), ViewerChunk(33.0, 50.0, "b c", [4, 5])])
  {
    SpanningPiecesChunks(start);
    var cs := Chunks(SpanningPieces(start), 10.0);
    var st := Stretch(cs, 10.0, 6);
    assert ImageTimestamp(5, 10.0) == 50.0;
    assert st == cs;
    var a := AppChunks(SpanningPieces(start), ImageInfo(5, 10.0));
    assert |a| == 2 && a[0] == Clamp(cs[0], 10.0, 6) && a[1] == Clamp(cs[1], 10.0, 6);
    assert Ceil(start / 10.0) == first && Floor(33.0 / 10.0) == 3;
    assert Ceil(33.0 / 10.0) == 4 && Floor(50.0 / 10.0) == 5;
    assert Clamp(cs[0], 10.0, 6) == ViewerChunk(start, 33.0, "a", [first, 3]);
    assert Clamp(cs[1], 10.0, 6) == ViewerChunk(33.0, 50.0, "b c", [4, 5]);
    assert a == [a[0], a[1]];
  }
}

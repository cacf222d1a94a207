/** The viewer's `align`: the greedy chunker, setting each chunk's image
    range as it is closed and stretching and clamping the last chunk to the
    video's images. */
module ViewerAlign {
  import opened Wrappers
  import opened Strings
  import opened Chunking

  /** The viewer's input: title, seconds between images, number of images
      and the timed transcript pieces. */
  datatype Config = Config(title: string, imageInterval: real, numImages: int, text: seq<TextPiece>)

  datatype ViewerConfig = ViewerConfig(title: string, chunks: seq<ViewerChunk>)

  /** How `align` ends: a null config gives null, a config without any text
      throws (it reads the first piece's start), otherwise the chunks. */
  datatype Aligned = Null | Threw | Aligned(config: ViewerConfig)

  /** A chunk closed by a later piece: images from the ceiling of its start
      to the floor of its end, in image intervals, without clamping. */
  function Close(c: ViewerChunk, interval: real): (r: ViewerChunk)
    requires interval > 0.0
    ensures r.start == c.start && r.end == c.end && r.text == c.text
    ensures r.images == [Ceil(c.start / interval), Floor(c.end / interval)]
  {
    c.(images := [Ceil(c.start / interval), Floor(c.end / interval)])
  }

  function CloseAll(cs: seq<ViewerChunk>, interval: real): (r: seq<ViewerChunk>)
    requires interval > 0.0
    ensures |r| == |cs| && forall i :: 0 <= i < |cs| ==> r[i] == Close(cs[i], interval)
  {
    seq(|cs|, i requires 0 <= i < |cs| => Close(cs[i], interval))
  }

  /** The loop's output while the last chunk is still open. */
  function CloseButLast(cs: seq<ViewerChunk>, interval: real): (r: seq<ViewerChunk>)
    requires |cs| > 0 && interval > 0.0
    ensures |r| == |cs| && r[|r| - 1] == cs[|cs| - 1]
    ensures r[..|r| - 1] == CloseAll(cs[..|cs| - 1], interval)
  {
    CloseAll(cs[..|cs| - 1], interval) + [cs[|cs| - 1]]
  }

  /** The last chunk: its end raised to at least the last image's time, and
      both image indices clamped to the last image. */
  function FinishLast(c: ViewerChunk, interval: real, numImages: int): (r: ViewerChunk)
    requires interval > 0.0
    ensures r.start == c.start && r.text == c.text
    ensures r.end == MaxReal(ImageTimestamp(numImages - 1, interval), c.end)
    ensures r.images == [MinInt(Ceil(c.start / interval), numImages - 1), MinInt(Floor(r.end / interval), numImages - 1)]
  {
    var end := MaxReal(ImageTimestamp(numImages - 1, interval), c.end);
    c.(end := end,
       images := [MinInt(Ceil(c.start / interval), numImages - 1), MinInt(Floor(end / interval), numImages - 1)])
  }

  /** The chunks `align` returns for a non-empty transcript. */
  function AlignChunks(texts: seq<TextPiece>, interval: real, numImages: int): (r: seq<ViewerChunk>)
    requires |texts| > 0 && interval > 0.0
    ensures |r| == |Chunks(texts, interval)|
  {
    var cs := Chunks(texts, interval);
    CloseAll(cs[..|cs| - 1], interval) + [FinishLast(cs[|cs| - 1], interval, numImages)]
  }

  /** What `align` computes. */
  function AlignSpec(config: Option<Config>): (r: Aligned)
    requires config.Some? ==> config.value.imageInterval > 0.0
  {
    match config
    case None => Null
    case Some(c) =>
      if |c.text| == 0 then Threw
      else Aligned(ViewerConfig(c.title, AlignChunks(c.text, c.imageInterval, c.numImages)))
  }

  /** The space rule of the loop, applied in two steps as the source does. */
  method AppendText(acc: string, add: string) returns (text: string)
    ensures text == JoinText(acc, add)
  {
    text := acc;
    if text != "" && (add == "" || add[0] != ' ') && !EndsWith(text, " ") {
      text := text + " ";
    }
    text := text + add;
  }

  /** The state of the loop after the first `idx` pieces: the chunks they
      form, all but the last closed; or, right after piece `idx` has
      opened a chunk, all of those closed and the new chunk still empty. */
  ghost predicate Building(texts: seq<TextPiece>, interval: real, idx: nat, justOpened: bool,
                           output: seq<ViewerChunk>)
    requires interval > 0.0
  {
    && idx <= |texts|
    && (justOpened ==>
         && idx < |texts|
         && output == CloseAll(Partial(texts, interval, idx), interval) + [Open(texts[idx])]
         && (idx > 0 ==> OpensChunk(texts, interval, idx)))
    && (!justOpened ==>
         && idx >= 1
         && output == CloseButLast(Partial(texts, interval, idx), interval))
  }

  lemma BuildingStart(texts: seq<TextPiece>, interval: real)
    requires |texts| > 0 && interval > 0.0
    ensures Building(texts, interval, 0, true, [ViewerChunk(texts[0].start, texts[0].start, "", [])])
  {
  }

  /** A piece starting beyond the current chunk's window closes it and opens
      a chunk of its own; a chunk that was just opened is never closed. */
  lemma CloseStep(texts: seq<TextPiece>, interval: real, idx: nat, justOpened: bool, output: seq<ViewerChunk>)
    requires interval > 0.0 && idx < |texts|
    requires Building(texts, interval, idx, justOpened, output)
    requires texts[idx].start > output[|output| - 1].start + interval
    ensures !justOpened
    ensures var cur := output[|output| - 1];
      Building(texts, interval, idx, true,
        output[..|output| - 1] + [cur.(images := [Ceil(cur.start / interval), Floor(cur.end / interval)])]
          + [ViewerChunk(texts[idx].start, texts[idx].start, "", [])])
  {
    var prev := Partial(texts, interval, idx);
    assert CloseButLast(prev, interval)[..|prev| - 1] + [Close(prev[|prev| - 1], interval)] == CloseAll(prev, interval);
  }

  /** A piece starting within the current chunk's window joins it. */
  lemma AbsorbStep(texts: seq<TextPiece>, interval: real, idx: nat, justOpened: bool, output: seq<ViewerChunk>)
    requires interval > 0.0 && idx < |texts|
    requires Building(texts, interval, idx, justOpened, output)
    requires !(texts[idx].start > output[|output| - 1].start + interval)
    ensures var cur := output[|output| - 1];
      Building(texts, interval, idx + 1, false,
        output[..|output| - 1] + [cur.(text := JoinText(cur.text, texts[idx].text), end := MaxReal(texts[idx].end, cur.end))])
  {
    var prev := Partial(texts, interval, idx);
    if idx == 0 {
      PartialFirst(texts, interval);
    } else {
      PartialStep(texts, interval, idx);
      if justOpened {
        assert (prev + [Absorb(Open(texts[idx]), texts[idx])])[..|prev|] == prev;
      } else {
        var front := prev[..|prev| - 1];
        assert (front + [Absorb(prev[|prev| - 1], texts[idx])])[..|front|] == front;
      }
    }
  }

  /** When every piece has been seen, the loop holds the grouping's chunks,
      all but the last closed; finishing the last gives `AlignChunks`. */
  lemma BuildingDone(texts: seq<TextPiece>, interval: real, numImages: int, idx: nat, justOpened: bool,
                     output: seq<ViewerChunk>)
    requires interval > 0.0 && |texts| > 0
    requires Building(texts, interval, idx, justOpened, output) && idx >= |texts|
    ensures output == CloseButLast(Chunks(texts, interval), interval)
    ensures var last := output[|output| - 1];
      var end := MaxReal(ImageTimestamp(numImages - 1, interval), last.end);
      output[..|output| - 1]
        + [last.(end := end, images := [MinInt(Ceil(last.start / interval), numImages - 1),
                                        MinInt(Floor(end / interval), numImages - 1)])]
      == AlignChunks(texts, interval, numImages)
  {
    assert texts[..|texts|] == texts;
  }

  /** `align`. The loop keeps the chunks of the pieces seen so far, the
      earlier ones closed; right after a piece opens a chunk, the next
      iteration puts that piece into it. */
  method Align(config: Option<Config>) returns (r: Aligned)
    requires config.Some? ==> config.value.imageInterval > 0.0
    ensures r == AlignSpec(config)
    ensures config.None? <==> r.Null?
  {
    if config.None? {
      return Null;
    }
    var c := config.value;
    var texts, interval, numImages := c.text, c.imageInterval, c.numImages;
    if |texts| == 0 {
      return Threw;
    }
    var n := |texts|;
    var first := texts[0].start;
    var output: seq<ViewerChunk> := [ViewerChunk(first, first, "", [])];
    var textIndex := 0;
    ghost var justOpened := true;
    BuildingStart(texts, interval);
    while textIndex < n
      invariant |output| > 0 && Building(texts, interval, textIndex, justOpened, output)
      decreases n - textIndex, if justOpened then 0 else 1
    {
      var textStart := texts[textIndex].start;
      var currentChunk := output[|output| - 1];
      var chunkBoundary := currentChunk.start + interval;
      if textStart > chunkBoundary {
        CloseStep(texts, interval, textIndex, justOpened, output);
        currentChunk := currentChunk.(images := [Ceil(currentChunk.start / interval), Floor(currentChunk.end / interval)]);
        output := output[..|output| - 1] + [currentChunk] + [ViewerChunk(textStart, textStart, "", [])];
        justOpened := true;
      } else {
        AbsorbStep(texts, interval, textIndex, justOpened, output);
        var text := AppendText(currentChunk.text, texts[textIndex].text);
        var end := MaxReal(texts[textIndex].end, currentChunk.end);
        output := output[..|output| - 1] + [currentChunk.(text := text, end := end)];
        textIndex := textIndex + 1;
        justOpened := false;
      }
    }
    BuildingDone(texts, interval, numImages, textIndex, justOpened, output);
    var lastChunk := output[|output| - 1];
    var lastEnd := MaxReal(ImageTimestamp(numImages - 1, interval), lastChunk.end);
    lastChunk := lastChunk.(end := lastEnd,
      images := [MinInt(Ceil(lastChunk.start / interval), numImages - 1), MinInt(Floor(lastEnd / interval), numImages - 1)]);
    output := output[..|output| - 1] + [lastChunk];
    r := Aligned(ViewerConfig(c.title, output));
  }

  /** Every chunk keeps the start and text of the grouping's chunk; every
      chunk but the last is closed with its unclamped image range, and
      chunk starts strictly increase. */
  lemma AlignedChunks(texts: seq<TextPiece>, interval: real, numImages: int, i: nat)
    requires |texts| > 0 && interval > 0.0
    requires i < |AlignChunks(texts, interval, numImages)|
    ensures var a := AlignChunks(texts, interval, numImages);
      var cs := Chunks(texts, interval);
      && a[i].start == cs[i].start && a[i].text == cs[i].text
      && (i < |a| - 1 ==> a[i] == Close(cs[i], interval))
      && (i > 0 ==> a[i - 1].start < a[i].start)
  {
    if i > 0 {
      ChunkStartsIncrease(texts, interval, i);
    }
  }

  /** The last chunk reaches at least the last image's time, and its range
      never goes past the last image. */
  lemma LastChunkClamped(texts: seq<TextPiece>, interval: real, numImages: int)
    requires |texts| > 0 && interval > 0.0
    ensures var a := AlignChunks(texts, interval, numImages);
      && a[|a| - 1].end >= ImageTimestamp(numImages - 1, interval)
      && a[|a| - 1].end >= Chunks(texts, interval)[|a| - 1].end
      && |a[|a| - 1].images| == 2
      && a[|a| - 1].images[0] <= numImages - 1 && a[|a| - 1].images[1] <= numImages - 1
  {
  }

  /** The `single chunk` unit test: one piece over [0, 1000] with twenty
      images ten seconds apart gives one chunk over images 0 to 19. */
  lemma SingleChunkTest()
    ensures AlignSpec(Some(Config("test", 10.0, 20, [TextPiece(0.0, 1000.0, "test")]))) ==
      Aligned(ViewerConfig("test", [ViewerChunk(0.0, 1000.0, "test", [0, 19])]))
  {
    var t := [TextPiece(0.0, 1000.0, "test")];
    PartialFirst(t, 10.0);
    assert t[..1] == t;
  }

  /** The `multiple chunks smaller than image size` unit test: three images
      ten seconds apart; the second chunk is stretched to 20 seconds and
      both of its indices clamped to image 2. */
  lemma SmallChunksTest()
    ensures AlignSpec(Some(Config("test", 10.0, 3, SmallPieces()))) ==
      Aligned(ViewerConfig("test", [ViewerChunk(0.0, 11.0, "a b c", [0, 1]), ViewerChunk(11.0, 20.0, "d e f", [2, 2])]))
  {
    SmallPiecesChunks();
    var cs := Chunks(SmallPieces(), 10.0);
    assert cs[..1] == [cs[0]];
    assert Floor(11.0 / 10.0) == 1;
    assert Ceil(11.0 / 10.0) == 2;
  }

  /** The `text chunks somewhat larger than image interval` unit test:
      seven images ten seconds apart; the last chunk is stretched to 60
      seconds. */
  lemma LargerChunksTest()
    ensures AlignSpec(Some(Config("test", 10.0, 7, LargerPieces()))) ==
      Aligned(ViewerConfig("test", [ViewerChunk(0.0, 15.0, "a b", [0, 1]), ViewerChunk(15.0, 31.0, "c", [2, 3]),
                                    ViewerChunk(31.0, 45.0, "d e", [4, 4]), ViewerChunk(45.0, 60.0, "f", [5, 6])]))
  {
    LargerPiecesChunks();
    var cs := Chunks(LargerPieces(), 10.0);
    assert cs[..3] == [cs[0], cs[1], cs[2]];
    assert Ceil(0.0 / 10.0) == 0 && Floor(15.0 / 10.0) == 1;
    assert Ceil(15.0 / 10.0) == 2 && Floor(31.0 / 10.0) == 3;
    assert Ceil(31.0 / 10.0) == 4 && Floor(45.0 / 10.0) == 4;
    assert ImageTimestamp(6, 10.0) == 60.0;
    assert Ceil(45.0 / 10.0) == 5 && Floor(60.0 / 10.0) == 6;
  }

  /** The `text chunks span multiple image intervals` unit test (`start` 0)
      and the `no text at start of video` unit test (`start` 15): six
      images ten seconds apart; the first chunk covers images from the
      first image at or after its start to 3, the second images 4 to 5. */
  lemma SpanningChunksTest(start: real, first: int)
    requires (start == 0.0 && first == 0) || (start == 15.0 && first == 2)
    ensures AlignSpec(Some(Config("test", 10.0, 6, SpanningPieces(start)))) ==
      Aligned(ViewerConfig("test", [ViewerChunk(start, 33.0, "a", [first, 3]), ViewerChunk(33.0, 50.0, "b c", [4, 5])]))
  {
    SpanningPiecesChunks(start);
    var cs := Chunks(SpanningPieces(start), 10.0);
    assert cs[..1] == [cs[0]];
    assert Ceil(start / 10.0) == first && Floor(33.0 / 10.0) == 3;
    assert ImageTimestamp(5, 10.0) == 50.0;
    assert Ceil(33.0 / 10.0) == 4 && Floor(50.0 / 10.0) == 5;
  }
}

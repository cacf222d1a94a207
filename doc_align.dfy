/** The document page's `align`: one text chunk per transcript paragraph
    that has a sentence list, each with an image range computed from the
    paragraph's times and clamped to [1, max_index]; and the page's
    rendering of that range against the set of removed images. */
module DocAlign {
  import opened Wrappers
  import opened Strings
  import opened Json
  import opened VideoTypes
  import Chunking
  import Analyze

  /** `u64::MAX`. */
  const U64_MAX: nat := 0xFFFF_FFFF_FFFF_FFFF

  datatype ImageChunk = ImageChunk(text: string, startImageIdx: nat, endImageIdx: nat)

  /** `x as u64` for a whole number: saturating at both ends. */
  function SatU64(x: int): (r: nat)
    ensures r <= U64_MAX
    ensures 0 <= x <= U64_MAX ==> r == x
    ensures x < 0 ==> r == 0
    ensures x > U64_MAX ==> r == U64_MAX
  {
    if x < 0 then 0 else if x > U64_MAX then U64_MAX else x
  }

  /** `(t / interval).ceil() as u64` (or `.floor()`), with the interval a
      whole number of seconds. Dividing by a zero interval gives +inf for a
      positive time (cast to `u64::MAX`) and NaN or -inf otherwise (cast to
      0). */
  function RawIndex(t: real, interval: nat, roundUp: bool): (r: nat)
    ensures r <= U64_MAX
    ensures interval == 0 ==> r == (if t > 0.0 then U64_MAX else 0)
    ensures interval > 0 && roundUp ==> r == SatU64(Chunking.Ceil(t / interval as real))
    ensures interval > 0 && !roundUp ==> r == SatU64(Chunking.Floor(t / interval as real))
  {
    if interval == 0 then (if t > 0.0 then U64_MAX else 0)
    else if roundUp then SatU64(Chunking.Ceil(t / interval as real))
    else SatU64(Chunking.Floor(t / interval as real))
  }

  /** `.max(1).min(max_index as u64)`. */
  function ClampIndex(raw: nat, maxIndex: nat): (r: nat)
    ensures r <= maxIndex && (maxIndex >= 1 ==> r >= 1)
  {
    var atLeastOne := if raw >= 1 then raw else 1;
    if atLeastOne <= maxIndex then atLeastOne else maxIndex
  }

  /** The clamped index lies in [1, max_index] when there is an image
      after the first, and is 0 when max_index is 0; inside that range the
      raw index is kept. */
  lemma ClampIndexBounds(raw: nat, maxIndex: nat)
    ensures maxIndex >= 1 ==> 1 <= ClampIndex(raw, maxIndex) <= maxIndex
    ensures maxIndex == 0 ==> ClampIndex(raw, maxIndex) == 0
    ensures 1 <= raw <= maxIndex ==> ClampIndex(raw, maxIndex) == raw
    ensures raw == 0 ==> ClampIndex(raw, maxIndex) == (if maxIndex >= 1 then 1 else 0)
    ensures raw >= maxIndex ==> ClampIndex(raw, maxIndex) == maxIndex
  {
  }

  /** `p["sentences"].as_array()?.iter().filter_map(|s| s["text"].as_str())`. */
  function SentenceTexts(sentences: seq<Json>): (r: seq<string>)
    ensures |r| <= |sentences|
    decreases |sentences|
  {
    if sentences == [] then []
    else
      var rest := SentenceTexts(sentences[1..]);
      match AsStr(Get(sentences[0], "text"))
      case Some(t) => [t] + rest
      case None => rest
  }

  /** Sentences whose texts are all strings contribute all of them, in order. */
  lemma {:induction false} SentenceTextsAllStrings(texts: seq<string>, others: seq<map<string, Json>>)
    requires |others| == |texts|
    ensures SentenceTexts(seq(|texts|, i requires 0 <= i < |texts| => Object(others[i]["text" := Str(texts[i])])))
      == texts
    decreases |texts|
  {
    var ss := seq(|texts|, i requires 0 <= i < |texts| => Object(others[i]["text" := Str(texts[i])]));
    if texts != [] {
      SentenceTextsAllStrings(texts[1..], others[1..]);
      assert ss[1..] == seq(|texts[1..]|, i requires 0 <= i < |texts[1..]| =>
        Object(others[1..][i]["text" := Str(texts[1..][i])]));
      assert texts == [texts[0]] + texts[1..];
    }
  }

  /** A sentence without a string text is skipped. */
  lemma SentenceWithoutTextSkipped(s: Json, rest: seq<Json>)
    requires !Get(s, "text").Str?
    ensures SentenceTexts([s] + rest) == SentenceTexts(rest)
  {
    assert ([s] + rest)[1..] == rest;
  }

  /** The chunk a paragraph makes; None when it has no sentence list. Times
      that are missing or not numbers count as 0. */
  function ParagraphChunk(p: Json, interval: nat, maxIndex: nat): (r: Option<ImageChunk>)
    ensures r.Some? <==> Get(p, "sentences").Array?
    ensures r.Some? ==> r.value.text == Join(SentenceTexts(Get(p, "sentences").elems), " ")
    ensures r.Some? ==>
      && r.value.startImageIdx == ClampIndex(RawIndex(AsF64(Get(p, "start")).GetOr(0.0), interval, true), maxIndex)
      && r.value.endImageIdx == ClampIndex(RawIndex(AsF64(Get(p, "end")).GetOr(0.0), interval, false), maxIndex)
  {
    match AsArray(Get(p, "sentences"))
    case None => None
    case Some(sentences) =>
      var text := Join(SentenceTexts(sentences), " ");
      var startTime := AsF64(Get(p, "start")).GetOr(0.0);
      var endTime := AsF64(Get(p, "end")).GetOr(0.0);
      var startImageIdx := ClampIndex(RawIndex(startTime, interval, true), maxIndex);
      var endImageIdx := ClampIndex(RawIndex(endTime, interval, false), maxIndex);
      Some(ImageChunk(text, startImageIdx, endImageIdx))
  }

  /** `filter_map` of the paragraphs. */
  function ChunksOf(paragraphs: seq<Json>, interval: nat, maxIndex: nat): (r: seq<ImageChunk>)
    ensures |r| <= |paragraphs|
    decreases |paragraphs|
  {
    if paragraphs == [] then []
    else
      var n := |paragraphs| - 1;
      var front := ChunksOf(paragraphs[..n], interval, maxIndex);
      match ParagraphChunk(paragraphs[n], interval, maxIndex)
      case Some(c) => front + [c]
      case None => front
  }

  /** The positions of the paragraphs that have a sentence list. */
  function Kept(paragraphs: seq<Json>): (r: seq<nat>)
    ensures |r| <= |paragraphs|
    ensures forall k :: 0 <= k < |r| ==> r[k] < |paragraphs|
    decreases |paragraphs|
  {
    if paragraphs == [] then []
    else
      var n := |paragraphs| - 1;
      Kept(paragraphs[..n]) + (if Get(paragraphs[n], "sentences").Array? then [n] else [])
  }

  /** `transcript["results"]["channels"][0]["alternatives"][0]["paragraphs"]["paragraphs"]`
      as an array. */
  function Paragraphs(transcript: Json): (r: Option<seq<Json>>)
    ensures !Get(transcript, "results").Object? ==> r.None?
  {
    var alternative := At(Get(At(Get(Get(transcript, "results"), "channels"), 0), "alternatives"), 0);
    AsArray(Get(Get(alternative, "paragraphs"), "paragraphs"))
  }

  /** `align`. */
  function Align(video: Video): (r: seq<ImageChunk>)
    ensures video.images.None? || video.transcript.None? ==> r == []
    ensures video.images.Some? && video.transcript.Some? && Paragraphs(video.transcript.value).None? ==> r == []
    ensures video.images.Some? && video.transcript.Some? && Paragraphs(video.transcript.value).Some? ==>
      r == ChunksOf(Paragraphs(video.transcript.value).value, video.images.value.interval, video.images.value.maxIndex)
  {
    if video.images.None? || video.transcript.None? then []
    else
      match Paragraphs(video.transcript.value)
      case None => []
      case Some(paragraphs) => ChunksOf(paragraphs, video.images.value.interval, video.images.value.maxIndex)
  }

  /** The kept positions are increasing, and a position is kept exactly
      when its paragraph has a sentence list. */
  lemma {:induction false} KeptPositions(paragraphs: seq<Json>)
    ensures forall k, l :: 0 <= k < l < |Kept(paragraphs)| ==> Kept(paragraphs)[k] < Kept(paragraphs)[l]
    ensures forall i :: 0 <= i < |paragraphs| ==> (i in Kept(paragraphs) <==> Get(paragraphs[i], "sentences").Array?)
    decreases |paragraphs|
  {
    if paragraphs != [] {
      var n := |paragraphs| - 1;
      var front := paragraphs[..n];
      KeptPositions(front);
      forall i | 0 <= i < n
        ensures paragraphs[i] == front[i]
      {
      }
    }
  }

  /** Chunk k is the chunk of the k-th kept paragraph, so the chunks follow
      paragraph order and number the paragraphs with a sentence list. */
  lemma {:induction false} ChunksFollowParagraphs(paragraphs: seq<Json>, interval: nat, maxIndex: nat, k: nat)
    ensures |ChunksOf(paragraphs, interval, maxIndex)| == |Kept(paragraphs)|
    ensures k < |Kept(paragraphs)| ==>
      ParagraphChunk(paragraphs[Kept(paragraphs)[k]], interval, maxIndex) == Some(ChunksOf(paragraphs, interval, maxIndex)[k])
    decreases |paragraphs|
  {
    if paragraphs != [] {
      var n := |paragraphs| - 1;
      var front := paragraphs[..n];
      ChunksFollowParagraphs(front, interval, maxIndex, k);
      if k < |Kept(front)| {
        assert paragraphs[Kept(front)[k]] == front[Kept(front)[k]];
      }
    }
  }

  /** Every chunk's image range lies in [1, max_index] (both ends 0 when
      max_index is 0). */
  lemma ChunkIndexBounds(video: Video, k: nat)
    requires k < |Align(video)|
    ensures video.images.Some?
    ensures var m := video.images.value.maxIndex;
      var c := Align(video)[k];
      && (m >= 1 ==> 1 <= c.startImageIdx <= m && 1 <= c.endImageIdx <= m)
      && (m == 0 ==> c.startImageIdx == 0 && c.endImageIdx == 0)
  {
    var im := video.images.value;
    var ps := Paragraphs(video.transcript.value).value;
    ChunksFollowParagraphs(ps, im.interval, im.maxIndex, k);
    var p := ps[Kept(ps)[k]];
    ClampIndexBounds(RawIndex(AsF64(Get(p, "start")).GetOr(0.0), im.interval, true), im.maxIndex);
    ClampIndexBounds(RawIndex(AsF64(Get(p, "end")).GetOr(0.0), im.interval, false), im.maxIndex);
  }

  /** A paragraph without times starts and ends at image 1 (or 0 when
      max_index is 0). */
  lemma MissingTimesGiveFirstImage(sentences: seq<Json>, interval: nat, maxIndex: nat)
    ensures var c := ParagraphChunk(Object(map["sentences" := Array(sentences)]), interval, maxIndex);
      && c.Some?
      && c.value.startImageIdx == (if maxIndex >= 1 then 1 else 0)
      && c.value.endImageIdx == (if maxIndex >= 1 then 1 else 0)
  {
    ClampIndexBounds(0, maxIndex);
    if interval > 0 {
      assert Chunking.Ceil(0.0 / interval as real) == 0;
      assert Chunking.Floor(0.0 / interval as real) == 0;
    }
  }

  /** The images the page shows for a chunk: every index from start to end
      inclusive, each marked removed when the index cast `as u32` is in the
      removed set. */
  function RenderedImages(start: nat, end: nat, removed: set<nat>): (r: seq<(nat, bool)>)
    ensures |r| == if start <= end then end - start + 1 else 0
    ensures forall k :: 0 <= k < |r| ==> r[k].0 == start + k && (r[k].1 <==> Analyze.AsU32(start + k) in removed)
    decreases if start <= end then end - start + 1 else 0
  {
    if start > end then [] else [(start, Analyze.AsU32(start) in removed)] + RenderedImages(start + 1, end, removed)
  }

  /** A range whose start is past its end shows no image; an index below
      2^32 is drawn as removed exactly when `images.removed` lists it. */
  lemma RenderedRange(start: nat, end: nat, removedList: seq<nat>, idx: nat)
    ensures start > end ==> RenderedImages(start, end, set i | i in removedList) == []
    ensures start <= idx <= end && idx < U32_LIMIT ==>
      RenderedImages(start, end, set i | i in removedList)[idx - start] == (idx, idx in removedList)
  {
  }

  /** An index of 2^32 or more is drawn as removed when the index 2^32 below
      it is listed, because the lookup casts it `as u32`. */
  lemma RenderedWrapsAtU32(j: nat, removedList: seq<nat>)
    requires j < U32_LIMIT
    ensures RenderedImages(U32_LIMIT + j, U32_LIMIT + j, set i | i in removedList) ==
      [(U32_LIMIT + j, j in removedList)]
  {
    var r := RenderedImages(U32_LIMIT + j, U32_LIMIT + j, set i | i in removedList);
    assert (U32_LIMIT + j) % U32_LIMIT == j;
    assert |r| == 1 && r[0] == (U32_LIMIT + j, j in removedList);
  }
}

/** The web app's `align`: one chunk per transcript paragraph, in order,
    with the paragraph's times and an image range clamped to at least 1. */
module WebAlign {
  import opened Wrappers
  import opened Strings
  import opened Chunking
  import DocAlign

  /** The part of the speech-service response `align` walks. */
  datatype Sentence = Sentence(text: string)
  datatype Paragraph = Paragraph(sentences: seq<Sentence>, start: real, end: real)
  datatype ParagraphList = ParagraphList(paragraphs: seq<Paragraph>)
  datatype Alternative = Alternative(paragraphs: Option<ParagraphList>)
  datatype Channel = Channel(alternatives: seq<Alternative>)
  datatype Transcript = Transcript(channels: seq<Channel>)

  /** The image record: the last image's index and the seconds between
      images. */
  datatype Images = Images(maxIndex: int, interval: real)

  /** How `align` ends: it throws when there is no first channel or no first
      alternative to read. */
  datatype WebAligned = Threw | Chunks(chunks: seq<ViewerChunk>)

  /** `Math.max(1, Math.min(raw, numImages - 1))`. */
  function WebIndex(raw: int, numImages: int): (r: int)
    ensures r >= 1
    ensures numImages >= 2 ==> r <= numImages - 1
    ensures 1 <= raw <= numImages - 1 ==> r == raw
  {
    MaxInt(1, MinInt(raw, numImages - 1))
  }

  function SentenceText(sentences: seq<Sentence>): (r: string)
  {
    Join(seq(|sentences|, i requires 0 <= i < |sentences| => sentences[i].text), " ")
  }

  /** The chunk of one paragraph. */
  function ParagraphChunk(p: Paragraph, images: Images): (r: ViewerChunk)
    requires images.interval > 0.0
    ensures r.start == p.start && r.end == p.end && r.text == SentenceText(p.sentences)
    ensures |r.images| == 2 && r.images[0] >= 1 && r.images[1] >= 1
    ensures images.maxIndex >= 1 ==> r.images[0] <= images.maxIndex && r.images[1] <= images.maxIndex
  {
    var numImages := images.maxIndex + 1;
    ViewerChunk(p.start, p.end, SentenceText(p.sentences),
      [WebIndex(Ceil(p.start / images.interval), numImages), WebIndex(Floor(p.end / images.interval), numImages)])
  }

  /** `align`: no images or no transcript gives no chunks; a first
      alternative without paragraphs gives none either. */
  function Align(images: Option<Images>, transcript: Option<Transcript>): (r: WebAligned)
    requires images.Some? ==> images.value.interval > 0.0
    ensures images.None? || transcript.None? ==> r == Chunks([])
    ensures r.Threw? <==> (images.Some? && transcript.Some?
      && (|transcript.value.channels| == 0 || |transcript.value.channels[0].alternatives| == 0))
    ensures r.Chunks? && images.Some? && transcript.Some? ==>
      var alternative := transcript.value.channels[0].alternatives[0];
      && (alternative.paragraphs.None? ==> r.chunks == [])
      && (alternative.paragraphs.Some? ==>
            var ps := alternative.paragraphs.value.paragraphs;
            && |r.chunks| == |ps|
            && forall i :: 0 <= i < |ps| ==> r.chunks[i] == ParagraphChunk(ps[i], images.value))
  {
    if images.None? || transcript.None? then Chunks([])
    else
      var channels := transcript.value.channels;
      if |channels| == 0 || |channels[0].alternatives| == 0 then Threw
      else
        match channels[0].alternatives[0].paragraphs
        case None => Chunks([])
        case Some(list) =>
          var ps := list.paragraphs;
          Chunks(seq(|ps|, i requires 0 <= i < |ps| => ParagraphChunk(ps[i], images.value)))
  }

  /** The Rust page clamps with `.max(1).min(max_index)` after a saturating
      cast, the web app with `max(1, min(raw, max_index))`: the two agree
      whenever there is an image after the first, and differ (0 against 1)
      when max_index is 0. */
  lemma ClampOrdersAgree(raw: int, maxIndex: nat)
    requires raw <= DocAlign.U64_MAX
    ensures maxIndex >= 1 ==> WebIndex(raw, maxIndex + 1) == DocAlign.ClampIndex(DocAlign.SatU64(raw), maxIndex)
    ensures maxIndex == 0 ==> WebIndex(raw, maxIndex + 1) == 1 && DocAlign.ClampIndex(DocAlign.SatU64(raw), maxIndex) == 0
  {
    DocAlign.ClampIndexBounds(DocAlign.SatU64(raw), maxIndex);
  }
}

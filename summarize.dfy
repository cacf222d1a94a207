/** The summarisation job: read the transcript text out of the stored
    speech-service response, build the language-model request, take the
    summary out of the reply and store it, marking the video ready. */
module Summarize {
  import opened Wrappers
  import opened Strings
  import opened Json
  import opened Jobs
  import opened VideoTypes

  const SYSTEM_PROMPT: string := "Your task is to summarize Youtube video transcripts. Clearly explain the topics discussed, and notable or surprising details, and the general sentiment around them."
  const SUMMARIZE_PROMPT_PREFIX: string := "The video transcript follows:"
  const SUMMARIZE_ASSISTANT_PREFIX: string := "The summary of the above transcript is:"
  const MODEL: string := "claude-3-haiku-20240307"
  const MAX_TOKENS: nat := 768
  const TEMPERATURE: real := 0.5

  /** Where the speech service puts the paragraph transcript:
      "/results/channels/0/alternatives/0/paragraphs/transcript". */
  const TRANSCRIPT_TOKENS: seq<string> := ["results", "channels", "0", "alternatives", "0", "paragraphs", "transcript"]
  const TRANSCRIPT_POINTER: string := PathOf(TRANSCRIPT_TOKENS)

  /** The transcript text: a NULL column, a missing value or a non-string
      value at the JSON pointer all fail with NoTranscript; the text is trimmed. */
  function TranscriptText(column: Option<Json>): (r: Result<string, JobError>)
    ensures column.None? ==> r == Err(NoTranscript)
    ensures r.Err? ==> r.error == NoTranscript
    ensures r.Ok? <==> column.Some? && Pointer(column.value, TRANSCRIPT_POINTER).Some?
                       && Pointer(column.value, TRANSCRIPT_POINTER).value.Str?
    ensures r.Ok? ==> r.value == Trim(Pointer(column.value, TRANSCRIPT_POINTER).value.s)
  {
    match column
    case None => Err(NoTranscript)
    case Some(transcript) =>
      match Pointer(transcript, TRANSCRIPT_POINTER)
      case Some(Str(text)) => Ok(Trim(text))
      case _ => Err(NoTranscript)
  }

  /** A speech-service response holding `text` at the paragraph transcript,
      with the given other keys beside `results`. */
  function Response(text: string, others: map<string, Json>): Json {
    var paragraphs := Object(map["transcript" := Str(text)]);
    var alternative := Object(map["paragraphs" := paragraphs]);
    var channel := Object(map["alternatives" := Array([alternative])]);
    Object(others["results" := Object(map["channels" := Array([channel])])])
  }

  lemma TokensHaveNoSlash()
    ensures forall k :: 0 <= k < |TRANSCRIPT_TOKENS| ==> '/' !in TRANSCRIPT_TOKENS[k]
  {
    forall k | 0 <= k < |TRANSCRIPT_TOKENS|
      ensures '/' !in TRANSCRIPT_TOKENS[k]
    {
      assert TRANSCRIPT_TOKENS[k] in TRANSCRIPT_TOKENS;
    }
  }

  lemma KeyStep(m: map<string, Json>, t: seq<string>)
    requires |t| > 0 && t[0] in m
    ensures PointerTokens(Object(m), t) == PointerTokens(m[t[0]], t[1..])
  {
  }

  lemma FirstElementStep(v: Json, t: seq<string>)
    requires |t| > 0 && t[0] == "0"
    ensures PointerTokens(Array([v]), t) == PointerTokens(v, t[1..])
  {
    ParseIndexOfDecimal(0);
    assert Decimal(0) == "0";
  }

  /** Token by token, the path leads from the response to its transcript
      text. */
  lemma TokensReachTranscript(text: string, others: map<string, Json>)
    ensures PointerTokens(Response(text, others), TRANSCRIPT_TOKENS) == Some(Str(text))
  {
    var t := TRANSCRIPT_TOKENS;
    var paragraphs := map["transcript" := Str(text)];
    var alternative := map["paragraphs" := Object(paragraphs)];
    var channel := map["alternatives" := Array([Object(alternative)])];
    var results := map["channels" := Array([Object(channel)])];
    var top := others["results" := Object(results)];
    assert Response(text, others) == Object(top);
    KeyStep(top, t);
    assert t[1..][0] == "channels";
    KeyStep(results, t[1..]);
    assert t[1..][1..] == t[2..] && t[2..][0] == "0";
    FirstElementStep(Object(channel), t[2..]);
    assert t[2..][1..] == t[3..] && t[3..][0] == "alternatives";
    KeyStep(channel, t[3..]);
    assert t[3..][1..] == t[4..] && t[4..][0] == "0";
    FirstElementStep(Object(alternative), t[4..]);
    assert t[4..][1..] == t[5..] && t[5..][0] == "paragraphs";
    KeyStep(alternative, t[5..]);
    assert t[5..][1..] == t[6..] && t[6..][0] == "transcript";
    KeyStep(paragraphs, t[6..]);
    assert t[6..][1..] == [];
  }

  /** The JSON pointer walks results, channel 0, alternative 0, paragraphs,
      transcript. */
  lemma PointerReachesTranscript(text: string, others: map<string, Json>)
    ensures Pointer(Response(text, others), TRANSCRIPT_POINTER) == Some(Str(text))
  {
    TokensHaveNoSlash();
    PointerOfPath(Response(text, others), TRANSCRIPT_TOKENS);
    TokensReachTranscript(text, others);
  }

  /** A well-formed response yields its transcript, trimmed. */
  lemma TranscriptOfResponse(text: string, others: map<string, Json>)
    ensures TranscriptText(Some(Response(text, others))) == Ok(Trim(text))
  {
    PointerReachesTranscript(text, others);
  }

  /** A response without `results` has no transcript. */
  lemma NoResultsNoTranscript(fields: map<string, Json>)
    requires "results" !in fields
    ensures TranscriptText(Some(Object(fields))) == Err(NoTranscript)
  {
    TokensHaveNoSlash();
    PointerOfPath(Object(fields), TRANSCRIPT_TOKENS);
  }

  /** The user message: the prefix, then ":\n\n" (so the colon is doubled),
      then the transcript text. */
  function UserContent(text: string): (r: string)
    ensures r == SUMMARIZE_PROMPT_PREFIX + ":\n\n" + text
    ensures r[|SUMMARIZE_PROMPT_PREFIX| - 1..|SUMMARIZE_PROMPT_PREFIX| + 1] == "::"
    ensures r[|r| - |text|..] == text
  {
    SUMMARIZE_PROMPT_PREFIX + ":\n\n" + text
  }

  function Message(role: string, content: string): Json {
    Object(map["role" := Str(role), "content" := Str(content)])
  }

  /** The request body sent to the language model. */
  function SummaryRequest(text: string): (r: Json)
    ensures r.Object?
    ensures r.fields.Keys == {"model", "max_tokens", "temperature", "system", "messages"}
    ensures Get(r, "model") == Str(MODEL)
    ensures Get(r, "max_tokens") == Int(MAX_TOKENS)
    ensures Get(r, "temperature") == Float(TEMPERATURE)
    ensures Get(r, "system") == Str(SYSTEM_PROMPT)
    ensures Get(r, "messages") ==
      Array([Message("user", UserContent(text)), Message("assistant", SUMMARIZE_ASSISTANT_PREFIX)])
  {
    Object(map[
      "model" := Str(MODEL),
      "max_tokens" := Int(MAX_TOKENS),
      "temperature" := Float(TEMPERATURE),
      "system" := Str(SYSTEM_PROMPT),
      "messages" := Array([Message("user", UserContent(text)), Message("assistant", SUMMARIZE_ASSISTANT_PREFIX)])
    ])
  }

  /** Two requests differ only in the transcript they carry. */
  lemma RequestsDifferOnlyInText(a: string, b: string)
    ensures Get(SummaryRequest(a), "messages").elems[1] == Get(SummaryRequest(b), "messages").elems[1]
    ensures SummaryRequest(a) == SummaryRequest(b) <==> a == b
  {
    if SummaryRequest(a) == SummaryRequest(b) {
      assert UserContent(a) == Get(SummaryRequest(a), "messages").elems[0].fields["content"].s;
      assert UserContent(a)[|UserContent(a)| - |a|..] == a;
      assert |UserContent(a)| == |UserContent(b)|;
    }
  }

  /** `result["content"][0]["text"].as_str()`, else Summarizing. */
  function SummaryText(reply: Json): (r: Result<string, JobError>)
    ensures r.Err? ==> r.error == Summarizing
    ensures r.Ok? <==> Get(At(Get(reply, "content"), 0), "text").Str?
  {
    match Get(At(Get(reply, "content"), 0), "text")
    case Str(s) => Ok(s)
    case _ => Err(Summarizing)
  }

  /** A reply whose first content block has a text gives that text. */
  lemma SummaryOfReply(summary: string, block: map<string, Json>, rest: seq<Json>, others: map<string, Json>)
    ensures SummaryText(Object(others["content" := Array([Object(block["text" := Str(summary)])] + rest)])) == Ok(summary)
  {
  }

  /** The row update on success. */
  datatype Update = Update(summary: string, state: ProcessingState)

  /** How the reply call ends: no usable reply (send, status or JSON
      failure), or a parsed reply. */
  datatype Reply = ReplyFailed | Replied(body: Json)

  /** `run`: `column` is the transcript column, `ask` the model's reply to
      a request, `dbOk` whether the UPDATE succeeds. The request is sent
      only when the transcript text was found. */
  function Run(column: Option<Json>, ask: Json -> Reply, dbOk: bool): (r: (Result<(), JobError>, Option<Update>))
    ensures r.1.Some? <==> r.0.Ok?
    ensures TranscriptText(column).Err? ==> r == (Err(NoTranscript), None)
    ensures r.1.Some? ==>
      && TranscriptText(column).Ok?
      && ask(SummaryRequest(TranscriptText(column).value)).Replied?
      && SummaryText(ask(SummaryRequest(TranscriptText(column).value)).body) == Ok(r.1.value.summary)
      && r.1.value.state == Ready
  {
    match TranscriptText(column)
    case Err(e) => (Err(e), None)
    case Ok(text) =>
      match ask(SummaryRequest(text))
      case ReplyFailed => (Err(Summarizing), None)
      case Replied(body) =>
        match SummaryText(body)
        case Err(e) => (Err(e), None)
        case Ok(summary) =>
          if dbOk then (Ok(()), Some(Update(summary, Ready))) else (Err(Db), None)
  }

  /** The update does not depend on earlier runs: running again with the
      same reply stores the same summary. */
  lemma RerunOverwrites(column: Option<Json>, ask: Json -> Reply, text: string, summary: string)
    requires TranscriptText(column) == Ok(text)
    requires ask(SummaryRequest(text)).Replied?
    requires SummaryText(ask(SummaryRequest(text)).body) == Ok(summary)
    ensures Run(column, ask, true) == (Ok(()), Some(Update(summary, Ready)))
  {
  }
}

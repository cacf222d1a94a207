/** The transcription job: send the audio to the speech service, retrying
    only the failures the service reports as transient, tag the transcript
    with its format, merge the elapsed time into the metadata and hand the
    video on to summarisation. */
module Transcribe {
  import opened Wrappers
  import opened Json
  import opened Jobs

  /** How one call to the speech service ends. */
  datatype Attempt =
    | AudioUnavailable                         // reading the audio from storage failed
    | NoResponse                               // sending failed without an HTTP response (timeout included)
    | Responded(status: nat, body: Option<Json>) // `body` is None when it is not valid JSON

  /** A call's result: the response body, or the error with its retry flag. */
  type Sent = Result<Option<Json>, (bool, JobError)>

  /** An HTTP status `error_for_status` turns into an error. */
  predicate IsErrorStatus(status: nat) {
    400 <= status <= 599
  }

  /** The classification in `send_request`: storage and transport failures
      are final, an error status is retried when it is a server error, 429
      (too many requests) or 408 (request timeout), and a success carries no
      retry. */
  function SendRequest(a: Attempt): (r: Sent)
    ensures a.AudioUnavailable? ==> r == Err((false, StorageDownload))
    ensures a.NoResponse? ==> r == Err((false, Transcribe))
    ensures a.Responded? ==> (r.Ok? <==> !IsErrorStatus(a.status))
    ensures a.Responded? && r.Ok? ==> r.value == a.body
    ensures r.Err? && r.error.0 <==>
      a.Responded? && (500 <= a.status <= 599 || a.status == 429 || a.status == 408)
  {
    match a
    case AudioUnavailable => Err((false, StorageDownload))
    case NoResponse => Err((false, Transcribe))
    case Responded(status, body) =>
      if IsErrorStatus(status) then
        Err((500 <= status <= 599 || status == 429 || status == 408, Transcribe))
      else Ok(body)
  }

  /** The retry condition: only an error flagged retryable is retried. */
  predicate ShouldRetry(r: Sent) {
    r.Err? && r.error.0
  }

  /** A retryable result is always an error of the speech call itself. */
  lemma RetryOnlyTranscribeErrors(a: Attempt)
    ensures ShouldRetry(SendRequest(a)) ==> SendRequest(a) == Err((true, Transcribe))
  {
  }

  /** The default exponential backoff gives up after three retries. */
  const MAX_RETRIES: nat := 3

  /** The retrying call. `attempt(k)` is how call k ends. The result is the
      first call that should not be retried, or the last allowed one; every
      call before it was retryable. */
  method RetrySend(attempt: nat -> Attempt) returns (r: Sent, calls: nat)
    ensures 1 <= calls <= MAX_RETRIES + 1
    ensures r == SendRequest(attempt(calls - 1))
    ensures forall j :: 0 <= j < calls - 1 ==> ShouldRetry(SendRequest(attempt(j)))
    ensures calls <= MAX_RETRIES ==> !ShouldRetry(r)
  {
    r := SendRequest(attempt(0));
    calls := 1;
    while calls <= MAX_RETRIES && ShouldRetry(r)
      invariant 1 <= calls <= MAX_RETRIES + 1
      invariant r == SendRequest(attempt(calls - 1))
      invariant forall j :: 0 <= j < calls - 1 ==> ShouldRetry(SendRequest(attempt(j)))
    {
      r := SendRequest(attempt(calls));
      calls := calls + 1;
    }
  }

  /** A first call that succeeds or fails for good is the only call. */
  lemma FirstSettledCallIsFinal(attempt: nat -> Attempt, r: Sent, calls: nat)
    requires 1 <= calls <= MAX_RETRIES + 1
    requires r == SendRequest(attempt(calls - 1))
    requires forall j :: 0 <= j < calls - 1 ==> ShouldRetry(SendRequest(attempt(j)))
    requires !ShouldRetry(SendRequest(attempt(0)))
    ensures calls == 1 && r == SendRequest(attempt(0))
  {
    var first := SendRequest(attempt(0));
    assert calls > 1 ==> ShouldRetry(first);
  }

  const PROVIDER_FORMAT_KEY: string := "_provider_format"
  const PROVIDER_FORMAT: string := "deepgram_v1"

  /** The metadata patch `{"transcription": {"duration": secs}}`. */
  function DurationPatch(secs: nat): (r: Json)
    ensures r.Object? && r.fields.Keys == {"transcription"}
    ensures Get(Get(r, "transcription"), "duration") == Int(secs)
  {
    Object(map["transcription" := Object(map["duration" := Int(secs)])])
  }

  datatype TranscribePayload = TranscribePayload(id: string, storagePrefix: string, audioPath: string)

  /** The summarisation job's payload carries only the video id. */
  datatype SummarizePayload = SummarizePayload(id: string)

  /** The columns the UPDATE writes. */
  datatype Committed = Committed(transcript: Json, metadata: Option<Json>)

  /** How the job ends: normally, with an error, or by a panic (tagging a
      response that is neither an object nor null). */
  datatype End = Finished | Failed(error: JobError) | Panicked

  datatype Outcome = Outcome(end: End, committed: Option<Committed>, enqueued: Option<SummarizePayload>)

  /** `run` after the retrying call: `sent` is its result, `metadata` the
      row's current metadata column, `elapsedSecs` the whole seconds since
      the job started, and `dbOk`/`queueOk` whether the UPDATE and the
      enqueue succeed. */
  function Run(payload: TranscribePayload, sent: Sent, metadata: Option<Json>, elapsedSecs: nat,
               dbOk: bool, queueOk: bool): (r: Outcome)
    ensures sent.Err? ==> r == Outcome(Failed(sent.error.1), None, None)
    ensures sent == Ok(None) ==> r == Outcome(Failed(Transcribe), None, None)
    ensures r.committed.Some? ==>
      && sent.Ok? && sent.value.Some?
      && Insert(sent.value.value, PROVIDER_FORMAT_KEY, Str(PROVIDER_FORMAT)) == Some(r.committed.value.transcript)
      && r.committed.value.metadata == Concat(metadata, DurationPatch(elapsedSecs))
    ensures r.end.Finished? <==> r.enqueued.Some?
    ensures r.enqueued.Some? ==> r.committed.Some? && r.enqueued.value == SummarizePayload(payload.id)
    ensures r.end.Panicked? <==> sent.Ok? && sent.value.Some? && !(sent.value.value.Null? || sent.value.value.Object?)
    ensures r.committed.None? ==> r.enqueued.None?
  {
    match sent
    case Err((_, e)) => Outcome(Failed(e), None, None)
    case Ok(None) => Outcome(Failed(Transcribe), None, None)
    case Ok(Some(body)) =>
      match Insert(body, PROVIDER_FORMAT_KEY, Str(PROVIDER_FORMAT))
      case None => Outcome(Panicked, None, None)
      case Some(tagged) =>
        if !dbOk then Outcome(Failed(Db), None, None)
        else
          var committed := Committed(tagged, Concat(metadata, DurationPatch(elapsedSecs)));
          if !queueOk then Outcome(Failed(Queue), Some(committed), None)
          else Outcome(Finished, Some(committed), Some(SummarizePayload(payload.id)))
  }

  /** The stored transcript is the response with its format tag added and
      every other key of the response kept. */
  lemma TranscriptTagged(payload: TranscribePayload, body: map<string, Json>, metadata: Option<Json>,
                         secs: nat, queueOk: bool, key: string)
    ensures var r := Run(payload, Ok(Some(Object(body))), metadata, secs, true, queueOk);
      && r.committed.Some?
      && Get(r.committed.value.transcript, PROVIDER_FORMAT_KEY) == Str(PROVIDER_FORMAT)
      && (key != PROVIDER_FORMAT_KEY ==> Get(r.committed.value.transcript, key) == Get(Object(body), key))
  {
  }

  /** The metadata is merged, not replaced: the transcription entry is
      overwritten and every other entry survives. */
  lemma MetadataMerged(payload: TranscribePayload, body: map<string, Json>, m: map<string, Json>,
                       secs: nat, queueOk: bool, key: string)
    ensures var r := Run(payload, Ok(Some(Object(body))), Some(Object(m)), secs, true, queueOk);
      && r.committed.Some? && r.committed.value.metadata.Some?
      && Get(Get(r.committed.value.metadata.value, "transcription"), "duration") == Int(secs)
      && (key != "transcription" ==> Get(r.committed.value.metadata.value, key) == Get(Object(m), key))
  {
    ConcatObjectGet(m, DurationPatch(secs).fields, key);
    ConcatObjectGet(m, DurationPatch(secs).fields, "transcription");
  }

  /** The whole job from the first call on: what the retrying call returns,
      and what `run` does with it. */
  method RunJob(payload: TranscribePayload, attempt: nat -> Attempt, metadata: Option<Json>,
                elapsedSecs: nat, dbOk: bool, queueOk: bool) returns (r: Outcome, calls: nat)
    ensures 1 <= calls <= MAX_RETRIES + 1
    ensures r == Run(payload, SendRequest(attempt(calls - 1)), metadata, elapsedSecs, dbOk, queueOk)
    ensures forall j :: 0 <= j < calls - 1 ==> ShouldRetry(SendRequest(attempt(j)))
    ensures calls <= MAX_RETRIES ==> !ShouldRetry(SendRequest(attempt(calls - 1)))
  {
    var sent;
    sent, calls := RetrySend(attempt);
    r := Run(payload, sent, metadata, elapsedSecs, dbOk, queueOk);
  }

  /** A storage failure for the audio is reported after a single call and
      commits nothing. */
  lemma StorageFailureNotRetried(payload: TranscribePayload, attempt: nat -> Attempt, metadata: Option<Json>,
                                 secs: nat, dbOk: bool, queueOk: bool, r: Outcome, calls: nat)
    requires attempt(0) == AudioUnavailable
    requires 1 <= calls <= MAX_RETRIES + 1
    requires r == Run(payload, SendRequest(attempt(calls - 1)), metadata, secs, dbOk, queueOk)
    requires forall j :: 0 <= j < calls - 1 ==> ShouldRetry(SendRequest(attempt(j)))
    ensures calls == 1 && r == Outcome(Failed(StorageDownload), None, None)
  {
    FirstSettledCallIsFinal(attempt, SendRequest(attempt(calls - 1)), calls);
  }
}

/**
  What the client makes of the upload response and of the status responses
  that follow (AudioVideoManager.swift, `processVideosWithBackend` and
  `checkProcessingStatus`).

  A response is abstracted to what the client looks at: the transport error's
  description, whether the response is an HTTP response and its status code,
  and what JSON parsing made of the body. The status poll is a scripted
  server: `server(i)` is the response to the i-th status request (counting
  from 0). The two-second pause between requests and the dispatch queues are
  not modelled; only the order of the requests is.
 */
module StatusPolling {
  import opened Wrappers
  import opened Text

  datatype JsonValue = JString(s: string) | JOther

  datatype Json = JObject(fields: map<string, JsonValue>) | JNotObject

  /** What `JSONSerialization.jsonObject(with:)` made of a body: an error's description, or a value. */
  datatype Payload = Unparseable(reason: string) | Parsed(json: Json)

  /** The String stored under `key`, when `j` is an object holding one there (`json[key] as? String`). */
  function StringField(j: Json, key: string): (r: Option<string>)
    ensures r.Some? <==> j.JObject? && key in j.fields && j.fields[key].JString?
    ensures r.Some? ==> j.fields[key] == JString(r.value)
  {
    if j.JObject? && key in j.fields && j.fields[key].JString? then Some(j.fields[key].s) else None
  }

  // ---------------------------------------------------------------------------
  // The upload response

  /**
    The upload task's completion arguments: the error's description if the
    transfer failed, the status code if the response is an HTTP response, and
    what JSON parsing made of the body. `data` is `None` only when no body
    arrived at all (`data == nil`); an empty body is zero-length data, on
    which JSON parsing fails, so it arrives as `Some(Unparseable(_))` and is
    reported as "Failed to parse response: ...".
   */
  datatype UploadResponse = UploadResponse(error: Option<string>, httpStatus: Option<int>, data: Option<Payload>)

  /**
    Either the upload is rejected, with the text stored in `backendError` and
    the text passed to the completion handler, or the backend accepted it and
    polling starts with the returned id.
   */
  datatype UploadVerdict = Rejected(backendError: string, message: string) | Accepted(videoId: string)

  /** The upload was accepted exactly when every check passes and the body names a `video_id` String. */
  predicate AcceptedResponse(r: UploadResponse)
  {
    r.error.None? && r.httpStatus == Some(200) && r.data.Some? && r.data.value.Parsed?
    && StringField(r.data.value.json, "video_id").Some?
  }

  /** The checks of the upload completion handler, in their order. */
  function ClassifyUpload(r: UploadResponse): (v: UploadVerdict)
    ensures v.Accepted? <==> AcceptedResponse(r)
    ensures v.Accepted? ==> Some(v.videoId) == StringField(r.data.value.json, "video_id")
    ensures v.Rejected? && r.error.None? ==> v.backendError == v.message
  {
    if r.error.Some? then
      Rejected("Upload error: " + r.error.value, r.error.value)
    else if r.httpStatus.None? then
      Rejected("Invalid server response", "Invalid server response")
    else if r.httpStatus.value != 200 then
      Rejected("Server error: " + Decimal(r.httpStatus.value), "Server error: " + Decimal(r.httpStatus.value))
    else if r.data.None? then
      Rejected("No data returned from server", "No data returned from server")
    else match r.data.value
      case Unparseable(d) =>
        Rejected("Failed to parse response: " + d, "Failed to parse response: " + d)
      case Parsed(json) =>
        match StringField(json, "video_id")
        case Some(id) => Accepted(id)
        case None => Rejected("Invalid response format", "Invalid response format")
  }

  /**
    Each check wins over every later one: a transport error is reported
    whatever the rest says; a non-200 status is reported with its code, which
    reads back from the message, whatever the body holds.
   */
  lemma UploadCheckOrder(r: UploadResponse)
    ensures r.error.Some? ==> ClassifyUpload(r) == Rejected("Upload error: " + r.error.value, r.error.value)
    ensures r.error.None? && r.httpStatus.None? ==> ClassifyUpload(r).message == "Invalid server response"
    ensures r.error.None? && r.httpStatus.Some? && r.httpStatus.value != 200 ==>
      var m := ClassifyUpload(r).message;
      ClassifyUpload(r).Rejected? && |m| > 14 && m[..14] == "Server error: "
      && (r.httpStatus.value >= 0 ==> DigitsValue(m[14..]) == r.httpStatus.value)
    ensures r.error.None? && r.httpStatus == Some(200) && r.data.None? ==>
      ClassifyUpload(r).message == "No data returned from server"
  {
    if r.error.None? && r.httpStatus.Some? && r.httpStatus.value != 200 {
      var code := r.httpStatus.value;
      var m := ClassifyUpload(r).message;
      assert m == "Server error: " + Decimal(code);
      assert m[14..] == Decimal(code);
      if code >= 0 {
        DigitsRoundTrip(code);
      }
    }
  }

  // ---------------------------------------------------------------------------
  // The status poll

  /** A status request's completion arguments: the error's description, and the parsed body if any. */
  datatype StatusResponse = StatusResponse(error: Option<string>, data: Option<Payload>)

  /** How the poll ends: success, or failure with the `backendError` text and the completion message. */
  datatype PollEnd = Completed | Failed(backendError: string, message: string)

  const ProcessingFailed: PollEnd := Failed("Processing failed on server", "Processing failed on server")
  const TimedOut: PollEnd := Failed("Processing timed out", "Processing timed out")
  const InvalidStatusUrl: PollEnd := Failed("Invalid status URL", "Invalid status URL")

  /**
    What one status response means: the poll ends here whatever the attempt
    count, or it is retried while attempts remain and otherwise ends as `ifLast`.
   */
  datatype Reading = Final(end: PollEnd) | Retry(ifLast: PollEnd)

  /** A well-formed status response reporting `status`. */
  function StatusIs(status: string): StatusResponse
  {
    StatusResponse(None, Some(Parsed(JObject(map["status" := JString(status)]))))
  }

  /** The branches of the status request's completion handler. */
  function Read(r: StatusResponse): (g: Reading)
    ensures g.Final? <==> r.error.None? && r.data.Some? && r.data.value.Parsed?
                          && StringField(r.data.value.json, "status") in {Some("completed"), Some("failed")}
    ensures g == Final(Completed) <==>
      r.error.None? && r.data.Some? && r.data.value.Parsed?
      && StringField(r.data.value.json, "status") == Some("completed")
    ensures g.Final? && g.end.Failed? ==> g.end == ProcessingFailed
  {
    if r.error.Some? then
      Retry(Failed("Status check failed: " + r.error.value, r.error.value))
    else if r.data.None? then
      Retry(Failed("No data in status response", "No data in status response"))
    else match r.data.value
      case Unparseable(d) =>
        Retry(Failed("Failed to parse status: " + d, "Failed to parse status: " + d))
      case Parsed(json) =>
        match StringField(json, "status")
        case None => Retry(Failed("Invalid status format", "Invalid status format"))
        case Some(status) =>
          if status == "completed" then Final(Completed)
          else if status == "failed" then Final(ProcessingFailed)
          else Retry(TimedOut)
  }

  /** Any status other than "completed" and "failed" is still in progress, and times out at the last attempt. */
  lemma OtherStatusRetries(status: string)
    requires status != "completed" && status != "failed"
    ensures Read(StatusIs(status)) == Retry(TimedOut)
  {
    assert StringField(StatusIs(status).data.value.json, "status") == Some(status);
  }

  /** How many requests the poll may send: `maxAttempts`, but always at least one. */
  function Cap(maxAttempts: int): (n: nat)
    ensures n >= 1 && n >= maxAttempts
    ensures maxAttempts >= 1 ==> n == maxAttempts
    ensures maxAttempts < 1 ==> n == 1
  {
    if maxAttempts < 1 then 1 else maxAttempts
  }

  /**
    How the poll ends and how many requests it sent in all, once `sent`
    requests got a response that asked for another attempt.
   */
  function PollFrom(sent: nat, maxAttempts: int, server: nat -> StatusResponse): (r: (PollEnd, nat))
    requires sent < Cap(maxAttempts)
    ensures sent < r.1 <= Cap(maxAttempts)
    decreases Cap(maxAttempts) - sent
  {
    var attemptCount := sent + 1;
    match Read(server(sent))
    case Final(end) => (end, attemptCount)
    case Retry(ifLast) =>
      if attemptCount >= maxAttempts then (ifLast, attemptCount)
      else PollFrom(attemptCount, maxAttempts, server)
  }

  /** How the poll ends and how many status requests it sent. */
  function Poll(maxAttempts: int, urlValid: bool, server: nat -> StatusResponse): (r: (PollEnd, nat))
    ensures urlValid ==> 1 <= r.1 <= Cap(maxAttempts)
    ensures !urlValid ==> r == (InvalidStatusUrl, 0)
  {
    if urlValid then PollFrom(0, maxAttempts, server) else (InvalidStatusUrl, 0)
  }

  /**
    The loop of `checkProcessingStatus`: each round counts an attempt, then either finds the
    status URL invalid or sends one request and handles its response, until a
    round ends the poll.
   */
  method PollStatus(maxAttempts: int, urlValid: bool, server: nat -> StatusResponse)
    returns (end: PollEnd, requests: nat)
    ensures (end, requests) == Poll(maxAttempts, urlValid, server)
  {
    var attemptCount: nat := 0;
    var finished := false;
    end, requests := Completed, 0;
    while !finished
      invariant attemptCount <= Cap(maxAttempts)
      invariant !finished ==> attemptCount < Cap(maxAttempts) && requests == attemptCount
      invariant !finished && urlValid ==> Poll(maxAttempts, urlValid, server)
                                          == PollFrom(attemptCount, maxAttempts, server)
      invariant !finished && !urlValid ==> attemptCount == 0
      invariant finished ==> (end, requests) == Poll(maxAttempts, urlValid, server)
      decreases Cap(maxAttempts) - attemptCount
    {
      attemptCount := attemptCount + 1;
      if !urlValid {
        end := InvalidStatusUrl;
        finished := true;
      } else {
        var response := server(requests);
        requests := requests + 1;
        match Read(response)
        case Final(e) =>
          end := e;
          finished := true;
        case Retry(ifLast) =>
          if attemptCount >= maxAttempts {
            end := ifLast;
            finished := true;
          }
      }
    }
  }

  /**
    The responses from `sent` on, as the poll saw them: all but the last asked
    for another attempt; the last either ended the poll or came when no
    attempts remained.
   */
  lemma {:induction false} PollFromTrace(sent: nat, maxAttempts: int, server: nat -> StatusResponse)
    requires sent < Cap(maxAttempts)
    ensures var (end, n) := PollFrom(sent, maxAttempts, server);
      (forall i :: sent <= i < n - 1 ==> Read(server(i)).Retry?)
      && (Read(server(n - 1)).Final? ==> end == Read(server(n - 1)).end)
      && (Read(server(n - 1)).Retry? ==> n == Cap(maxAttempts) && end == Read(server(n - 1)).ifLast)
    decreases Cap(maxAttempts) - sent
  {
    if Read(server(sent)).Retry? && sent + 1 < maxAttempts {
      PollFromTrace(sent + 1, maxAttempts, server);
    }
  }

  /**
    The whole poll by its responses: every response before the last asked to
    retry, the last one decides the outcome, and fewer than the maximum number
    of requests means the last response was final.
   */
  lemma PollTrace(maxAttempts: int, server: nat -> StatusResponse)
    ensures var (end, n) := Poll(maxAttempts, true, server);
      (forall i :: 0 <= i < n - 1 ==> Read(server(i)).Retry?)
      && (Read(server(n - 1)).Final? ==> end == Read(server(n - 1)).end)
      && (Read(server(n - 1)).Retry? ==> n == Cap(maxAttempts) && end == Read(server(n - 1)).ifLast)
  {
    PollFromTrace(0, maxAttempts, server);
  }

  /**
    The first final response ends the poll, at any attempt: nothing is retried
    after the server reports "completed" or "failed".
   */
  lemma FirstFinalResponseDecides(maxAttempts: int, server: nat -> StatusResponse, k: nat)
    requires k < Cap(maxAttempts)
    requires forall i :: 0 <= i < k ==> Read(server(i)).Retry?
    requires Read(server(k)).Final?
    ensures Poll(maxAttempts, true, server) == (Read(server(k)).end, k + 1)
  {
    PollTrace(maxAttempts, server);
    var n := Poll(maxAttempts, true, server).1;
    assert Read(server(n - 1)).Final? || n == Cap(maxAttempts);
    assert k <= n - 1;
  }

  /** When every allowed request asks for a retry, all of them are sent and the last one decides the failure. */
  lemma AllRetriesExhaustAttempts(maxAttempts: int, server: nat -> StatusResponse)
    requires forall i :: 0 <= i < Cap(maxAttempts) ==> Read(server(i)).Retry?
    ensures Poll(maxAttempts, true, server) == (Read(server(Cap(maxAttempts) - 1)).ifLast, Cap(maxAttempts))
  {
    PollTrace(maxAttempts, server);
  }

  /** The poll depends on the first `Cap(maxAttempts)` responses only. */
  lemma {:induction false} PollFromReadsWithinCap(sent: nat, maxAttempts: int,
                                                  s1: nat -> StatusResponse, s2: nat -> StatusResponse)
    requires sent < Cap(maxAttempts)
    requires forall i :: sent <= i < Cap(maxAttempts) ==> s1(i) == s2(i)
    ensures PollFrom(sent, maxAttempts, s1) == PollFrom(sent, maxAttempts, s2)
    decreases Cap(maxAttempts) - sent
  {
    if Read(s1(sent)).Retry? && sent + 1 < maxAttempts {
      PollFromReadsWithinCap(sent + 1, maxAttempts, s1, s2);
    }
  }

  /** A job reported "processing" `k` times and then "completed" is a success after `k + 1` requests. */
  lemma CompletesAfterProcessing(maxAttempts: int, server: nat -> StatusResponse, k: nat)
    requires k < Cap(maxAttempts)
    requires forall i :: 0 <= i < k ==> server(i) == StatusIs("processing")
    requires server(k) == StatusIs("completed")
    ensures Poll(maxAttempts, true, server) == (Completed, k + 1)
  {
    OtherStatusRetries("processing");
    assert StringField(StatusIs("completed").data.value.json, "status") == Some("completed");
    FirstFinalResponseDecides(maxAttempts, server, k);
  }

  /** A server that reports "failed" on the first request gets exactly one request. */
  lemma FailedFirstIsNotRetried(maxAttempts: int, server: nat -> StatusResponse)
    requires server(0) == StatusIs("failed")
    ensures Poll(maxAttempts, true, server) == (ProcessingFailed, 1)
  {
    assert StringField(StatusIs("failed").data.value.json, "status") == Some("failed");
    FirstFinalResponseDecides(maxAttempts, server, 0);
  }

  /** A job that stays "processing" times out after exactly the maximum number of requests. */
  lemma AlwaysProcessingTimesOut(maxAttempts: int, server: nat -> StatusResponse)
    requires forall i :: 0 <= i < Cap(maxAttempts) ==> server(i) == StatusIs("processing")
    ensures Poll(maxAttempts, true, server) == (TimedOut, Cap(maxAttempts))
  {
    OtherStatusRetries("processing");
    AllRetriesExhaustAttempts(maxAttempts, server);
  }

  /** A status server that cannot be reached is tried the maximum number of times, then given up on. */
  lemma UnreachableServerGivesUp(maxAttempts: int, reason: string, server: nat -> StatusResponse)
    requires forall i :: 0 <= i < Cap(maxAttempts) ==> server(i) == StatusResponse(Some(reason), None)
    ensures Poll(maxAttempts, true, server)
            == (Failed("Status check failed: " + reason, reason), Cap(maxAttempts))
  {
    AllRetriesExhaustAttempts(maxAttempts, server);
  }
}

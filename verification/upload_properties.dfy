/** What UploadFile promises over a whole run: arguments are checked before
    any request, the estimate is announced first, every session ends either
    completed with all its parts or aborted once with its own upload id,
    progress only grows, and the upload id comes back on both paths. */
module UploadProperties {
  import opened Events
  import opened Segmentation
  import opened UploadSpec
  import opened RetryProperties
  import opened PartsProperties

  /** The session Initiate opened. */
  function SessionOf(spaceName: string, req: Request, store: Store): Session
    requires CheckRequest(req).None? && store.initiate.Some?
  {
    Session(spaceName, req.uploadName.value, store.initiate.value)
  }

  function JobOf(spaceName: string, req: Request, file: FileInfo, store: Store): Job
    requires CheckRequest(req).None? && store.initiate.Some?
  {
    JobFor(SessionOf(spaceName, req, store), req.filePath.value, req.maxPartRetry, req.maxPartSize, file)
  }

  /** The segment loop of the session. */
  function RunOf(spaceName: string, req: Request, file: FileInfo, store: Store): PartsRun
    requires CheckRequest(req).None? && store.initiate.Some?
  {
    RunParts(JobOf(spaceName, req, file, store), store, Segments(file.length, req.maxPartSize), [])
  }

  /** Initiate, then the announcement of the estimate. */
  function HeadOf(spaceName: string, req: Request, file: FileInfo, store: Store): seq<Event>
    requires CheckRequest(req).None? && store.initiate.Some?
  {
    [InitiateCall(spaceName, req.uploadName.value, file.contentType),
     StatusEvent(UploadStatus(0, EstimatedParts(file.length, req.maxPartSize), 0, file.length))]
  }

  lemma UploadUnfold(spaceName: string, req: Request, file: FileInfo, store: Store)
    requires CheckRequest(req).None? && store.initiate.Some?
    ensures Upload(spaceName, req, file, store)
         == Finish(SessionOf(spaceName, req, store), store, HeadOf(spaceName, req, file, store), RunOf(spaceName, req, file, store))
  {}

  /** Bad arguments are rejected before any request reaches the store, and
      in the order filePath, uploadName, maxPartRetry, maxPartSize; valid
      arguments make Initiate the first request. */
  lemma UploadChecksArgumentsFirst(spaceName: string, req: Request, file: FileInfo, store: Store)
    ensures var r := Upload(spaceName, req, file, store);
      && (r.outcome.Rejected? <==> CheckRequest(req).Some?)
      && (r.outcome.Rejected? ==> r.outcome.error == CheckRequest(req).value && r.trace == [])
      && (!r.outcome.Rejected? ==>
            |r.trace| >= 1 && r.trace[0] == InitiateCall(spaceName, req.uploadName.value, file.contentType))
  {
    if CheckRequest(req).None? && store.initiate.Some? {
      UploadUnfold(spaceName, req, file, store);
    }
  }

  /** UploadFile checks its arguments before it creates the client. With
      valid arguments and a disposed key manager, creating the client throws
      before any request; with a usable key manager, UploadFile is Upload. */
  lemma UploadFileKeys(spaceName: string, keysDisposed: bool, req: Request, file: FileInfo, store: Store)
    ensures var r := UploadFileRun(spaceName, keysDisposed, req, file, store);
      && (CheckRequest(req).Some? ==> r == UploadRun(Rejected(CheckRequest(req).value), []))
      && (CheckRequest(req).None? && keysDisposed ==> r == UploadRun(Threw(KeysDisposed), []))
      && (!keysDisposed ==> r == Upload(spaceName, req, file, store))
  {}

  /** When Initiate throws, nothing else is requested and the exception escapes. */
  lemma UploadInitiateFailure(spaceName: string, req: Request, file: FileInfo, store: Store)
    requires CheckRequest(req).None? && store.initiate.None?
    ensures Upload(spaceName, req, file, store)
         == UploadRun(Threw(InitiateFailed), [InitiateCall(spaceName, req.uploadName.value, file.contentType)])
  {}

  /** Right after Initiate, the first progress record announces part 0 of
      the estimated count, 0 bytes uploaded, and the file length. */
  lemma UploadAnnouncesEstimate(spaceName: string, req: Request, file: FileInfo, store: Store)
    requires CheckRequest(req).None? && store.initiate.Some?
    ensures var r := Upload(spaceName, req, file, store);
      |r.trace| >= 2
      && r.trace[1] == StatusEvent(UploadStatus(0, EstimatedParts(file.length, req.maxPartSize), 0, file.length))
  {
    UploadUnfold(spaceName, req, file, store);
  }

  lemma CountsOfThree(a: seq<Event>, b: seq<Event>, c: seq<Event>)
    ensures AbortCount(a + b + c) == AbortCount(a) + AbortCount(b) + AbortCount(c)
    ensures CompleteCount(a + b + c) == CompleteCount(a) + CompleteCount(b) + CompleteCount(c)
  {
    CountsAppend(a + b, c);
    CountsAppend(a, b);
  }

  /** The events a session adds after its segment loop. */
  function EndEvents(s: Session, store: Store, run: PartsRun): seq<Event> {
    if run.failure.Some? then
      if store.aborts then [AbortCall(s), UploadAborted(run.failure.value)] else [AbortCall(s)]
    else if store.completes then [CompleteCall(s, run.parts)]
    else if store.aborts then [CompleteCall(s, run.parts), AbortCall(s), UploadAborted(CompleteFailed)]
    else [CompleteCall(s, run.parts), AbortCall(s)]
  }

  lemma FinishTrace(s: Session, store: Store, head: seq<Event>, run: PartsRun)
    ensures Finish(s, store, head, run).trace == head + run.events + EndEvents(s, store, run)
  {
    if run.failure.None? && !store.completes {
      var done := head + run.events + [CompleteCall(s, run.parts)];
      var abort := if store.aborts then [AbortCall(s), UploadAborted(CompleteFailed)] else [AbortCall(s)];
      assert done + abort == head + run.events + ([CompleteCall(s, run.parts)] + abort);
    }
  }

  /** The end of a session, for any segment loop run that neither
      completes nor aborts by itself. */
  lemma FinishCompletesOrAborts(s: Session, store: Store, head: seq<Event>, run: PartsRun)
    requires |head| == 2 && AbortCount(head) == 0 && CompleteCount(head) == 0
    requires AbortCount(run.events) == 0 && CompleteCount(run.events) == 0
    ensures var r := Finish(s, store, head, run);
      var n := |r.trace|;
      && n >= 3
      && r.trace[..|head|] == head
      && CompleteCount(r.trace) <= 1 && AbortCount(r.trace) <= 1
      && (AbortCount(r.trace) == 0 <==> CompleteCount(r.trace) == 1 && store.completes)
      && (AbortCount(r.trace) == 0 ==>
            r.outcome == Returned(s.uploadId) && r.trace[n - 1] == CompleteCall(s, run.parts) && run.failure.None?)
      && (AbortCount(r.trace) == 1 && store.aborts ==>
            r.trace[n - 2] == AbortCall(s) && r.trace[n - 1].UploadAborted? && r.outcome == Returned(s.uploadId))
      && (AbortCount(r.trace) == 1 && !store.aborts ==>
            r.trace[n - 1] == AbortCall(s) && r.outcome == Threw(AbortFailed(s)))
      && (run.failure.Some? ==>
            && CompleteCount(r.trace) == 0 && AbortCount(r.trace) == 1
            && (store.aborts ==> r.trace[n - 1] == UploadAborted(run.failure.value)))
  {
    var r := Finish(s, store, head, run);
    var body := head + run.events;
    var tail := EndEvents(s, store, run);
    FinishTrace(s, store, head, run);
    EndEventsShape(s, store, run);
    CountsOfThree(head, run.events, tail);
    var n := |r.trace|;
    assert r.trace[n - 1] == tail[|tail| - 1];
    if |tail| >= 2 {
      assert r.trace[n - 2] == tail[|tail| - 2];
    }
    assert r.trace[..|head|] == head;
  }

  /** What the events after the segment loop are, case by case. */
  lemma EndEventsShape(s: Session, store: Store, run: PartsRun)
    ensures var t := EndEvents(s, store, run);
      && 1 <= |t| <= 3
      && CompleteCount(t) == (if run.failure.None? then 1 else 0)
      && AbortCount(t) == (if run.failure.None? && store.completes then 0 else 1)
      && (AbortCount(t) == 0 ==> t[|t| - 1] == CompleteCall(s, run.parts))
      && (AbortCount(t) == 1 && store.aborts ==> |t| >= 2 && t[|t| - 2] == AbortCall(s) && t[|t| - 1].UploadAborted?)
      && (AbortCount(t) == 1 && !store.aborts ==> t[|t| - 1] == AbortCall(s))
      && (run.failure.Some? && store.aborts ==> t[|t| - 1] == UploadAborted(run.failure.value))
      && Finish(s, store, [], run).outcome ==
           (if (run.failure.None? && store.completes) || store.aborts then Returned(s.uploadId) else Threw(AbortFailed(s)))
  {
  }

  /** The only Complete a session sends carries the entries the segment
      loop recorded, and only after the loop went through. */
  lemma FinishCompleteCall(s: Session, store: Store, head: seq<Event>, run: PartsRun)
    requires CompleteCount(head) == 0 && CompleteCount(run.events) == 0
    ensures var r := Finish(s, store, head, run);
      forall i :: 0 <= i < |r.trace| && r.trace[i].CompleteCall? ==>
        r.trace[i] == CompleteCall(s, run.parts) && run.failure.None?
  {
    var r := Finish(s, store, head, run);
    var body := head + run.events;
    var tail := EndEvents(s, store, run);
    FinishTrace(s, store, head, run);
    CountsAppend(head, run.events);
    forall i | 0 <= i < |r.trace|
      ensures r.trace[i].CompleteCall? ==> r.trace[i] == CompleteCall(s, run.parts) && run.failure.None?
    {
      if i < |body| {
        assert r.trace[i] == body[i];
      } else {
        assert r.trace[i] == tail[i - |body|];
      }
    }
  }

  /** The progress records of a session are those of its head and of its
      segment loop. */
  lemma FinishStatuses(s: Session, store: Store, head: seq<Event>, run: PartsRun)
    ensures Statuses(Finish(s, store, head, run).trace) == Statuses(head) + Statuses(run.events)
  {
    var tail := EndEvents(s, store, run);
    FinishTrace(s, store, head, run);
    NoStatuses(tail);
    StatusesAppend(head + run.events, tail);
    StatusesAppend(head, run.events);
    assert Statuses(head + run.events) + [] == Statuses(head + run.events);
  }

  /** Every session ends in exactly one way. Either it completes: one
      Complete request for the session, which the store accepts, no abort,
      and the upload id returned. Or it is aborted: exactly one Abort request,
      for the session Initiate opened, followed only by the abort report
      (and the upload id returned) or, if the Abort itself throws, by
      nothing (and the exception escapes). At most one Complete is sent. */
  lemma UploadCompletesOrAborts(spaceName: string, req: Request, file: FileInfo, store: Store)
    requires CheckRequest(req).None? && store.initiate.Some?
    ensures var r := Upload(spaceName, req, file, store);
      var s := SessionOf(spaceName, req, store);
      var n := |r.trace|;
      && n >= 3
      && CompleteCount(r.trace) <= 1 && AbortCount(r.trace) <= 1
      && (AbortCount(r.trace) == 0 <==> CompleteCount(r.trace) == 1 && store.completes)
      && (AbortCount(r.trace) == 0 ==>
            r.outcome == Returned(s.uploadId) && r.trace[n - 1].CompleteCall? && r.trace[n - 1].session == s)
      && (AbortCount(r.trace) == 1 && store.aborts ==>
            r.trace[n - 2] == AbortCall(s) && r.trace[n - 1].UploadAborted? && r.outcome == Returned(s.uploadId))
      && (AbortCount(r.trace) == 1 && !store.aborts ==>
            r.trace[n - 1] == AbortCall(s) && r.outcome == Threw(AbortFailed(s)))
  {
    UploadUnfold(spaceName, req, file, store);
    RunPartsCalls(JobOf(spaceName, req, file, store), store, Segments(file.length, req.maxPartSize), []);
    FinishCompletesOrAborts(SessionOf(spaceName, req, store), store, HeadOf(spaceName, req, file, store), RunOf(spaceName, req, file, store));
  }

  /** When the segment loop of a session goes through, it has recorded one
      entry per part 1..N, N being the file length divided by the part size
      rounded up, each with the ETag the store answered for that part, and
      no ETag twice. */
  lemma SessionRecordsEveryPart(spaceName: string, req: Request, file: FileInfo, store: Store)
    requires CheckRequest(req).None? && store.initiate.Some?
    ensures var run := RunOf(spaceName, req, file, store);
      var segs := Segments(file.length, req.maxPartSize);
      var job := JobOf(spaceName, req, file, store);
      run.failure.None? ==>
        var ps := run.parts;
        && |ps| == |segs| == PartCount(file.length, req.maxPartSize)
        && DistinctETags(ps)
        && forall k :: 0 <= k < |ps| ==>
             ps[k].partNumber == k + 1 && Tries(job, store, segs[k]).response == Response(ps[k].eTag)
  {
    var segs := Segments(file.length, req.maxPartSize);
    var job := JobOf(spaceName, req, file, store);
    var run := RunOf(spaceName, req, file, store);
    RunPartsCount(job, store, segs, []);
    RunPartsEntries(job, store, segs, []);
    RunPartsDistinct(job, store, segs, []);
    SegmentsShape(file.length, req.maxPartSize);
    if run.failure.None? {
      forall k | 0 <= k < |run.parts|
        ensures run.parts[k].partNumber == k + 1 && Tries(job, store, segs[k]).response == Response(run.parts[k].eTag)
      {
        var none: seq<PartETag> := [];
        assert run.parts[|none| + k] == PartETag(segs[k].number, Tries(job, store, segs[k]).response.eTag);
      }
    }
  }

  /** Complete is sent only when every part 1..N of the file was accepted,
      N being the file length divided by the part size rounded up; it is
      sent for the session Initiate opened and carries exactly one entry per
      part, in part order, each with the ETag the store answered for that
      part, and no ETag twice. */
  lemma UploadCompleteCarriesEveryPart(spaceName: string, req: Request, file: FileInfo, store: Store)
    requires CheckRequest(req).None? && store.initiate.Some?
    ensures var r := Upload(spaceName, req, file, store);
      var segs := Segments(file.length, req.maxPartSize);
      var job := JobOf(spaceName, req, file, store);
      forall i :: 0 <= i < |r.trace| && r.trace[i].CompleteCall? ==>
        var ps := r.trace[i].parts;
        && r.trace[i].session == SessionOf(spaceName, req, store)
        && |ps| == |segs| == PartCount(file.length, req.maxPartSize)
        && DistinctETags(ps)
        && forall k :: 0 <= k < |ps| ==>
             ps[k].partNumber == k + 1 && Tries(job, store, segs[k]).response == Response(ps[k].eTag)
  {
    UploadUnfold(spaceName, req, file, store);
    RunPartsCalls(JobOf(spaceName, req, file, store), store, Segments(file.length, req.maxPartSize), []);
    FinishCompleteCall(SessionOf(spaceName, req, store), store, HeadOf(spaceName, req, file, store), RunOf(spaceName, req, file, store));
    SessionRecordsEveryPart(spaceName, req, file, store);
    var r := Upload(spaceName, req, file, store);
    var run := RunOf(spaceName, req, file, store);
    var segs := Segments(file.length, req.maxPartSize);
    var job := JobOf(spaceName, req, file, store);
    forall i | 0 <= i < |r.trace| && r.trace[i].CompleteCall?
      ensures var ps := r.trace[i].parts;
        && r.trace[i].session == SessionOf(spaceName, req, store)
        && |ps| == |segs| == PartCount(file.length, req.maxPartSize)
        && DistinctETags(ps)
        && forall k :: 0 <= k < |ps| ==>
             ps[k].partNumber == k + 1 && Tries(job, store, segs[k]).response == Response(ps[k].eTag)
    {
      assert r.trace[i] == CompleteCall(SessionOf(spaceName, req, store), run.parts);
      assert run.failure.None?;
    }
  }

  /** When the segment loop of a session stops early, no part after the one
      it stopped at was sent, and the cause names that part (its retries ran
      out or it got no response) or its ETag (already recorded for an
      earlier part). */
  lemma SessionStopsAtFailedPart(spaceName: string, req: Request, file: FileInfo, store: Store)
    requires CheckRequest(req).None? && store.initiate.Some?
    ensures var run := RunOf(spaceName, req, file, store);
      var job := JobOf(spaceName, req, file, store);
      var failed := |run.parts| + 1;
      var segs := Segments(file.length, req.maxPartSize);
      run.failure.Some? ==>
        && failed <= |segs|
        && (forall e :: e in run.events && e.UploadPartCall? ==> e.part.number <= failed)
        && (var t := Tries(job, store, segs[failed - 1]);
            if t.response.Response? then run.failure.value == DuplicateETag(t.response.eTag) && t.response.eTag in ETags(run.parts)
            else if t.response.ResponseWithoutETag? then run.failure.value == NullETag
            else run.failure.value == UnableToUploadPart(failed))
  {
    SegmentsShape(file.length, req.maxPartSize);
    RunPartsStops(JobOf(spaceName, req, file, store), store, Segments(file.length, req.maxPartSize));
  }

  /** SessionStopsAtFailedPart for any numbered list of parts. */
  lemma RunPartsStops(job: Job, store: Store, segs: seq<Part>)
    requires forall k :: 0 <= k < |segs| ==> segs[k].number == k + 1
    ensures var run := RunParts(job, store, segs, []);
      var failed := |run.parts| + 1;
      run.failure.Some? ==>
        && failed <= |segs|
        && (forall e :: e in run.events && e.UploadPartCall? ==> e.part.number <= failed)
        && (var t := Tries(job, store, segs[failed - 1]);
            if t.response.Response? then run.failure.value == DuplicateETag(t.response.eTag) && t.response.eTag in ETags(run.parts)
            else if t.response.ResponseWithoutETag? then run.failure.value == NullETag
            else run.failure.value == UnableToUploadPart(failed))
  {
    var run := RunParts(job, store, segs, []);
    RunPartsCount(job, store, segs, []);
    RunPartsFailure(job, store, segs, []);
    RunPartsCalls(job, store, segs, []);
    if run.failure.Some? {
      var failed := |run.parts| + 1;
      forall e | e in run.events && e.UploadPartCall?
        ensures e.part.number <= failed
      {
        var k :| 0 <= k < failed && segs[k] == e.part;
      }
    }
  }

  /** When a part cannot be recorded, the session goes down the abort path
      at once: no later part is sent, no Complete is sent, the Abort is sent
      once, and the abort report (if the Abort succeeds) names the cause. */
  lemma UploadStopsAtFailedPart(spaceName: string, req: Request, file: FileInfo, store: Store)
    requires CheckRequest(req).None? && store.initiate.Some?
    ensures var r := Upload(spaceName, req, file, store);
      var run := RunOf(spaceName, req, file, store);
      var failed := |run.parts| + 1;
      run.failure.Some? ==>
        && CompleteCount(r.trace) == 0
        && AbortCount(r.trace) == 1
        && (forall e :: e in r.trace && e.UploadPartCall? ==> e.part.number <= failed)
        && (store.aborts ==> r.trace[|r.trace| - 1] == UploadAborted(run.failure.value))
  {
    UploadUnfold(spaceName, req, file, store);
    var s := SessionOf(spaceName, req, store);
    var head := HeadOf(spaceName, req, file, store);
    var run := RunOf(spaceName, req, file, store);
    RunPartsCalls(JobOf(spaceName, req, file, store), store, Segments(file.length, req.maxPartSize), []);
    FinishCompletesOrAborts(s, store, head, run);
    SessionStopsAtFailedPart(spaceName, req, file, store);
    if run.failure.Some? {
      FinishPartCalls(s, store, head, run, |run.parts| + 1);
    }
  }

  /** The end of a session sends no part, so every part the whole trace
      sends was sent by the segment loop. */
  lemma FinishPartCalls(s: Session, store: Store, head: seq<Event>, run: PartsRun, bound: nat)
    requires forall e :: e in head ==> !e.UploadPartCall?
    requires forall e :: e in run.events && e.UploadPartCall? ==> e.part.number <= bound
    ensures forall e :: e in Finish(s, store, head, run).trace && e.UploadPartCall? ==> e.part.number <= bound
  {
    var tail := EndEvents(s, store, run);
    FinishTrace(s, store, head, run);
    forall e | e in Finish(s, store, head, run).trace && e.UploadPartCall?
      ensures e.part.number <= bound
    {
      assert e in head || e in run.events || e in tail;
    }
  }

  /** UploadFile hands back the upload id Initiate gave, whether the session
      completed or was aborted; only a throwing Initiate or a throwing Abort
      lets an exception escape. */
  lemma UploadReturnsUploadId(spaceName: string, req: Request, file: FileInfo, store: Store)
    requires CheckRequest(req).None?
    ensures var r := Upload(spaceName, req, file, store);
      && (r.outcome.Returned? <==> store.initiate.Some? && (store.aborts || AbortCount(r.trace) == 0))
      && (r.outcome.Returned? ==> r.outcome.uploadId == store.initiate.value)
      && (r.outcome.Threw? ==> r.outcome.thrown == InitiateFailed || !store.aborts)
  {
    if store.initiate.Some? {
      UploadCompletesOrAborts(spaceName, req, file, store);
    }
  }

  lemma MulStrict(a: nat, b: nat, m: nat)
    requires a < b && m >= 1
    ensures a * m < b * m
  {
    MulMono(a + 1, b, m);
    assert (a + 1) * m == a * m + m;
  }

  /** The progress records of a session's segment loop: one per accepted
      part k = 1, 2, ..., whose bytes-uploaded value is k times the part
      size, or the file length for the last part. */
  lemma SessionProgress(spaceName: string, req: Request, file: FileInfo, store: Store)
    requires CheckRequest(req).None? && store.initiate.Some?
    ensures var run := RunOf(spaceName, req, file, store);
      var st := Statuses(run.events);
      var est := EstimatedParts(file.length, req.maxPartSize);
      var count := PartCount(file.length, req.maxPartSize);
      && |st| == |run.parts| <= count
      && (run.failure.None? ==> |st| == count)
      && (forall k :: 0 <= k < |st| ==>
            st[k] == UploadStatus(k + 1, est, if k + 1 < count then (k + 1) * req.maxPartSize else file.length, file.length))
  {
    var segs := Segments(file.length, req.maxPartSize);
    var job := JobOf(spaceName, req, file, store);
    var run := RunOf(spaceName, req, file, store);
    var max := req.maxPartSize;
    var count := PartCount(file.length, max);
    RunPartsCount(job, store, segs, []);
    RunPartsStatuses(job, store, segs, []);
    SegmentsShape(file.length, max);
    var st := Statuses(run.events);
    forall k | 0 <= k < |st|
      ensures st[k] == UploadStatus(k + 1, job.estimatedParts, if k + 1 < count then (k + 1) * max else file.length, file.length)
    {
      assert st[k] == StatusAfter(job, segs[k]);
      assert (k + 1) * max == k * max + max;
    }
  }

  /** The announcement followed by the records of the segment loop: the
      bytes-uploaded values strictly grow, and they reach the file length
      once every part has been recorded. */
  lemma ProgressRecords(st: seq<UploadStatus>, sst: seq<UploadStatus>, est: nat, count: nat, max: nat, fileLength: nat)
    requires max >= 1 && count * max >= fileLength && (count > 0 ==> (count - 1) * max < fileLength)
    requires st == [UploadStatus(0, est, 0, fileLength)] + sst
    requires |sst| <= count
    requires forall k :: 0 <= k < |sst| ==>
      sst[k] == UploadStatus(k + 1, est, if k + 1 < count then (k + 1) * max else fileLength, fileLength)
    ensures 1 <= |st| <= count + 1
    ensures forall k :: 1 <= k < |st| ==>
      st[k] == UploadStatus(k, est, if k < count then k * max else fileLength, fileLength)
    ensures forall i, j :: 0 <= i < j < |st| ==> st[i].bytesUploaded < st[j].bytesUploaded
    ensures |sst| == count ==> st[|st| - 1].bytesUploaded == fileLength
  {
    forall k | 1 <= k < |st|
      ensures st[k] == UploadStatus(k, est, if k < count then k * max else fileLength, fileLength)
    {
      assert st[k] == sst[k - 1];
    }
    forall i, j | 0 <= i < j < |st|
      ensures st[i].bytesUploaded < st[j].bytesUploaded
    {
      if j < count {
        MulStrict(i, j, max);
      } else if 0 < i {
        MulMono(i, count - 1, max);
      }
    }
    if |sst| == count && count == 0 {
      assert fileLength == 0;
    }
  }

  /** The progress records of a session: first (0, estimate, 0, length),
      then one per accepted part k = 1, 2, ..., whose bytes-uploaded value
      is k times the part size, or the file length for the last part; so
      that value strictly grows from record to record, and it reaches the
      file length when the session completes. */
  lemma UploadProgress(spaceName: string, req: Request, file: FileInfo, store: Store)
    requires CheckRequest(req).None? && store.initiate.Some?
    ensures var r := Upload(spaceName, req, file, store);
      var st := Statuses(r.trace);
      var est := EstimatedParts(file.length, req.maxPartSize);
      var count := PartCount(file.length, req.maxPartSize);
      && 1 <= |st| <= count + 1
      && st[0] == UploadStatus(0, est, 0, file.length)
      && (forall k :: 1 <= k < |st| ==>
            st[k] == UploadStatus(k, est, if k < count then k * req.maxPartSize else file.length, file.length))
      && (forall i, j :: 0 <= i < j < |st| ==> st[i].bytesUploaded < st[j].bytesUploaded)
      && (CompleteCount(r.trace) == 1 ==> st[|st| - 1].bytesUploaded == file.length)
  {
    UploadUnfold(spaceName, req, file, store);
    var s := SessionOf(spaceName, req, store);
    var head := HeadOf(spaceName, req, file, store);
    var run := RunOf(spaceName, req, file, store);
    var r := Finish(s, store, head, run);
    var max := req.maxPartSize;
    var est := EstimatedParts(file.length, max);
    RunPartsCalls(JobOf(spaceName, req, file, store), store, Segments(file.length, max), []);
    FinishStatuses(s, store, head, run);
    FinishCompletesOrAborts(s, store, head, run);
    SessionProgress(spaceName, req, file, store);
    PartCountBounds(file.length, max);
    assert Statuses(head) == [UploadStatus(0, est, 0, file.length)];
    ProgressRecords(Statuses(r.trace), Statuses(run.events), est, PartCount(file.length, max), max, file.length);
  }

  lemma {:induction false} NoStatuses(trace: seq<Event>)
    requires forall e :: e in trace ==> !e.StatusEvent?
    ensures Statuses(trace) == []
  {
    if trace != [] {
      assert trace[0] in trace;
      assert forall e :: e in trace[1..] ==> e in trace;
      NoStatuses(trace[1..]);
    }
  }
}

/** What UploadFile and CleanUpPreviousAttempts do, as functions of their
    arguments and of the store's answers. The methods of the upload manager
    are proved to produce exactly these traces. */
module UploadSpec {
  import opened Wrappers
  import opened Events
  import opened Segmentation

  /** The argument whose check failed, named as in the source. */
  datatype Param =
    | AccessKey | SecretKey | SpaceName | ServiceUrl | KeyManagerArg
    | FilePath | UploadName | MaxPartRetry | MaxPartSize

  /** ArgumentNullException or ArgumentException, with the parameter name. */
  datatype ArgumentError = NullArgument(param: Param) | BadArgument(param: Param)

  /** An exception that escapes UploadFile or CleanUpPreviousAttempts. */
  datatype Thrown = KeysDisposed | InitiateFailed | AbortFailed(session: Session) | ListFailed

  /** How UploadFile ends: rejected arguments, the upload id returned, or an
      exception propagated to the caller. */
  datatype Outcome = Rejected(error: ArgumentError) | Returned(uploadId: UploadId) | Threw(thrown: Thrown)

  datatype UploadRun = UploadRun(outcome: Outcome, trace: seq<Event>)

  /** The answer of the store to one UploadPart request: it throws, it
      returns nothing, it returns a response carrying an ETag, or it returns
      a response whose ETag is null. */
  datatype Attempt = Throws | NoResponse | Response(eTag: ETag) | ResponseWithoutETag

  /** The object store as an oracle: the answer to Initiate (None when it
      throws), the answer to try k of part n, and whether Complete and Abort
      succeed. */
  datatype Store = Store(
    initiate: Option<UploadId>,
    part: (nat, nat) -> Attempt,
    completes: bool,
    aborts: bool)

  /** The arguments of UploadFile; strings are None where the caller passes null. */
  datatype Request = Request(filePath: Option<string>, uploadName: Option<string>, maxPartRetry: int, maxPartSize: int)

  /** What the file system reports about the file: its length and the
      content type guessed for it. */
  datatype FileInfo = FileInfo(length: nat, contentType: string)

  predicate IsNullOrEmpty(s: Option<string>) {
    s.None? || s.value == []
  }

  /** The characters the runtime classifies as white space. */
  predicate IsWhiteSpace(c: char) {
    c == ' ' || ('\t' <= c <= '\r') || c == '\U{85}' || c == '\U{A0}' || c == '\U{1680}'
    || ('\U{2000}' <= c <= '\U{200A}') || c == '\U{2028}' || c == '\U{2029}'
    || c == '\U{202F}' || c == '\U{205F}' || c == '\U{3000}'
  }

  predicate IsNullOrWhiteSpace(s: Option<string>) {
    s.None? || forall i :: 0 <= i < |s.value| ==> IsWhiteSpace(s.value[i])
  }

  /** The argument checks of UploadFile, in the order the source makes them. */
  function CheckRequest(req: Request): (e: Option<ArgumentError>)
    ensures e.None? <==>
      !IsNullOrEmpty(req.filePath) && !IsNullOrWhiteSpace(req.uploadName)
      && req.maxPartRetry >= 1 && req.maxPartSize >= 1
    ensures e == Some(NullArgument(FilePath)) <==> IsNullOrEmpty(req.filePath)
  {
    if IsNullOrEmpty(req.filePath) then Some(NullArgument(FilePath))
    else if IsNullOrWhiteSpace(req.uploadName) then Some(NullArgument(UploadName))
    else if req.maxPartRetry < 1 then Some(BadArgument(MaxPartRetry))
    else if req.maxPartSize < 1 then Some(BadArgument(MaxPartSize))
    else None
  }

  /** What the upload loop needs besides the store: the session, the path
      handed to every UploadPart request, the retry limit, the announced
      estimate and the file length. */
  datatype Job = Job(session: Session, filePath: string, maxPartRetry: nat, estimatedParts: nat, fileLength: nat)

  /** The outcome of the retry loop of one part: the requests and failure
      events it produced, the value of the try counter when it stopped, and
      the store's last answer. */
  datatype PartRun = PartRun(events: seq<Event>, tries: nat, response: Attempt)

  /** The retry loop of part p from try k on: every try sends the part; a
      try that throws reports "failed on try #k" and, while k is at most
      maxPartRetry, is followed by another; any other answer ends the loop. */
  function TriesFrom(job: Job, store: Store, p: Part, k: nat): (r: PartRun)
    requires 1 <= k <= job.maxPartRetry + 1
    ensures k <= r.tries <= job.maxPartRetry + 1
    ensures r.response == store.part(p.number, r.tries)
    decreases job.maxPartRetry + 1 - k
  {
    var call := UploadPartCall(job.session, job.filePath, p);
    var answer := store.part(p.number, k);
    if !answer.Throws? then PartRun([call], k, answer)
    else if k <= job.maxPartRetry then
      var rest := TriesFrom(job, store, p, k + 1);
      PartRun([call, PartFailed(p.number, k)] + rest.events, rest.tries, rest.response)
    else PartRun([call, PartFailed(p.number, k)], k, answer)
  }

  /** One try of the retry loop, seen from the events produced before it. */
  lemma TriesFromStep(job: Job, store: Store, p: Part, k: nat, before: seq<Event>)
    requires 1 <= k <= job.maxPartRetry + 1
    ensures var here := TriesFrom(job, store, p, k);
      var call := UploadPartCall(job.session, job.filePath, p);
      var answer := store.part(p.number, k);
      && (!answer.Throws? ==> before + here.events == before + [call] && here.response == answer)
      && (answer.Throws? && k <= job.maxPartRetry ==>
            before + here.events == before + [call] + [PartFailed(p.number, k)] + TriesFrom(job, store, p, k + 1).events
            && here.response == TriesFrom(job, store, p, k + 1).response)
      && (answer.Throws? && k > job.maxPartRetry ==>
            before + here.events == before + [call] + [PartFailed(p.number, k)] && here.response == answer)
  {
    var call := UploadPartCall(job.session, job.filePath, p);
    if store.part(p.number, k).Throws? && k <= job.maxPartRetry {
      var next := TriesFrom(job, store, p, k + 1);
      assert TriesFrom(job, store, p, k).events == [call, PartFailed(p.number, k)] + next.events;
      assert before + ([call, PartFailed(p.number, k)] + next.events) == before + [call] + [PartFailed(p.number, k)] + next.events;
    } else if store.part(p.number, k).Throws? {
      assert before + [call, PartFailed(p.number, k)] == before + [call] + [PartFailed(p.number, k)];
    }
  }

  /** The whole retry loop of part p. */
  function Tries(job: Job, store: Store, p: Part): PartRun
  {
    TriesFrom(job, store, p, 1)
  }

  function ETags(parts: seq<PartETag>): set<ETag> {
    set q | q in parts :: q.eTag
  }

  /** The outcome of the segment loop: its requests and events, the
      (part number, ETag) entries recorded, and why it stopped early, if it did. */
  datatype PartsRun = PartsRun(events: seq<Event>, parts: seq<PartETag>, failure: Option<Cause>)

  /** The segment loop over the parts segs, with the entries recorded so far:
      each part runs its retry loop; a part the store did not accept stops
      the loop ("unable to upload part n"), so does a response without an
      ETag (a null dictionary key) and an ETag already recorded; otherwise the entry is recorded and a progress event reports the bytes
      sent so far. */
  function RunParts(job: Job, store: Store, segs: seq<Part>, parts: seq<PartETag>): (r: PartsRun)
    decreases |segs|
  {
    if segs == [] then PartsRun([], parts, None)
    else
      var p := segs[0];
      var t := Tries(job, store, p);
      if t.response.Throws? || t.response.NoResponse? then PartsRun(t.events, parts, Some(UnableToUploadPart(p.number)))
      else if t.response.ResponseWithoutETag? then PartsRun(t.events, parts, Some(NullETag))
      else if t.response.eTag in ETags(parts) then PartsRun(t.events, parts, Some(DuplicateETag(t.response.eTag)))
      else
        var status := StatusEvent(UploadStatus(p.number, job.estimatedParts, p.offset + p.size, job.fileLength));
        var rest := RunParts(job, store, segs[1..], parts + [PartETag(p.number, t.response.eTag)]);
        PartsRun(t.events + [status] + rest.events, rest.parts, rest.failure)
  }

  /** The segment loop over segs resumed after the events before and the
      entries parts: what the whole loop ends with. */
  function Resume(job: Job, store: Store, segs: seq<Part>, parts: seq<PartETag>, before: seq<Event>): PartsRun
  {
    var r := RunParts(job, store, segs, parts);
    PartsRun(before + r.events, r.parts, r.failure)
  }

  /** One step of the segment loop, for the part p in front of the rest. */
  lemma RunPartsStep(job: Job, store: Store, p: Part, rest: seq<Part>, parts: seq<PartETag>, before: seq<Event>)
    ensures var t := Tries(job, store, p);
      var resumed := Resume(job, store, [p] + rest, parts, before);
      && ((t.response.Throws? || t.response.NoResponse?) ==>
            resumed == PartsRun(before + t.events, parts, Some(UnableToUploadPart(p.number))))
      && (t.response.ResponseWithoutETag? ==>
            resumed == PartsRun(before + t.events, parts, Some(NullETag)))
      && (t.response.Response? && t.response.eTag in ETags(parts) ==>
            resumed == PartsRun(before + t.events, parts, Some(DuplicateETag(t.response.eTag))))
      && (t.response.Response? && t.response.eTag !in ETags(parts) ==>
            var status := StatusEvent(UploadStatus(p.number, job.estimatedParts, p.offset + p.size, job.fileLength));
            resumed == Resume(job, store, rest, parts + [PartETag(p.number, t.response.eTag)], before + t.events + [status]))
  {
    assert ([p] + rest)[0] == p && ([p] + rest)[1..] == rest;
    var t := Tries(job, store, p);
    if t.response.Response? && t.response.eTag !in ETags(parts) {
      var next := RunParts(job, store, rest, parts + [PartETag(p.number, t.response.eTag)]);
      var status := StatusEvent(UploadStatus(p.number, job.estimatedParts, p.offset + p.size, job.fileLength));
      assert before + (t.events + [status] + next.events) == before + t.events + [status] + next.events;
    }
  }

  /** The catch block: abort the session; if that succeeds, report the abort
      and return the upload id; if it throws, the exception escapes. */
  function AbortPath(session: Session, store: Store, trace: seq<Event>, cause: Cause): (r: UploadRun)
  {
    if store.aborts then UploadRun(Returned(session.uploadId), trace + [AbortCall(session), UploadAborted(cause)])
    else UploadRun(Threw(AbortFailed(session)), trace + [AbortCall(session)])
  }

  /** UploadFile from start to end: the argument checks, the creation of
      the client, which throws when the key manager has been disposed, and
      then Upload. */
  function UploadFileRun(spaceName: string, keysDisposed: bool, req: Request, file: FileInfo, store: Store): UploadRun
  {
    if CheckRequest(req).None? && keysDisposed then UploadRun(Threw(KeysDisposed), [])
    else Upload(spaceName, req, file, store)
  }

  /** UploadFile with a key manager that is still usable: the argument
      checks, then Initiate (whose exception escapes), then the session. */
  function Upload(spaceName: string, req: Request, file: FileInfo, store: Store): (r: UploadRun)
  {
    match CheckRequest(req)
    case Some(e) => UploadRun(Rejected(e), [])
    case None =>
      match store.initiate
      case None => UploadRun(Threw(InitiateFailed), [InitiateCall(spaceName, req.uploadName.value, file.contentType)])
      case Some(id) =>
        UploadSession(Session(spaceName, req.uploadName.value, id), req.filePath.value,
                      req.maxPartRetry, req.maxPartSize, file, store)
  }

  function JobFor(session: Session, filePath: string, maxPartRetry: nat, maxPartSize: nat, file: FileInfo): Job
    requires maxPartSize >= 1
  {
    Job(session, filePath, maxPartRetry, EstimatedParts(file.length, maxPartSize), file.length)
  }

  /** The session of UploadFile once Initiate has answered: announce the
      estimate, run the segment loop, then complete or abort. */
  function UploadSession(session: Session, filePath: string, maxPartRetry: nat, maxPartSize: nat,
                         file: FileInfo, store: Store): (r: UploadRun)
    requires maxPartSize >= 1
  {
    var job := JobFor(session, filePath, maxPartRetry, maxPartSize, file);
    var head := [InitiateCall(session.bucket, session.key, file.contentType),
                 StatusEvent(UploadStatus(0, job.estimatedParts, 0, file.length))];
    Finish(session, store, head, RunParts(job, store, Segments(file.length, maxPartSize), []))
  }

  /** UploadSession in terms of its job and its first two events. */
  lemma UploadSessionUnfold(session: Session, filePath: string, maxPartRetry: nat, maxPartSize: nat,
                            file: FileInfo, store: Store, job: Job, head: seq<Event>)
    requires maxPartSize >= 1
    requires job == Job(session, filePath, maxPartRetry, if file.length / maxPartSize == 0 then 1 else file.length / maxPartSize, file.length)
    requires head == [InitiateCall(session.bucket, session.key, file.contentType),
                      StatusEvent(UploadStatus(0, job.estimatedParts, 0, file.length))]
    ensures UploadSession(session, filePath, maxPartRetry, maxPartSize, file, store)
         == Finish(session, store, head, RunParts(job, store, Segments(file.length, maxPartSize), []))
  {
  }

  /** The end of the session after the segment loop run: Complete with the
      recorded entries if the loop went through, and the abort path if the
      loop stopped early or Complete threw. */
  function Finish(session: Session, store: Store, head: seq<Event>, run: PartsRun): (r: UploadRun)
  {
    if run.failure.Some? then AbortPath(session, store, head + run.events, run.failure.value)
    else
      var done := head + run.events + [CompleteCall(session, run.parts)];
      if store.completes then UploadRun(Returned(session.uploadId), done)
      else AbortPath(session, store, done, CompleteFailed)
  }

  // ---------------------------------------------------------------------
  // Stale-upload sweep

  /** What ListMultipartUploads reports: the bucket name and the uploads in
      flight, in the order listed. */
  datatype Listing = Listing(bucketName: string, uploads: seq<StaleUpload>)

  /** How CleanUpPreviousAttempts ends: normally, or with the exception of
      the listing or of the first abort that failed. */
  datatype CleanupOutcome = CleanedUp | CleanupThrew(thrown: Thrown)

  datatype CleanupRun = CleanupRun(outcome: CleanupOutcome, trace: seq<Event>)

  function StaleSession(bucket: string, u: StaleUpload): Session {
    Session(bucket, u.key, u.uploadId)
  }

  /** The abort loop from the k-th listed upload on; abortOk(j) says whether
      the abort of the j-th listed upload succeeds. The first failure
      escapes and ends the loop. */
  function AbortFrom(bucket: string, uploads: seq<StaleUpload>, abortOk: nat -> bool, k: nat): (r: CleanupRun)
    requires k <= |uploads|
    decreases |uploads| - k
  {
    if k == |uploads| then CleanupRun(CleanedUp, [])
    else
      var session := StaleSession(bucket, uploads[k]);
      if abortOk(k) then
        var rest := AbortFrom(bucket, uploads, abortOk, k + 1);
        CleanupRun(rest.outcome, [AbortCall(session)] + rest.trace)
      else CleanupRun(CleanupThrew(AbortFailed(session)), [AbortCall(session)])
  }

  /** CleanUpPreviousAttempts from start to end: creating the client throws
      when the key manager has been disposed; listing is None when the
      listing request throws. */
  function Cleanup(keysDisposed: bool, spaceName: string, listing: Option<Listing>, abortOk: nat -> bool): CleanupRun
  {
    if keysDisposed then CleanupRun(CleanupThrew(KeysDisposed), [])
    else match listing
    case None => CleanupRun(CleanupThrew(ListFailed), [ListCall(spaceName)])
    case Some(l) =>
      var run := AbortFrom(l.bucketName, l.uploads, abortOk, 0);
      CleanupRun(run.outcome, [ListCall(spaceName)] + run.trace)
  }
}

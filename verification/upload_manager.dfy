/** The upload manager: its construction checks, the multipart upload, the
    sweep of stale uploads and the dispose guard. The store and the two
    event streams are not objects here: the store's answers come in as a
    Store oracle and every request and event is appended to a returned trace. */
module UploadManager {
  import opened Wrappers
  import opened Events
  import opened Segmentation
  import opened UploadSpec

  const DefaultServiceUrl: string := "https://nyc3.digitaloceanspaces.com"

  /** The credential holder, reduced to how often it has been disposed. */
  class KeyManager {
    var disposals: nat

    constructor ()
      ensures disposals == 0
    {
      disposals := 0;
    }

    method Dispose()
      modifies this
      ensures disposals == old(disposals) + 1
    {
      disposals := disposals + 1;
    }
  }

  /** The checks of the private constructor: space name, then service URL. */
  function CheckTarget(spaceName: Option<string>, serviceUrl: Option<string>): (e: Option<ArgumentError>)
    ensures e.None? <==> !IsNullOrEmpty(spaceName) && !IsNullOrEmpty(serviceUrl)
    ensures IsNullOrEmpty(spaceName) ==> e == Some(NullArgument(SpaceName))
    ensures !IsNullOrEmpty(spaceName) && IsNullOrEmpty(serviceUrl) ==> e == Some(NullArgument(ServiceUrl))
  {
    if IsNullOrEmpty(spaceName) then Some(NullArgument(SpaceName))
    else if IsNullOrEmpty(serviceUrl) then Some(NullArgument(ServiceUrl))
    else None
  }

  /** The checks of the constructor taking the two keys: the chained private
      constructor's checks come first, then access key, then secret key. */
  function CheckKeys(accessKey: Option<string>, secretKey: Option<string>, spaceName: Option<string>, serviceUrl: Option<string>): (e: Option<ArgumentError>)
    ensures e.None? <==>
      !IsNullOrEmpty(spaceName) && !IsNullOrEmpty(serviceUrl)
      && !IsNullOrEmpty(accessKey) && !IsNullOrEmpty(secretKey)
    ensures CheckTarget(spaceName, serviceUrl).Some? ==> e == CheckTarget(spaceName, serviceUrl)
    ensures CheckTarget(spaceName, serviceUrl).None? && IsNullOrEmpty(accessKey) ==> e == Some(NullArgument(AccessKey))
    ensures CheckTarget(spaceName, serviceUrl).None? && !IsNullOrEmpty(accessKey) && IsNullOrEmpty(secretKey) ==> e == Some(NullArgument(SecretKey))
  {
    if CheckTarget(spaceName, serviceUrl).Some? then CheckTarget(spaceName, serviceUrl)
    else if IsNullOrEmpty(accessKey) then Some(NullArgument(AccessKey))
    else if IsNullOrEmpty(secretKey) then Some(NullArgument(SecretKey))
    else None
  }

  /** The checks of the constructor taking a key manager. */
  function CheckKeyManager(keyManager: KeyManager?, spaceName: Option<string>, serviceUrl: Option<string>): (e: Option<ArgumentError>)
    ensures e.None? <==> !IsNullOrEmpty(spaceName) && !IsNullOrEmpty(serviceUrl) && keyManager != null
    ensures CheckTarget(spaceName, serviceUrl).Some? ==> e == CheckTarget(spaceName, serviceUrl)
  {
    if CheckTarget(spaceName, serviceUrl).Some? then CheckTarget(spaceName, serviceUrl)
    else if keyManager == null then Some(NullArgument(KeyManagerArg))
    else None
  }

  class DigitalOceanUploadManager {
    const keyManager: KeyManager
    const serviceUrl: string
    const spaceName: string
    var disposedValue: bool

    /** The private constructor, once its checks have passed. */
    constructor (keyManager: KeyManager, spaceName: string, serviceUrl: string)
      requires spaceName != [] && serviceUrl != []
      ensures this.keyManager == keyManager && this.spaceName == spaceName && this.serviceUrl == serviceUrl
      ensures !disposedValue
    {
      this.keyManager := keyManager;
      this.spaceName := spaceName;
      this.serviceUrl := serviceUrl;
      disposedValue := false;
    }

    /** Construction from an access key and a secret key. */
    static method FromKeys(accessKey: Option<string>, secretKey: Option<string>, spaceName: Option<string>, serviceUrl: Option<string>)
      returns (r: Result<DigitalOceanUploadManager, ArgumentError>)
      ensures r.Failure? <==> CheckKeys(accessKey, secretKey, spaceName, serviceUrl).Some?
      ensures r.Failure? ==> r.error == CheckKeys(accessKey, secretKey, spaceName, serviceUrl).value
      ensures r.Success? ==>
        && fresh(r.value) && fresh(r.value.keyManager)
        && r.value.spaceName == spaceName.value && r.value.serviceUrl == serviceUrl.value
        && r.value.keyManager.disposals == 0 && !r.value.disposedValue
    {
      var e := CheckTarget(spaceName, serviceUrl);
      if e.Some? { return Failure(e.value); }
      if IsNullOrEmpty(accessKey) { return Failure(NullArgument(AccessKey)); }
      if IsNullOrEmpty(secretKey) { return Failure(NullArgument(SecretKey)); }
      var keys := new KeyManager();
      var m := new DigitalOceanUploadManager(keys, spaceName.value, serviceUrl.value);
      return Success(m);
    }

    /** Construction from an existing key manager. */
    static method FromKeyManager(keyManager: KeyManager?, spaceName: Option<string>, serviceUrl: Option<string>)
      returns (r: Result<DigitalOceanUploadManager, ArgumentError>)
      ensures r.Failure? <==> CheckKeyManager(keyManager, spaceName, serviceUrl).Some?
      ensures r.Failure? ==> r.error == CheckKeyManager(keyManager, spaceName, serviceUrl).value
      ensures r.Success? ==>
        && fresh(r.value)
        && r.value.keyManager == keyManager
        && r.value.spaceName == spaceName.value && r.value.serviceUrl == serviceUrl.value
        && !r.value.disposedValue
    {
      var e := CheckTarget(spaceName, serviceUrl);
      if e.Some? { return Failure(e.value); }
      if keyManager == null { return Failure(NullArgument(KeyManagerArg)); }
      var m := new DigitalOceanUploadManager(keyManager, spaceName.value, serviceUrl.value);
      return Success(m);
    }

    /** Aborts every upload the store lists for the space, in list order;
        abortOk(k) says whether the abort of the k-th listed upload succeeds.
        A failed abort is not caught. */
    method CleanUpPreviousAttempts(listing: Option<Listing>, abortOk: nat -> bool)
      returns (outcome: CleanupOutcome, trace: seq<Event>)
      ensures CleanupRun(outcome, trace) == Cleanup(keyManager.disposals > 0, spaceName, listing, abortOk)
    {
      if keyManager.disposals > 0 {
        return CleanupThrew(KeysDisposed), [];
      }
      trace := [ListCall(spaceName)];
      if listing.None? {
        return CleanupThrew(ListFailed), trace;
      }
      var current := listing.value;
      ghost var whole := Cleanup(false, spaceName, listing, abortOk);
      for k := 0 to |current.uploads|
        invariant trace + AbortFrom(current.bucketName, current.uploads, abortOk, k).trace == whole.trace
        invariant AbortFrom(current.bucketName, current.uploads, abortOk, k).outcome == whole.outcome
      {
        var session := StaleSession(current.bucketName, current.uploads[k]);
        trace := trace + [AbortCall(session)];
        if !abortOk(k) {
          return CleanupThrew(AbortFailed(session)), trace;
        }
      }
      outcome := CleanedUp;
    }

    /** The retry loop of one part: sends the part until the store answers
        without throwing or maxPartRetry + 1 tries have been made, reporting
        each try that threw. */
    method UploadPartWithRetry(job: Job, store: Store, p: Part) returns (events: seq<Event>, response: Attempt)
      ensures events == Tries(job, store, p).events
      ensures response == Tries(job, store, p).response
    {
      ghost var whole := Tries(job, store, p);
      var call := UploadPartCall(job.session, job.filePath, p);
      var complete := false;
      var retry := 0;
      response := Throws;
      events := [];
      var again := true;
      while again
        invariant 0 <= retry <= job.maxPartRetry + 1
        invariant again ==> retry <= job.maxPartRetry && !complete
        invariant again ==> events + TriesFrom(job, store, p, retry + 1).events == whole.events
        invariant again ==> TriesFrom(job, store, p, retry + 1).response == whole.response
        invariant !again ==> events == whole.events && response == whole.response
        decreases if again then job.maxPartRetry + 1 - retry else 0
      {
        retry := retry + 1;
        TriesFromStep(job, store, p, retry, events);
        var answer := store.part(p.number, retry);
        events := events + [call];
        if answer.Throws? {
          events := events + [PartFailed(p.number, retry)];
          response := answer;
        } else {
          response := answer;
          complete := true;
        }
        again := !complete && retry <= job.maxPartRetry;
      }
    }

    /** The segment loop of UploadFile: walks the file from offset 0 in parts
        of maxPartSize bytes (the last one shorter), runs the retry loop of
        each, records its (part number, ETag) entry and reports progress;
        stops at the first part the store does not accept or whose ETag is
        already recorded. */
    method UploadParts(job: Job, store: Store, maxPartSize: nat) returns (events: seq<Event>, parts: seq<PartETag>, failure: Option<Cause>)
      requires maxPartSize >= 1
      ensures PartsRun(events, parts, failure) == RunParts(job, store, Segments(job.fileLength, maxPartSize), [])
    {
      ghost var whole := Resume(job, store, Segments(job.fileLength, maxPartSize), [], []);
      assert whole == RunParts(job, store, Segments(job.fileLength, maxPartSize), []) by {
        var r := RunParts(job, store, Segments(job.fileLength, maxPartSize), []);
        assert [] + r.events == r.events;
      }
      ghost var todo := Segments(job.fileLength, maxPartSize);
      events := [];
      failure := None;
      var i: nat := 0;
      var n: nat := 1;
      parts := [];
      while i < job.fileLength
        invariant todo == SegmentsFrom(job.fileLength, maxPartSize, i, n)
        invariant failure.None?
        invariant Resume(job, store, todo, parts, events) == whole
        decreases job.fileLength - i
      {
        var partSize := maxPartSize;
        var lastPart := i + partSize >= job.fileLength;
        if lastPart {
          partSize := job.fileLength - i;
        }
        var p := Part(n, i, partSize, lastPart);
        ghost var rest := SegmentsFrom(job.fileLength, maxPartSize, i + partSize, n + 1);
        SegmentsFromStep(job.fileLength, maxPartSize, i, n);
        RunPartsStep(job, store, p, rest, parts, events);
        var tried, response := UploadPartWithRetry(job, store, p);
        events := events + tried;
        if response.Throws? || response.NoResponse? {
          failure := Some(UnableToUploadPart(n));
          return;
        }
        if response.ResponseWithoutETag? {
          failure := Some(NullETag);
          return;
        }
        if response.eTag in ETags(parts) {
          failure := Some(DuplicateETag(response.eTag));
          return;
        }
        parts := parts + [PartETag(n, response.eTag)];
        i := i + partSize;
        events := events + [StatusEvent(UploadStatus(n, job.estimatedParts, i, job.fileLength))];
        n := n + 1;
        todo := rest;
      }
      SegmentsFromStep(job.fileLength, maxPartSize, i, n);
      assert events + [] == events;
    }

    /** Uploads a file in parts of maxPartSize bytes and returns the upload
        id, whether the session was completed or aborted. Creating the client
        throws once the key manager has been disposed. */
    method UploadFile(req: Request, file: FileInfo, store: Store) returns (outcome: Outcome, trace: seq<Event>)
      ensures UploadRun(outcome, trace) == UploadFileRun(spaceName, keyManager.disposals > 0, req, file, store)
    {
      if IsNullOrEmpty(req.filePath) { return Rejected(NullArgument(FilePath)), []; }
      if IsNullOrWhiteSpace(req.uploadName) { return Rejected(NullArgument(UploadName)), []; }
      if req.maxPartRetry < 1 { return Rejected(BadArgument(MaxPartRetry)), []; }
      if req.maxPartSize < 1 { return Rejected(BadArgument(MaxPartSize)), []; }
      var filePath, uploadName, maxPartSize := req.filePath.value, req.uploadName.value, req.maxPartSize;
      if keyManager.disposals > 0 {
        return Threw(KeysDisposed), [];
      }

      trace := [InitiateCall(spaceName, uploadName, file.contentType)];
      if store.initiate.None? {
        return Threw(InitiateFailed), trace;
      }
      var session := Session(spaceName, uploadName, store.initiate.value);
      assert Upload(spaceName, req, file, store)
          == UploadSession(session, filePath, req.maxPartRetry, maxPartSize, file, store);
      outcome, trace := RunSession(session, filePath, req.maxPartRetry, maxPartSize, file, store, trace);
    }

    /** UploadFile once Initiate has answered: announce the estimate, run
        the segment loop, then complete or abort. */
    method RunSession(session: Session, filePath: string, maxPartRetry: nat, maxPartSize: nat,
                      file: FileInfo, store: Store, initiated: seq<Event>)
      returns (outcome: Outcome, trace: seq<Event>)
      requires maxPartSize >= 1
      requires initiated == [InitiateCall(session.bucket, session.key, file.contentType)]
      ensures UploadRun(outcome, trace) == UploadSession(session, filePath, maxPartRetry, maxPartSize, file, store)
    {
      var estimatedParts := file.length / maxPartSize;
      if estimatedParts == 0 {
        estimatedParts := 1;
      }
      trace := initiated + [StatusEvent(UploadStatus(0, estimatedParts, 0, file.length))];

      var job := Job(session, filePath, maxPartRetry, estimatedParts, file.length);
      var events, parts, failure := UploadParts(job, store, maxPartSize);
      UploadSessionUnfold(session, filePath, maxPartRetry, maxPartSize, file, store, job, trace);
      outcome, trace := CompleteOrAbort(session, store, trace, PartsRun(events, parts, failure));
    }

    /** The end of UploadFile: Complete with the recorded entries when the
        segment loop went through; the catch block (abort, then report the
        abort) when it stopped early or Complete threw. */
    method CompleteOrAbort(session: Session, store: Store, head: seq<Event>, run: PartsRun)
      returns (outcome: Outcome, trace: seq<Event>)
      ensures UploadRun(outcome, trace) == Finish(session, store, head, run)
    {
      trace := head + run.events;
      var failure := run.failure;
      if failure.None? {
        trace := trace + [CompleteCall(session, run.parts)];
        if !store.completes {
          failure := Some(CompleteFailed);
        }
      }
      if failure.Some? {
        trace := trace + [AbortCall(session)];
        if !store.aborts {
          return Threw(AbortFailed(session)), trace;
        }
        trace := trace + [UploadAborted(failure.value)];
      }
      outcome := Returned(session.uploadId);
    }

    /** Dispose(bool): the first call disposes the key manager when disposing
        is set; every call leaves the manager marked disposed. */
    method DisposeCore(disposing: bool)
      modifies this, keyManager
      ensures disposedValue
      ensures keyManager.disposals == old(keyManager.disposals) + (if !old(disposedValue) && disposing then 1 else 0)
    {
      if !disposedValue {
        if disposing {
          keyManager.Dispose();
        }
        disposedValue := true;
      }
    }

    /** Dispose(): the key manager is disposed by the first call only. */
    method Dispose()
      modifies this, keyManager
      ensures disposedValue
      ensures keyManager.disposals == old(keyManager.disposals) + (if old(disposedValue) then 0 else 1)
    {
      DisposeCore(true);
    }
  }
}

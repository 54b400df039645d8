# DigitalOcean Spaces multipart uploader, modelled in Dafny

This project models the upload orchestrator of the DigitalOcean Spaces uploader:
the `DigitalOceanUploadManager` class. It covers the following operations:

- The construction checks. The space name and service URL are checked first, then the keys or the key manager.
- `UploadFile`. It cuts a file into parts of at most `maxPartSize` bytes and initiates a multipart upload. It sends each part with up to `maxPartRetry` retries, then either completes the upload with the recorded (part number, ETag) pairs or aborts it. It returns the upload id either way.
- `CleanUpPreviousAttempts`. It lists the pending multipart uploads of the space and aborts each one.
- The `Dispose` guard. It disposes the key manager only once.

Progress records are `UploadStatus(partNumber, estimatedParts, bytesUploaded, totalBytes)`.

The object store is not called. It is an oracle value, `UploadSpec.Store`, with these fields:

- whether Initiate answers, and with which upload id;
- for every (part number, try number), whether UploadPart throws, answers nothing, answers an ETag, or answers a response whose ETag is null;
- whether Complete succeeds;
- whether Abort succeeds.

The clean-up gets the listing, or `None` when listing throws. It also gets a function saying which aborts succeed.

Both operations first create a store client from the key manager's credentials. The model keeps one fact about that step: it throws, before any request, once the key manager has been disposed. That can happen through this manager's `Dispose` or through another holder of a shared key manager.

Each operation returns its outcome and a trace. The trace records, in order:

- every request sent to the store;
- every progress record;
- every failure report.

Each imperative method of `UploadManager.DigitalOceanUploadManager` is proved equal to a functional definition in `UploadSpec`:

- the segment loop `RunParts`;
- the retry loop `TriesFrom`;
- the whole run `UploadFileRun`, which is `Upload` once the client has been created;
- the clean-up `Cleanup`.

The lemmas in `RetryProperties`, `PartsProperties`, `UploadProperties`, `CleanupProperties` and `Scenarios` state what those definitions guarantee.

The model follows these behaviours of the code:

- **Retries.** The retry loop runs while `retry <= maxPartRetry`. A part is therefore sent up to `maxPartRetry + 1` times: a first try and up to `maxPartRetry` retries.
- **Return value after an abort.** A failed part or a failed Complete is caught. The upload is aborted and `UploadFile` still returns the upload id, so no error reaches the caller. Only three failures let an exception escape: creating the client with a disposed key manager, a throwing Initiate, and an Abort that throws inside the catch block.
- **Clean-up failures.** `CleanUpPreviousAttempts` does not catch a failed abort. The first abort that throws ends the clean-up, and its exception escapes.
- **Duplicate ETags.** The parts dictionary is keyed by ETag, and `Dictionary.Add` throws on a duplicate key. A second part answered with an ETag already recorded therefore sends the session down the abort path. It does not silently drop a part.
- **Null ETags.** A response whose ETag is null ends the retry loop, but `Dictionary.Add` refuses a null key. The session therefore goes down the abort path with the cause `NullETag`.

## Model

| member | source | states |
|---|---|---|
| UploadManager.CheckTarget | DigitalOceanUploader.Shared/DigitalOceanUploadManager.cs:54-59 | construction fails exactly when the space name or the service URL is null or empty; the space name is checked first |
| UploadManager.CheckKeys | DigitalOceanUploader.Shared/DigitalOceanUploadManager.cs:28-35 | the key constructor fails exactly when the space name, the service URL, the access key or the secret key is null or empty; the chained constructor's checks come first, then the access key, then the secret key |
| UploadManager.CheckKeyManager | DigitalOceanUploader.Shared/DigitalOceanUploadManager.cs:45-49 | the key-manager constructor fails exactly when the space name or the service URL is null or empty, or the key manager is null; the chained constructor's checks come first |
| UploadManager.DigitalOceanUploadManager.constructor | DigitalOceanUploader.Shared/DigitalOceanUploadManager.cs:54-63 | given a non-empty space name and service URL, stores them with the key manager; the manager starts undisposed |
| UploadManager.DigitalOceanUploadManager.FromKeys | DigitalOceanUploader.Shared/DigitalOceanUploadManager.cs:28-37 | fails with the first failing check and otherwise yields a fresh manager that owns a fresh, never-disposed key manager, with the given space name and URL |
| UploadManager.DigitalOceanUploadManager.FromKeyManager | DigitalOceanUploader.Shared/DigitalOceanUploadManager.cs:45-52 | fails with the first failing check and otherwise yields a fresh manager that holds the given key manager, space name and URL |
| UploadManager.DigitalOceanUploadManager.CleanUpPreviousAttempts | DigitalOceanUploader.Shared/DigitalOceanUploadManager.cs:69-79 | with the key manager's disposal state, the loop sends exactly the requests and ends exactly as `Cleanup` says |
| UploadManager.DigitalOceanUploadManager.UploadPartWithRetry | DigitalOceanUploader.Shared/DigitalOceanUploadManager.cs:129-154 | the do/while retry loop produces exactly the requests, failure reports and final answer of `Tries` |
| UploadManager.DigitalOceanUploadManager.UploadParts | DigitalOceanUploader.Shared/DigitalOceanUploadManager.cs:120-163 | the offset-driven part loop produces exactly the events, recorded entries and stop cause (no answer, null ETag, duplicate ETag) of `RunParts` over `Segments` |
| UploadManager.DigitalOceanUploadManager.CompleteOrAbort | DigitalOceanUploader.Shared/DigitalOceanUploadManager.cs:165-178 | Complete, or Abort plus the abort report, exactly as `Finish` says |
| UploadManager.DigitalOceanUploadManager.UploadFile | DigitalOceanUploader.Shared/DigitalOceanUploadManager.cs:88-182 | the whole method's outcome and trace equal `UploadFileRun` for the key manager's disposal state; the properties of `UploadFileRun` and `Upload` are the UploadProperties lemmas |
| UploadManager.DigitalOceanUploadManager.RunSession | DigitalOceanUploader.Shared/DigitalOceanUploadManager.cs:112-178 | after Initiate: the estimate announcement, the part loop and the complete-or-abort end produce exactly `UploadSession` |
| UploadManager.DigitalOceanUploadManager.DisposeCore | DigitalOceanUploader.Shared/DigitalOceanUploadManager.cs:205-219 | afterwards the manager is disposed; the key manager is disposed once more only on the first call with disposing set |
| UploadManager.DigitalOceanUploadManager.Dispose | DigitalOceanUploader.Shared/DigitalOceanUploadManager.cs:228-234 | the key manager is disposed by the first call and never again (idempotent disposal) |
| UploadManager.KeyManager.Dispose | DigitalOceanUploader.Shared/KeyManager.cs:60-62 | each disposal of the key manager is counted once |
| UploadSpec.CheckRequest | DigitalOceanUploader.Shared/DigitalOceanUploadManager.cs:90-97 | UploadFile's arguments pass exactly when the file path is non-empty, the upload name is not blank, maxPartRetry >= 1 and maxPartSize >= 1; an empty path is the error reported first |
| UploadSpec.TriesFrom | DigitalOceanUploader.Shared/DigitalOceanUploadManager.cs:132-154 | the retry loop stops on a try between the current one and maxPartRetry + 1, and its answer is the store's answer to that try |
| Segmentation.EstimatedParts | DigitalOceanUploader.Shared/DigitalOceanUploadManager.cs:112-114 | the announced estimate is never below 1 |
| Segmentation.EstimateBounds | DigitalOceanUploader.Shared/DigitalOceanUploadManager.cs:112-114 | the estimate is the number of whole parts in the file (length divided by part size, rounded down), or 1 for a file shorter than one part |
| Segmentation.PartCountBounds | DigitalOceanUploader.Shared/DigitalOceanUploadManager.cs:123-128 | the number of parts the loop produces is the least N whose N parts cover the file |
| Segmentation.Segments | DigitalOceanUploader.Shared/DigitalOceanUploadManager.cs:120-128 | the loop produces exactly PartCount parts |
| Segmentation.SegmentsShape | DigitalOceanUploader.Shared/DigitalOceanUploadManager.cs:123-162 | parts are numbered 1..N at offsets k * maxPartSize and are contiguous; all but the last are full; only the last is marked last and it ends at the file length; an empty file has no parts |
| Segmentation.EstimateWithinOne | DigitalOceanUploader.Shared/DigitalOceanUploadManager.cs:112-128 | for a non-empty file the announced estimate is the real part count or one less |
| RetryProperties.TriesFromShape | DigitalOceanUploader.Shared/DigitalOceanUploadManager.cs:132-154 | from try k on, every try before the last one threw; the loop ends after a throw only at try maxPartRetry + 1; the events alternate send and "failed on try #j" |
| RetryProperties.TriesShape | DigitalOceanUploader.Shared/DigitalOceanUploadManager.cs:129-154 | a part is sent between 1 and maxPartRetry + 1 times; every try but the last threw; the answer is that of the last try; each throwing try is reported with its try number |
| RetryProperties.ExhaustedPartIsTriedMaxPlusOneTimes | DigitalOceanUploader.Shared/DigitalOceanUploadManager.cs:132-157 | a part whose every try throws is sent exactly maxPartRetry + 1 times and ends with a throw |
| RetryProperties.PartSucceedingOnTryJ | DigitalOceanUploader.Shared/DigitalOceanUploadManager.cs:132-154 | a part that first succeeds on try j is sent exactly j times and yields that answer |
| RetryProperties.TriesEventKinds | DigitalOceanUploader.Shared/DigitalOceanUploadManager.cs:137-152 | the retry loop sends only that part and reports only that part's failures |
| PartsProperties.RunPartsCount | DigitalOceanUploader.Shared/DigitalOceanUploadManager.cs:156-162 | the loop only appends entries, at most one per part; it goes through exactly when every part got an entry |
| PartsProperties.RunPartsEntries | DigitalOceanUploader.Shared/DigitalOceanUploadManager.cs:156-161 | the k-th new entry is the k-th part's number with the ETag the store answered for it |
| PartsProperties.RunPartsDistinct | DigitalOceanUploader.Shared/DigitalOceanUploadManager.cs:156-159 | an ETag is recorded only if it is not recorded yet, so the recorded ETags stay distinct |
| PartsProperties.RunPartsFailure | DigitalOceanUploader.Shared/DigitalOceanUploadManager.cs:156-159 | an early stop happens at the first part not recorded: its retries ran out or the store answered nothing (the cause names its number), its response had a null ETag (cause `NullETag`), or its ETag was already recorded (the cause names the ETag) |
| PartsProperties.RunPartsStatuses | DigitalOceanUploader.Shared/DigitalOceanUploadManager.cs:159-161 | one progress record per recorded part, in order, giving the end offset of that part |
| PartsProperties.RunPartsCalls | DigitalOceanUploader.Shared/DigitalOceanUploadManager.cs:123-163 | the loop sends only parts up to the one it stopped at, and never Complete or Abort |
| PartsProperties.RunPartsSends | DigitalOceanUploader.Shared/DigitalOceanUploadManager.cs:123-163 | every event of the loop is a request for a part up to the one it stopped at, a failed-try report or a progress record |
| UploadProperties.UploadChecksArgumentsFirst | DigitalOceanUploader.Shared/DigitalOceanUploadManager.cs:90-110 | invalid arguments are rejected with the first failing check and no request; valid ones make Initiate the first request |
| UploadProperties.UploadFileKeys | DigitalOceanUploader.Shared/DigitalOceanUploadManager.cs:90-105 | invalid arguments are rejected before the client is created; with valid arguments a disposed key manager makes client creation throw before any request; a usable one gives `Upload` |
| UploadProperties.UploadInitiateFailure | DigitalOceanUploader.Shared/DigitalOceanUploadManager.cs:103-110 | a throwing Initiate escapes and nothing else is sent |
| UploadProperties.UploadAnnouncesEstimate | DigitalOceanUploader.Shared/DigitalOceanUploadManager.cs:112-116 | right after Initiate, progress (0, estimate, 0, file length) is reported, before any part is sent |
| UploadProperties.FinishCompletesOrAborts | DigitalOceanUploader.Shared/DigitalOceanUploadManager.cs:165-181 | at most one Complete and one Abort; no Abort exactly when Complete was sent and succeeded; the Abort is followed by the report and the id, or by the escaping exception |
| UploadProperties.FinishCompleteCall | DigitalOceanUploader.Shared/DigitalOceanUploadManager.cs:165-172 | any Complete carries exactly the recorded entries and is sent only when the loop went through |
| UploadProperties.FinishStatuses | DigitalOceanUploader.Shared/DigitalOceanUploadManager.cs:165-178 | completing or aborting reports no progress: the progress records of a session are those of the announcement and of the loop |
| UploadProperties.UploadCompletesOrAborts | DigitalOceanUploader.Shared/DigitalOceanUploadManager.cs:118-181 | a session either completes (one accepted Complete, no Abort, id returned) or aborts its own session exactly once (report and id, or escaping exception) |
| UploadProperties.SessionRecordsEveryPart | DigitalOceanUploader.Shared/DigitalOceanUploadManager.cs:120-163 | a loop that goes through recorded entries for parts 1..N with the store's ETags and no ETag twice |
| UploadProperties.UploadCompleteCarriesEveryPart | DigitalOceanUploader.Shared/DigitalOceanUploadManager.cs:159-172 | Complete is sent for the session Initiate opened, only with entries for every part 1..N in order, each with its ETag, none twice |
| UploadProperties.SessionStopsAtFailedPart | DigitalOceanUploader.Shared/DigitalOceanUploadManager.cs:156-159 | an early stop names the failed part, a null ETag or the duplicated ETag, and no later part was sent |
| UploadProperties.UploadStopsAtFailedPart | DigitalOceanUploader.Shared/DigitalOceanUploadManager.cs:156-178 | after a failed part, no later part and no Complete are sent, one Abort is sent, and the abort report names the cause |
| UploadProperties.UploadReturnsUploadId | DigitalOceanUploader.Shared/DigitalOceanUploadManager.cs:174-181 | with valid arguments and a usable key manager, the id from Initiate is returned unless Initiate throws or the Abort in the catch block throws |
| UploadProperties.SessionProgress | DigitalOceanUploader.Shared/DigitalOceanUploadManager.cs:159-161 | the k-th part's progress record is (k, estimate, k * maxPartSize or the file length for the last part, file length); there are N records when the loop goes through |
| UploadProperties.UploadProgress | DigitalOceanUploader.Shared/DigitalOceanUploadManager.cs:116-161 | the progress records of a run start at (0, estimate, 0, length); bytes uploaded strictly grow; after a Complete the last record shows the full length |
| CleanupProperties.AbortFromShape | DigitalOceanUploader.Shared/DigitalOceanUploadManager.cs:74-77 | the abort loop aborts the listed uploads in order up to and including the first failing one; it ends normally exactly when none failed |
| CleanupProperties.CleanupShape | DigitalOceanUploader.Shared/DigitalOceanUploadManager.cs:69-79 | a disposed key manager throws before any request; otherwise listing comes first and a failed listing escapes; then the i-th abort is for the i-th listed upload; clean-up succeeds iff every abort succeeds; otherwise the first failed abort's exception escapes |
| Scenarios.FifteenMegabytes | DigitalOceanUploader.Shared/DigitalOceanUploadManager.cs:112-161 | 15,000,000 bytes in 6,000,000-byte parts: parts of 6,000,000, 6,000,000 and 3,000,000 bytes, only the third last, estimate 2, last progress record part 3 of 2 at 15,000,000 bytes |
| Scenarios.ThreeMegabytes | DigitalOceanUploader.Shared/DigitalOceanUploadManager.cs:112-128 | 3,000,000 bytes in 6,000,000-byte parts: one part marked last, estimate 1 |
| Scenarios.NullETagAborts | DigitalOceanUploader.Shared/DigitalOceanUploadManager.cs:156-178 | a one-part session whose part is answered with a null ETag sends the part once, aborts with the cause `NullETag`, and returns the upload id |

## Left out

- Store requests, the file system and MIME detection are left out. The store is the `Store` oracle and each operation returns its requests as a trace. The file's length and guessed content type are inputs (`FileInfo`), so a missing file is not modelled.
- Asynchrony is left out. Each `await` becomes a sequential step, because the source awaits every call before the next.
- `UploadStatusEvent` and `UploadExceptionEvent` become trace entries. Subscribers are not modelled, and so neither is a handler that throws. The formatted messages become structured events: `PartFailed(part, try)` and `UploadAborted(cause)`.
- Client creation (`CreateNewClient`) is reduced to its one failure: it throws once the key manager has been disposed. The client's configuration and the credential strings it reads are not modelled. Neither is a client that cannot be created for any other reason. `KeyManager` is reduced to a count of its disposals, and its secure-string handling is not part of this model.
- `UploadFile` keeps the ETag-keyed dictionary as an insertion-ordered sequence. It does so because `Dictionary` enumeration follows insertion order when nothing is removed.
- Segmentation.EstimatedParts does not model the `(int)` cast overflow. Nor does `UploadFile` model the 32-bit wrap of the part counter. Both need a file of more than 2^31 parts or more than 2^31 times the part size.
- UploadSpec.TriesFrom does not model the 32-bit wrap of the try counter. With `maxPartRetry` equal to `int.MaxValue`, `retry <= maxPartRetry` always holds in the source. After try 2147483647, `retry++` wraps to a negative number. A part whose tries keep throwing is then sent without end, and the failure reports carry negative try numbers. The model instead stops after `maxPartRetry + 1` tries for every value. So for that one value, `TriesShape` and `ExhaustedPartIsTriedMaxPlusOneTimes` state a bound that the source does not keep.
- UploadManager.DigitalOceanUploadManager.UploadParts does not model the 64-bit overflow of `i + partSize` in the last-part test. That overflow needs a file of more than 2^62 bytes.
- UploadManager.DigitalOceanUploadManager.constructor cannot fail. The constructors' argument checks are the `Check*` functions, and the `FromKeys`/`FromKeyManager` factories return the failing check as a `Result`.
- Default parameter values are not modelled. Every argument is passed explicitly, and `UploadManager.DefaultServiceUrl` records the default endpoint.
- The finalizer is not modelled, because the source leaves it commented out.

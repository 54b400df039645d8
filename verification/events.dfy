/** The values the upload manager exchanges with the object store and with
    its two event streams (progress and failure). A run of an operation is
    modelled as the trace of these values, in the order they are produced. */
module Events {

  type UploadId = string
  type ETag = string

  /** Identifies one multipart session at the store: bucket (space), object key
      and the upload id handed out by Initiate. */
  datatype Session = Session(bucket: string, key: string, uploadId: UploadId)

  /** A part of the file as the upload loop describes it to the store. */
  datatype Part = Part(number: nat, offset: nat, size: nat, isLast: bool)

  /** One (part number, ETag) entry recorded after a part was accepted. */
  datatype PartETag = PartETag(partNumber: nat, eTag: ETag)

  /** The progress record: part number, estimated parts, bytes uploaded so far
      and the total number of bytes. */
  datatype UploadStatus = UploadStatus(partNumber: nat, estimatedParts: nat, bytesUploaded: nat, totalBytes: nat)

  /** Why the upload loop or Complete went down the abort path. */
  datatype Cause =
    | UnableToUploadPart(partNumber: nat)  // the retries of a part ran out, or the store answered nothing
    | DuplicateETag(eTag: ETag)            // the parts dictionary already held this ETag
    | NullETag                             // the store's response had no ETag, and the dictionary refused a null key
    | CompleteFailed                       // the Complete request threw

  /** One stale upload as the listing reports it. */
  datatype StaleUpload = StaleUpload(key: string, uploadId: UploadId)

  datatype Event =
    // requests to the store
    | InitiateCall(bucket: string, key: string, contentType: string)
    | UploadPartCall(session: Session, filePath: string, part: Part)
    | CompleteCall(session: Session, parts: seq<PartETag>)
    | AbortCall(session: Session)
    | ListCall(bucket: string)
    // the progress stream
    | StatusEvent(status: UploadStatus)
    // the failure stream
    | PartFailed(partNumber: nat, tryNumber: nat)  // "Failed to upload part n on try #k"
    | UploadAborted(cause: Cause)                 // "... it was aborted"

  /** The progress records of a trace, in order. */
  function Statuses(trace: seq<Event>): (r: seq<UploadStatus>)
    ensures |r| <= |trace|
  {
    if trace == [] then []
    else (if trace[0].StatusEvent? then [trace[0].status] else []) + Statuses(trace[1..])
  }

  lemma {:induction false} StatusesAppend(a: seq<Event>, b: seq<Event>)
    ensures Statuses(a + b) == Statuses(a) + Statuses(b)
  {
    if a == [] {
      assert a + b == b;
    } else {
      var h := if a[0].StatusEvent? then [a[0].status] else [];
      assert (a + b)[0] == a[0];
      assert (a + b)[1..] == a[1..] + b;
      StatusesAppend(a[1..], b);
      calc {
        Statuses(a + b);
        h + Statuses(a[1..] + b);
        h + (Statuses(a[1..]) + Statuses(b));
        (h + Statuses(a[1..])) + Statuses(b);
      }
    }
  }

  /** Number of abort requests in a trace. */
  function AbortCount(trace: seq<Event>): (c: nat)
    ensures c <= |trace|
    ensures c == 0 <==> forall i :: 0 <= i < |trace| ==> !trace[i].AbortCall?
  {
    if trace == [] then 0
    else (if trace[0].AbortCall? then 1 else 0) + AbortCount(trace[1..])
  }

  /** Number of complete requests in a trace. */
  function CompleteCount(trace: seq<Event>): (c: nat)
    ensures c <= |trace|
    ensures c == 0 <==> forall i :: 0 <= i < |trace| ==> !trace[i].CompleteCall?
  {
    if trace == [] then 0
    else (if trace[0].CompleteCall? then 1 else 0) + CompleteCount(trace[1..])
  }

  lemma {:induction false} CountsAppend(a: seq<Event>, b: seq<Event>)
    ensures AbortCount(a + b) == AbortCount(a) + AbortCount(b)
    ensures CompleteCount(a + b) == CompleteCount(a) + CompleteCount(b)
  {
    if a == [] {
      assert a + b == b;
    } else {
      assert (a + b)[1..] == a[1..] + b;
      CountsAppend(a[1..], b);
    }
  }
}

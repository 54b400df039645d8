/** The two worked sizes of the uploader: a 15,000,000-byte file cut into
    6,000,000-byte parts, and a 3,000,000-byte file that fits in one part;
    and a session whose only part is answered without an ETag. */
module Scenarios {
  import opened Events
  import opened Segmentation
  import opened UploadSpec
  import opened PartsProperties

  /** 15,000,000 bytes in parts of 6,000,000: three parts of 6,000,000,
      6,000,000 and 3,000,000 bytes, only the third marked last, while the
      announced estimate is 2; the progress record of the last part reads
      part 3 of 2 with all 15,000,000 bytes sent. */
  lemma FifteenMegabytes(job: Job)
    requires job.estimatedParts == EstimatedParts(15000000, 6000000) && job.fileLength == 15000000
    ensures EstimatedParts(15000000, 6000000) == 2
    ensures Segments(15000000, 6000000) ==
      [Part(1, 0, 6000000, false), Part(2, 6000000, 6000000, false), Part(3, 12000000, 3000000, true)]
    ensures StatusAfter(job, Segments(15000000, 6000000)[2]) == UploadStatus(3, 2, 15000000, 15000000)
  {
    assert SegmentsFrom(15000000, 6000000, 12000000, 3) == [Part(3, 12000000, 3000000, true)];
    assert SegmentsFrom(15000000, 6000000, 6000000, 2) ==
      [Part(2, 6000000, 6000000, false), Part(3, 12000000, 3000000, true)];
  }

  /** 3,000,000 bytes in parts of 6,000,000: one part holding the whole
      file, marked last, with an estimate of 1. */
  lemma ThreeMegabytes()
    ensures EstimatedParts(3000000, 6000000) == 1
    ensures Segments(3000000, 6000000) == [Part(1, 0, 3000000, true)]
  {
  }

  /** A 3,000,000-byte file whose only part the store answers with a null
      ETag on the first try: the part is sent once, the null dictionary key
      sends the session down the abort path, the abort report names the
      null ETag, and the upload id is still returned. */
  lemma NullETagAborts(session: Session, filePath: string, maxPartRetry: nat, store: Store)
    requires store.part(1, 1) == ResponseWithoutETag && store.aborts
    ensures UploadSession(session, filePath, maxPartRetry, 6000000, FileInfo(3000000, "text/plain"), store)
      == UploadRun(Returned(session.uploadId),
           [InitiateCall(session.bucket, session.key, "text/plain"),
            StatusEvent(UploadStatus(0, 1, 0, 3000000)),
            UploadPartCall(session, filePath, Part(1, 0, 3000000, true)),
            AbortCall(session),
            UploadAborted(NullETag)])
  {
    ThreeMegabytes();
  }
}

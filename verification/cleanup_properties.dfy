/** What CleanUpPreviousAttempts does: one listing request, then an abort
    request per pending upload in listing order, stopping at the first
    abort that fails. */
module CleanupProperties {
  import opened Wrappers
  import opened Events
  import opened UploadSpec

  /** The abort requests for uploads[from..to], in order. */
  function AbortCalls(bucket: string, uploads: seq<StaleUpload>, from: nat, to: nat): (calls: seq<Event>)
    requires from <= to <= |uploads|
    ensures |calls| == to - from
    ensures forall i :: 0 <= i < |calls| ==> calls[i] == AbortCall(StaleSession(bucket, uploads[from + i]))
  {
    seq(to - from, i requires 0 <= i < to - from => AbortCall(StaleSession(bucket, uploads[from + i])))
  }

  /** j is the first upload at or after k whose abort fails (|uploads| when
      none fails). */
  predicate FirstFailure(uploads: seq<StaleUpload>, abortOk: nat -> bool, k: nat, j: nat)
  {
    k <= j <= |uploads|
    && (forall i :: k <= i < j ==> abortOk(i))
    && (j < |uploads| ==> !abortOk(j))
  }

  /** The abort loop from position k sends the abort requests up to and
      including the first failing one, and ends normally exactly when none
      failed. */
  lemma {:induction false} AbortFromShape(bucket: string, uploads: seq<StaleUpload>, abortOk: nat -> bool, k: nat, j: nat)
    requires FirstFailure(uploads, abortOk, k, j)
    ensures var r := AbortFrom(bucket, uploads, abortOk, k);
      && r.trace == AbortCalls(bucket, uploads, k, if j < |uploads| then j + 1 else j)
      && r.outcome == (if j < |uploads| then CleanupThrew(AbortFailed(StaleSession(bucket, uploads[j]))) else CleanedUp)
    decreases |uploads| - k
  {
    var r := AbortFrom(bucket, uploads, abortOk, k);
    var to := if j < |uploads| then j + 1 else j;
    if k == |uploads| {
      assert r.trace == [];
    } else if k == j {
      assert r.trace == [AbortCall(StaleSession(bucket, uploads[k]))];
      assert r.trace == AbortCalls(bucket, uploads, k, to);
    } else {
      var rest := AbortFrom(bucket, uploads, abortOk, k + 1);
      AbortFromShape(bucket, uploads, abortOk, k + 1, j);
      assert r.trace == [AbortCall(StaleSession(bucket, uploads[k]))] + rest.trace;
      assert r.trace == AbortCalls(bucket, uploads, k, to);
    }
  }

  /** Every position has a first failure after it. */
  lemma {:induction false} FirstFailureExists(uploads: seq<StaleUpload>, abortOk: nat -> bool, k: nat) returns (j: nat)
    requires k <= |uploads|
    ensures FirstFailure(uploads, abortOk, k, j)
    decreases |uploads| - k
  {
    if k == |uploads| || !abortOk(k) {
      j := k;
    } else {
      j := FirstFailureExists(uploads, abortOk, k + 1);
    }
  }

  /** A clean-up with a disposed key manager throws before any request.
      Otherwise it starts with the listing request; if listing throws, that
      is all. Otherwise the pending uploads are aborted in listing order up
      to and including the first abort that throws, whose exception
      propagates; the clean-up ends normally exactly when every abort
      succeeds, and it never sends an upload, completion or initiation
      request. */
  lemma CleanupShape(keysDisposed: bool, spaceName: string, listing: Option<Listing>, abortOk: nat -> bool)
    ensures var r := Cleanup(keysDisposed, spaceName, listing, abortOk);
      && (keysDisposed ==> r == CleanupRun(CleanupThrew(KeysDisposed), []))
      && (!keysDisposed ==>
            && 1 <= |r.trace|
            && r.trace[0] == ListCall(spaceName)
            && (listing.None? ==> r == CleanupRun(CleanupThrew(ListFailed), [ListCall(spaceName)]))
            && (listing.Some? ==>
                  var l := listing.value;
                  && |r.trace| <= |l.uploads| + 1
                  && (forall i :: 1 <= i < |r.trace| ==> r.trace[i] == AbortCall(StaleSession(l.bucketName, l.uploads[i - 1])))
                  && (r.outcome == CleanedUp <==> forall i :: 0 <= i < |l.uploads| ==> abortOk(i))
                  && (r.outcome == CleanedUp ==> |r.trace| == |l.uploads| + 1)
                  && (r.outcome.CleanupThrew? ==>
                        !abortOk(|r.trace| - 2)
                        && r.outcome.thrown == AbortFailed(StaleSession(l.bucketName, l.uploads[|r.trace| - 2])))))
  {
    if !keysDisposed && listing.Some? {
      var l := listing.value;
      var j := FirstFailureExists(l.uploads, abortOk, 0);
      AbortFromShape(l.bucketName, l.uploads, abortOk, 0, j);
      var r := Cleanup(keysDisposed, spaceName, listing, abortOk);
      var run := AbortFrom(l.bucketName, l.uploads, abortOk, 0);
      assert r.trace == [ListCall(spaceName)] + run.trace;
      forall i | 1 <= i < |r.trace|
        ensures r.trace[i] == AbortCall(StaleSession(l.bucketName, l.uploads[i - 1]))
      {
        assert r.trace[i] == run.trace[i - 1];
      }
      if j == |l.uploads| {
        assert forall i :: 0 <= i < |l.uploads| ==> abortOk(i);
      } else {
        assert !abortOk(j);
      }
    }
  }
}

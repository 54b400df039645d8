/** Properties of the per-part retry loop of UploadFile. */
module RetryProperties {
  import opened Events
  import opened UploadSpec

  /** The requests and failure reports of tries first..last of part p, in
      closed form: try j sends the part and, unless it is the last try and
      that one did not throw, reports "failed on try #j". */
  function AttemptLog(job: Job, p: Part, first: nat, last: nat, lastFailed: bool): (log: seq<Event>)
    requires 1 <= first <= last
    ensures |log| == 2 * (last - first + 1) - (if lastFailed then 0 else 1)
  {
    seq(2 * (last - first + 1) - (if lastFailed then 0 else 1),
        i requires 0 <= i => if i % 2 == 0 then UploadPartCall(job.session, job.filePath, p) else PartFailed(p.number, first + i / 2))
  }

  lemma {:induction false} TriesFromShape(job: Job, store: Store, p: Part, k: nat)
    requires 1 <= k <= job.maxPartRetry + 1
    ensures var r := TriesFrom(job, store, p, k);
      && (forall j :: k <= j < r.tries ==> store.part(p.number, j).Throws?)
      && (r.response.Throws? ==> r.tries == job.maxPartRetry + 1)
      && r.events == AttemptLog(job, p, k, r.tries, r.response.Throws?)
    decreases job.maxPartRetry + 1 - k
  {
    var r := TriesFrom(job, store, p, k);
    var call := UploadPartCall(job.session, job.filePath, p);
    if store.part(p.number, k).Throws? && k <= job.maxPartRetry {
      TriesFromShape(job, store, p, k + 1);
      var rest := TriesFrom(job, store, p, k + 1);
      var log := AttemptLog(job, p, k, r.tries, r.response.Throws?);
      var restLog := AttemptLog(job, p, k + 1, r.tries, r.response.Throws?);
      assert r.events == [call, PartFailed(p.number, k)] + restLog;
      forall i | 2 <= i < |log|
        ensures log[i] == restLog[i - 2]
      {
        assert (i - 2) % 2 == i % 2 && k + 1 + (i - 2) / 2 == k + i / 2;
      }
      assert r.events == log;
    }
  }

  /** The retry loop of a part makes between 1 and maxPartRetry + 1 tries;
      every try before the last one threw; the loop ends early exactly when
      a try did not throw, and the store's answer to that try is the loop's
      result; each try sends the part once, and each try that threw is
      followed by exactly one "failed on try #j" report, j counting from 1. */
  lemma TriesShape(job: Job, store: Store, p: Part)
    ensures var r := Tries(job, store, p);
      && 1 <= r.tries <= job.maxPartRetry + 1
      && (forall j :: 1 <= j < r.tries ==> store.part(p.number, j).Throws?)
      && r.response == store.part(p.number, r.tries)
      && (r.tries <= job.maxPartRetry ==> !r.response.Throws?)
      && r.events == AttemptLog(job, p, 1, r.tries, r.response.Throws?)
  {
    TriesFromShape(job, store, p, 1);
  }

  /** A part whose every try throws is sent exactly maxPartRetry + 1 times. */
  lemma ExhaustedPartIsTriedMaxPlusOneTimes(job: Job, store: Store, p: Part)
    requires forall j :: 1 <= j <= job.maxPartRetry + 1 ==> store.part(p.number, j).Throws?
    ensures var r := Tries(job, store, p);
      r.tries == job.maxPartRetry + 1 && r.response.Throws?
      && |r.events| == 2 * (job.maxPartRetry + 1)
  {
    TriesShape(job, store, p);
  }

  /** A part that succeeds on try j (j at most maxPartRetry + 1) after j - 1
      failures is sent exactly j times and yields that try's response. */
  lemma PartSucceedingOnTryJ(job: Job, store: Store, p: Part, j: nat, eTag: ETag)
    requires 1 <= j <= job.maxPartRetry + 1
    requires forall i :: 1 <= i < j ==> store.part(p.number, i).Throws?
    requires store.part(p.number, j) == Response(eTag)
    ensures var r := Tries(job, store, p);
      r.tries == j && r.response == Response(eTag) && |r.events| == 2 * j - 1
  {
    TriesShape(job, store, p);
  }

  /** The retry loop only sends part p and reports failures of part p. */
  lemma TriesEventKinds(job: Job, store: Store, p: Part)
    ensures forall e :: e in Tries(job, store, p).events ==>
      e == UploadPartCall(job.session, job.filePath, p) || (e.PartFailed? && e.partNumber == p.number)
  {
    TriesShape(job, store, p);
  }
}

/** Properties of the segment loop of UploadFile: what it records, why it
    stops, and what it reports. */
module PartsProperties {
  import opened Events
  import opened UploadSpec
  import opened RetryProperties

  /** No two recorded entries share an ETag (the parts dictionary is keyed
      by ETag). */
  predicate DistinctETags(ps: seq<PartETag>) {
    forall i, j :: 0 <= i < j < |ps| ==> ps[i].eTag != ps[j].eTag
  }

  /** The segment loop records at most one entry per part, keeps the
      entries it started with in front, and stops early exactly when it
      records fewer entries than there are parts. */
  lemma {:induction false} RunPartsCount(job: Job, store: Store, segs: seq<Part>, parts: seq<PartETag>)
    ensures var r := RunParts(job, store, segs, parts);
      && |parts| <= |r.parts| <= |parts| + |segs|
      && r.parts[..|parts|] == parts
      && (r.failure.None? <==> |r.parts| == |parts| + |segs|)
    decreases |segs|
  {
    if segs != [] {
      var t := Tries(job, store, segs[0]);
      if t.response.Response? && t.response.eTag !in ETags(parts) {
        var more := parts + [PartETag(segs[0].number, t.response.eTag)];
        RunPartsCount(job, store, segs[1..], more);
        var rest := RunParts(job, store, segs[1..], more);
        assert rest.parts[..|parts|] == rest.parts[..|more|][..|parts|];
      }
    }
  }

  /** The segment loop records one entry per part it gets through, in part
      order, carrying the part's number and the ETag of the store's answer
      to it. */
  lemma {:induction false} RunPartsEntries(job: Job, store: Store, segs: seq<Part>, parts: seq<PartETag>)
    ensures var r := RunParts(job, store, segs, parts);
      var d := |r.parts| - |parts|;
      && 0 <= d <= |segs|
      && (forall k :: 0 <= k < d ==>
            Tries(job, store, segs[k]).response.Response?
            && r.parts[|parts| + k] == PartETag(segs[k].number, Tries(job, store, segs[k]).response.eTag))
    decreases |segs|
  {
    RunPartsCount(job, store, segs, parts);
    if segs != [] {
      var p := segs[0];
      var t := Tries(job, store, p);
      if t.response.Response? && t.response.eTag !in ETags(parts) {
        var entry := PartETag(p.number, t.response.eTag);
        var more := parts + [entry];
        RunPartsCount(job, store, segs[1..], more);
        RunPartsEntries(job, store, segs[1..], more);
        var r := RunParts(job, store, segs, parts);
        var rest := RunParts(job, store, segs[1..], more);
        assert r.parts == rest.parts;
        assert r.parts[|parts|] == more[|parts|] by {
          assert r.parts[..|more|] == more;
        }
        ShiftedEntries(job, store, segs, |parts|, |more|, r.parts);
      }
    }
  }

  /** The segment loop only records an ETag it has not recorded yet, so
      the recorded ETags stay distinct. */
  lemma {:induction false} RunPartsDistinct(job: Job, store: Store, segs: seq<Part>, parts: seq<PartETag>)
    requires DistinctETags(parts)
    ensures DistinctETags(RunParts(job, store, segs, parts).parts)
    decreases |segs|
  {
    if segs != [] {
      var t := Tries(job, store, segs[0]);
      if t.response.Response? && t.response.eTag !in ETags(parts) {
        var more := parts + [PartETag(segs[0].number, t.response.eTag)];
        assert DistinctETags(more);
        RunPartsDistinct(job, store, segs[1..], more);
      }
    }
  }

  /** The entries recorded from the second part on, shifted by one. */
  lemma ShiftedEntries(job: Job, store: Store, segs: seq<Part>, start: nat, next: nat, rparts: seq<PartETag>)
    requires next == start + 1 && next <= |rparts| <= start + |segs|
    requires Tries(job, store, segs[0]).response.Response?
    requires rparts[start] == PartETag(segs[0].number, Tries(job, store, segs[0]).response.eTag)
    requires forall k :: 0 <= k < |rparts| - next ==>
      Tries(job, store, segs[1..][k]).response.Response?
      && rparts[next + k] == PartETag(segs[1..][k].number, Tries(job, store, segs[1..][k]).response.eTag)
    ensures forall k :: 0 <= k < |rparts| - start ==>
      Tries(job, store, segs[k]).response.Response?
      && rparts[start + k] == PartETag(segs[k].number, Tries(job, store, segs[k]).response.eTag)
  {
    forall k | 1 <= k < |rparts| - start
      ensures Tries(job, store, segs[k]).response.Response?
        && rparts[start + k] == PartETag(segs[k].number, Tries(job, store, segs[k]).response.eTag)
    {
      assert segs[k] == segs[1..][k - 1];
      assert start + k == next + (k - 1);
    }
  }

  /** When the segment loop stops early, it stopped at the first part it
      did not record: either that part's retry loop ended without a
      response, or the response carried no ETag, or the part's ETag was
      already recorded. */
  lemma {:induction false} RunPartsFailure(job: Job, store: Store, segs: seq<Part>, parts: seq<PartETag>)
    ensures var r := RunParts(job, store, segs, parts);
      var d := |r.parts| - |parts|;
      r.failure.Some? ==>
        && 0 <= d < |segs|
        && (var t := Tries(job, store, segs[d]);
            if t.response.Response? then t.response.eTag in ETags(r.parts) && r.failure.value == DuplicateETag(t.response.eTag)
            else if t.response.ResponseWithoutETag? then r.failure.value == NullETag
            else r.failure.value == UnableToUploadPart(segs[d].number))
    decreases |segs|
  {
    RunPartsCount(job, store, segs, parts);
    if segs != [] {
      var p := segs[0];
      var t := Tries(job, store, p);
      if t.response.Response? && t.response.eTag !in ETags(parts) {
        var more := parts + [PartETag(p.number, t.response.eTag)];
        RunPartsCount(job, store, segs[1..], more);
        RunPartsFailure(job, store, segs[1..], more);
        var r := RunParts(job, store, segs, parts);
        var rest := RunParts(job, store, segs[1..], more);
        assert r.parts == rest.parts && r.failure == rest.failure;
        var d := |r.parts| - |parts|;
        if r.failure.Some? {
          assert segs[d] == segs[1..][d - 1];
        }
      }
    }
  }

  /** Statuses, stores and counts of a trace made only of part requests and
      failure reports. */
  lemma {:induction false} PartPhaseOnly(trace: seq<Event>)
    requires forall e :: e in trace ==> e.UploadPartCall? || e.PartFailed?
    ensures Statuses(trace) == [] && AbortCount(trace) == 0 && CompleteCount(trace) == 0
  {
    if trace != [] {
      assert trace[0] in trace;
      assert forall e :: e in trace[1..] ==> e in trace;
      PartPhaseOnly(trace[1..]);
    }
  }

  /** The progress record reported after a part: its number, the estimate,
      the offset at which the part ends, and the file length. */
  function StatusAfter(job: Job, p: Part): UploadStatus {
    UploadStatus(p.number, job.estimatedParts, p.offset + p.size, job.fileLength)
  }

  /** The segment loop reports exactly one progress record per part it
      records, in order, and no other. */
  lemma {:induction false} RunPartsStatuses(job: Job, store: Store, segs: seq<Part>, parts: seq<PartETag>)
    ensures var r := RunParts(job, store, segs, parts);
      var d := |r.parts| - |parts|;
      var st := Statuses(r.events);
      && 0 <= d <= |segs|
      && |st| == d
      && forall k :: 0 <= k < d ==> st[k] == StatusAfter(job, segs[k])
    decreases |segs|
  {
    RunPartsCount(job, store, segs, parts);
    if segs != [] {
      var p := segs[0];
      var t := Tries(job, store, p);
      TriesEventKinds(job, store, p);
      PartPhaseOnly(t.events);
      if t.response.Response? && t.response.eTag !in ETags(parts) {
        var more := parts + [PartETag(p.number, t.response.eTag)];
        RunPartsCount(job, store, segs[1..], more);
        RunPartsStatuses(job, store, segs[1..], more);
        var r := RunParts(job, store, segs, parts);
        var rest := RunParts(job, store, segs[1..], more);
        var status := StatusAfter(job, p);
        assert r.events == t.events + [StatusEvent(status)] + rest.events;
        StatusesStep(t.events, status, rest.events);
        ShiftedRecords(job, segs, Statuses(rest.events), |r.parts| - |parts|);
      }
    }
  }

  /** The record of the first part in front of the records of the others. */
  lemma ShiftedRecords(job: Job, segs: seq<Part>, rest: seq<UploadStatus>, d: nat)
    requires 1 <= d <= |segs|
    requires |rest| == d - 1
    requires forall k :: 0 <= k < d - 1 ==> rest[k] == StatusAfter(job, segs[1..][k])
    ensures var st := [StatusAfter(job, segs[0])] + rest;
      |st| == d && forall k :: 0 <= k < d ==> st[k] == StatusAfter(job, segs[k])
  {
    var st := [StatusAfter(job, segs[0])] + rest;
    forall k | 1 <= k < d
      ensures st[k] == StatusAfter(job, segs[k])
    {
      assert st[k] == rest[k - 1];
      assert segs[k] == segs[1..][k - 1];
    }
  }

  /** The progress records of a part's tries, its own record and the rest. */
  lemma StatusesStep(first: seq<Event>, status: UploadStatus, rest: seq<Event>)
    requires Statuses(first) == []
    ensures Statuses(first + [StatusEvent(status)] + rest) == [status] + Statuses(rest)
  {
    StatusesAppend(first + [StatusEvent(status)], rest);
    StatusesAppend(first, [StatusEvent(status)]);
    assert Statuses([StatusEvent(status)]) == [status];
  }

  /** The segment loop sends only the parts it got through and the one it
      stopped at, and it neither completes nor aborts. */
  lemma RunPartsCalls(job: Job, store: Store, segs: seq<Part>, parts: seq<PartETag>)
    ensures var r := RunParts(job, store, segs, parts);
      var tried := |r.parts| - |parts| + (if r.failure.Some? then 1 else 0);
      && 0 <= tried <= |segs|
      && (forall e :: e in r.events && e.UploadPartCall? ==> e.part in segs[..tried])
      && AbortCount(r.events) == 0 && CompleteCount(r.events) == 0
  {
    RunPartsSends(job, store, segs, parts);
    var r := RunParts(job, store, segs, parts);
    forall i | 0 <= i < |r.events|
      ensures !r.events[i].AbortCall? && !r.events[i].CompleteCall?
    {
      assert r.events[i] in r.events;
    }
  }

  /** Every event of the segment loop is a part request for a part it got
      through or stopped at, a failure report of a try, or a progress record. */
  lemma {:induction false} RunPartsSends(job: Job, store: Store, segs: seq<Part>, parts: seq<PartETag>)
    ensures var r := RunParts(job, store, segs, parts);
      var tried := |r.parts| - |parts| + (if r.failure.Some? then 1 else 0);
      && 0 <= tried <= |segs|
      && forall e :: e in r.events ==>
           (e.UploadPartCall? && e.part in segs[..tried]) || e.PartFailed? || e.StatusEvent?
    decreases |segs|
  {
    RunPartsCount(job, store, segs, parts);
    if segs != [] {
      var p := segs[0];
      var t := Tries(job, store, p);
      TriesEventKinds(job, store, p);
      var r := RunParts(job, store, segs, parts);
      var tried := |r.parts| - |parts| + (if r.failure.Some? then 1 else 0);
      assert p in segs[..tried];
      if t.response.Response? && t.response.eTag !in ETags(parts) {
        var more := parts + [PartETag(p.number, t.response.eTag)];
        RunPartsCount(job, store, segs[1..], more);
        RunPartsSends(job, store, segs[1..], more);
        var rest := RunParts(job, store, segs[1..], more);
        var status := StatusEvent(StatusAfter(job, p));
        assert r.events == t.events + [status] + rest.events;
        SendsStep(segs, tried, t.events, status, rest.events);
      } else {
        assert r.events == t.events;
      }
    }
  }

  /** One step of RunPartsSends, apart from the loop itself. */
  lemma SendsStep(segs: seq<Part>, tried: nat, first: seq<Event>, status: Event, rest: seq<Event>)
    requires 1 <= tried <= |segs|
    requires forall e :: e in first ==> (e.UploadPartCall? && e.part == segs[0]) || e.PartFailed?
    requires status.StatusEvent?
    requires forall e :: e in rest ==> (e.UploadPartCall? && e.part in segs[1..][..tried - 1]) || e.PartFailed? || e.StatusEvent?
    ensures forall e :: e in first + [status] + rest ==>
      (e.UploadPartCall? && e.part in segs[..tried]) || e.PartFailed? || e.StatusEvent?
  {
    assert segs[0] == segs[..tried][0];
    forall e | e in rest && e.UploadPartCall?
      ensures e.part in segs[..tried]
    {
      var j :| 0 <= j < tried - 1 && segs[1..][..tried - 1][j] == e.part;
      assert segs[..tried][j + 1] == e.part;
    }
  }
}

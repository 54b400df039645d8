/** How UploadFile cuts a file into parts, and how it estimates their number. */
module Segmentation {
  import opened Events

  /** The part count announced before the upload: the file length divided by
      the part size (integer division), raised to 1 when that quotient is 0. */
  function EstimatedParts(fileLength: nat, maxPartSize: nat): (est: nat)
    requires maxPartSize >= 1
    ensures est >= 1
  {
    var quotient := fileLength / maxPartSize;
    if quotient == 0 then 1 else quotient
  }

  /** The estimate is the number of whole parts in the file, or 1 for a
      file shorter than one part. */
  lemma EstimateBounds(fileLength: nat, maxPartSize: nat)
    requires maxPartSize >= 1
    ensures var est := EstimatedParts(fileLength, maxPartSize);
      && (fileLength >= maxPartSize ==> est * maxPartSize <= fileLength < (est + 1) * maxPartSize)
      && (fileLength < maxPartSize ==> est == 1)
  {
    var q := fileLength / maxPartSize;
    assert q * maxPartSize + fileLength % maxPartSize == fileLength;
    if fileLength >= maxPartSize {
      assert (q + 1) * maxPartSize == q * maxPartSize + maxPartSize;
    } else {
      assert q == 0;
    }
  }

  /** The number of parts the loop actually produces: the file length divided
      by the part size, rounded up. */
  function PartCount(fileLength: nat, maxPartSize: nat): nat
    requires maxPartSize >= 1
  {
    (fileLength + maxPartSize - 1) / maxPartSize
  }

  /** N parts cover the file, and N - 1 would not. */
  lemma PartCountBounds(fileLength: nat, maxPartSize: nat)
    requires maxPartSize >= 1
    ensures var n := PartCount(fileLength, maxPartSize);
      && n * maxPartSize >= fileLength
      && (n > 0 ==> (n - 1) * maxPartSize < fileLength)
  {
    var a := fileLength + maxPartSize - 1;
    var n := a / maxPartSize;
    assert n * maxPartSize + a % maxPartSize == a;
    if n > 0 {
      assert (n - 1) * maxPartSize == n * maxPartSize - maxPartSize;
    }
  }

  /** The parts the loop walks through from offset i with part number n: each
      is maxPartSize long unless it reaches the end of the file, in which case
      it is the last one and takes what remains. */
  function SegmentsFrom(fileLength: nat, maxPartSize: nat, i: nat, n: nat): (segs: seq<Part>)
    requires maxPartSize >= 1
    decreases fileLength - i
  {
    if i >= fileLength then []
    else
      var lastPart := i + maxPartSize >= fileLength;
      var partSize := if lastPart then fileLength - i else maxPartSize;
      [Part(n, i, partSize, lastPart)] + SegmentsFrom(fileLength, maxPartSize, i + partSize, n + 1)
  }

  /** The first part from offset i on, in front of the parts after it. */
  lemma SegmentsFromStep(fileLength: nat, maxPartSize: nat, i: nat, n: nat)
    requires maxPartSize >= 1
    ensures i >= fileLength ==> SegmentsFrom(fileLength, maxPartSize, i, n) == []
    ensures i < fileLength ==>
      var lastPart := i + maxPartSize >= fileLength;
      var partSize := if lastPart then fileLength - i else maxPartSize;
      SegmentsFrom(fileLength, maxPartSize, i, n)
        == [Part(n, i, partSize, lastPart)] + SegmentsFrom(fileLength, maxPartSize, i + partSize, n + 1)
  {
  }

  /** All parts of a file, starting at offset 0 with part number 1. */
  function Segments(fileLength: nat, maxPartSize: nat): (segs: seq<Part>)
    requires maxPartSize >= 1
    ensures |segs| == PartCount(fileLength, maxPartSize)
  {
    SegmentsFromAt(fileLength, maxPartSize, 0);
    SegmentsFrom(fileLength, maxPartSize, 0, 1)
  }

  /** The k-th part (0-based) in closed form. */
  function PartAt(fileLength: nat, maxPartSize: nat, k: nat): Part
    requires maxPartSize >= 1
    requires k < PartCount(fileLength, maxPartSize)
  {
    MulMono(k, PartCount(fileLength, maxPartSize) - 1, maxPartSize);
    var lastPart := (k + 1) * maxPartSize >= fileLength;
    Part(k + 1, k * maxPartSize, if lastPart then fileLength - k * maxPartSize else maxPartSize, lastPart)
  }

  lemma MulMono(a: nat, b: nat, m: nat)
    requires a <= b
    ensures a * m <= b * m
  {}

  lemma {:induction false} SegmentsFromAt(fileLength: nat, maxPartSize: nat, k: nat)
    requires maxPartSize >= 1
    requires k * maxPartSize <= fileLength
    ensures var segs := SegmentsFrom(fileLength, maxPartSize, k * maxPartSize, k + 1);
      var count := PartCount(fileLength, maxPartSize);
      k <= count
      && |segs| == count - k
      && forall j :: 0 <= j < |segs| ==> segs[j] == PartAt(fileLength, maxPartSize, k + j)
    decreases fileLength - k * maxPartSize
  {
    var count := PartCount(fileLength, maxPartSize);
    PartCountBounds(fileLength, maxPartSize);
    var i := k * maxPartSize;
    if i >= fileLength {
      if k > count { MulMono(count + 1, k, maxPartSize); }
      if k < count { MulMono(k, count - 1, maxPartSize); }
    } else {
      assert (k + 1) * maxPartSize == i + maxPartSize;
      if k >= count { MulMono(count, k, maxPartSize); }
      var segs := SegmentsFrom(fileLength, maxPartSize, i, k + 1);
      if i + maxPartSize >= fileLength {
        MulMono(k, count - 1, maxPartSize);
        assert (count - 1) * maxPartSize < fileLength <= (k + 1) * maxPartSize;
        if count > k + 1 { MulMono(k + 1, count - 1, maxPartSize); }
        assert count == k + 1;
        assert SegmentsFrom(fileLength, maxPartSize, fileLength, k + 2) == [];
      } else {
        SegmentsFromAt(fileLength, maxPartSize, k + 1);
        var rest := SegmentsFrom(fileLength, maxPartSize, (k + 1) * maxPartSize, k + 2);
        assert segs == [PartAt(fileLength, maxPartSize, k)] + rest;
      }
    }
  }

  /** The parts of a file are numbered 1..N with N the length divided by the
      part size rounded up, the k-th starts at k times the part size, every
      part but the last is exactly maxPartSize long, the last one is
      non-empty, at most maxPartSize long and ends at the end of the file,
      and only the last one is marked as last. */
  lemma SegmentsShape(fileLength: nat, maxPartSize: nat)
    requires maxPartSize >= 1
    ensures var segs := Segments(fileLength, maxPartSize);
      && |segs| == PartCount(fileLength, maxPartSize)
      && (forall k :: 0 <= k < |segs| ==> segs[k].number == k + 1 && segs[k].offset == k * maxPartSize)
      && (forall k :: 0 <= k < |segs| ==> (segs[k].isLast <==> k == |segs| - 1))
      && (forall k :: 0 <= k < |segs| - 1 ==> segs[k].size == maxPartSize)
      && (forall k :: 0 <= k < |segs| - 1 ==> segs[k].offset + segs[k].size == segs[k + 1].offset)
      && (|segs| > 0 ==> 0 < segs[|segs| - 1].size <= maxPartSize)
      && (|segs| > 0 ==> segs[|segs| - 1].offset + segs[|segs| - 1].size == fileLength)
      && (fileLength == 0 <==> segs == [])
  {
    var segs := Segments(fileLength, maxPartSize);
    var count := PartCount(fileLength, maxPartSize);
    PartCountBounds(fileLength, maxPartSize);
    SegmentsFromAt(fileLength, maxPartSize, 0);
    forall k | 0 <= k < count
      ensures segs[k].isLast <==> k == count - 1
    {
      if k < count - 1 { MulMono(k + 1, count - 1, maxPartSize); }
    }
    forall k | 0 <= k && k + 1 < count
      ensures segs[k].offset + segs[k].size == segs[k + 1].offset
    {
      MulMono(k + 1, count - 1, maxPartSize);
    }
  }

  /** The estimate is off by at most one: for a non-empty file the real part
      count is the estimate or one more. */
  lemma EstimateWithinOne(fileLength: nat, maxPartSize: nat)
    requires maxPartSize >= 1
    requires fileLength > 0
    ensures var est := EstimatedParts(fileLength, maxPartSize);
      est <= PartCount(fileLength, maxPartSize) <= est + 1
  {
    var est := EstimatedParts(fileLength, maxPartSize);
    var count := PartCount(fileLength, maxPartSize);
    EstimateBounds(fileLength, maxPartSize);
    PartCountBounds(fileLength, maxPartSize);
    if count < est { MulMono(count, est - 1, maxPartSize); }
    if count > est + 1 { MulMono(est + 1, count - 1, maxPartSize); }
  }
}

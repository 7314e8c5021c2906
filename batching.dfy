/** Lines 2066-2099: the available demand dates of one site and product, cut
    into batches small enough for one request. */
module Batching {
  import opened Wrappers
  import opened Registry

  /** `[d for d in dateList if d in tmpDateList]`. */
  function AvailableDates(dateList: seq<Date>, tmpDateList: seq<Date>): (r: seq<Date>)
    ensures forall d :: d in r <==> d in dateList && d in tmpDateList
    ensures |r| <= |dateList|
    ensures (forall j, k :: 0 <= j < k < |dateList| ==> dateList[j] < dateList[k]) ==>
      forall j, k :: 0 <= j < k < |r| ==> r[j] < r[k]
    ensures |dateList| > 0 && (forall j, k :: 0 <= j < k < |dateList| ==> dateList[j] < dateList[k]) ==>
      forall k :: 0 <= k < |r| ==> dateList[0] <= r[k]
  {
    if dateList == [] then []
    else
      var rest := AvailableDates(dateList[1..], tmpDateList);
      assert forall d :: d in dateList <==> d == dateList[0] || d in dateList[1..];
      if dateList[0] in tmpDateList then [dateList[0]] + rest else rest
  }

  /** `math.ceil` on a real. */
  function Ceil(x: real): (c: int)
    ensures c as real - 1.0 < x <= c as real
  {
    -((-x).Floor)
  }

  datatype BatchError = ZeroDivision

  /** `group_len`: the request size that keeps about `maxPixels` pixels per
      request, bounded by the number of images the algorithm handles at once. */
  function GroupLen(maxPixels: int, nPixelsInAoi: real, nSimImgs: int): (r: Result<int, BatchError>)
    ensures nPixelsInAoi == 0.0 ==> r.Err?
    ensures r.Ok? ==> r.value <= nSimImgs && r.value != 0
    // below the budget rounded up, and at it unless the algorithm's bound is reached
    ensures nPixelsInAoi != 0.0 && r.Ok? ==> (r.value - 1) as real < maxPixels as real / nPixelsInAoi
    ensures nPixelsInAoi != 0.0 && r.Ok? ==> r.value == nSimImgs || maxPixels as real / nPixelsInAoi <= r.value as real
    ensures r.Ok? && nPixelsInAoi > 0.0 && r.value < nSimImgs ==>
      (r.value - 1) as real < maxPixels as real / nPixelsInAoi <= r.value as real
    // the only failures: no pixels, or a minimum of zero
    ensures nPixelsInAoi != 0.0 ==>
      (r.Err? <==> var x := maxPixels as real / nPixelsInAoi;
                   (-1.0 < x <= 0.0 && nSimImgs >= 0) || (nSimImgs == 0 && -1.0 < x))
  {
    if nPixelsInAoi == 0.0 then Err(ZeroDivision)
    else
      var maxNImgs := Ceil(maxPixels as real / nPixelsInAoi);
      var groupLen := if maxNImgs < nSimImgs then maxNImgs else nSimImgs;
      if groupLen == 0 then Err(ZeroDivision) else Ok(groupLen)
  }

  /** `nGroups = math.ceil(nAvailableDates / group_len)`, floored at zero by `range`. */
  function GroupCount(n: nat, groupLen: int): (g: nat)
    requires groupLen != 0
    ensures groupLen > 0 ==> (g - 1) * groupLen < n <= g * groupLen
    ensures groupLen < 0 ==> g == 0
  {
    var c := Ceil(n as real / groupLen as real);
    if groupLen > 0 then CeilBounds(n, groupLen, c); c else if c < 0 then 0 else c
  }

  lemma {:induction false} CeilBounds(n: nat, gl: int, c: int)
    requires gl > 0 && c as real - 1.0 < n as real / gl as real <= c as real
    ensures (c - 1) * gl < n <= c * gl && c >= 0
  {
    var x := n as real / gl as real;
    assert x * gl as real == n as real;
    RealMulLess(c as real - 1.0, x, gl as real);
    RealMulLessEq(x, c as real, gl as real);
    assert ((c - 1) * gl) as real == (c as real - 1.0) * gl as real;
    assert (c * gl) as real == c as real * gl as real;
  }

  lemma {:induction false} RealMulLess(a: real, b: real, m: real)
    requires a < b && m > 0.0
    ensures a * m < b * m
  {
  }

  lemma {:induction false} RealMulLessEq(a: real, b: real, m: real)
    requires a <= b && m > 0.0
    ensures a * m <= b * m
  {
  }

  function Min(a: int, b: int): int { if a < b then a else b }

  /** `dateSublist` of group g: positions g*group_len up to the next group or the end. */
  function Batches(dates: seq<Date>, groupLen: int): (bs: seq<seq<Date>>)
    requires groupLen > 0
    ensures |bs| == GroupCount(|dates|, groupLen)
  {
    var n := |dates|;
    seq(GroupCount(n, groupLen), g requires 0 <= g < GroupCount(n, groupLen) =>
      assert g * groupLen <= (GroupCount(n, groupLen) - 1) * groupLen < n by { MulMonotone(g, GroupCount(n, groupLen) - 1, groupLen); }
      dates[g * groupLen..Min(g * groupLen + groupLen, n)])
  }

  lemma {:induction false} MulMonotone(a: int, b: int, m: int)
    requires a <= b && m > 0
    ensures a * m <= b * m
  {
  }

  function Concat(bs: seq<seq<Date>>): (r: seq<Date>)
  {
    if bs == [] then [] else Concat(bs[..|bs| - 1]) + bs[|bs| - 1]
  }

  /** Every batch holds between one and `group_len` dates, and every batch but
      the last holds exactly `group_len`. */
  lemma {:induction false} BatchSizes(dates: seq<Date>, groupLen: int, g: nat)
    requires groupLen > 0 && g < |Batches(dates, groupLen)|
    ensures 1 <= |Batches(dates, groupLen)[g]| <= groupLen
    ensures g + 1 < |Batches(dates, groupLen)| ==> |Batches(dates, groupLen)[g]| == groupLen
  {
    var c := GroupCount(|dates|, groupLen);
    MulMonotone(g, c - 1, groupLen);
    if g + 1 < c {
      MulMonotone(g + 1, c - 1, groupLen);
      assert (g + 1) * groupLen == g * groupLen + groupLen;
    }
  }

  /** The batches, in order, are the available dates exactly: each date is
      requested once and the order is kept. */
  lemma {:induction false} BatchesCover(dates: seq<Date>, groupLen: int)
    requires groupLen > 0
    ensures Concat(Batches(dates, groupLen)) == dates
  {
    var bs := Batches(dates, groupLen);
    var c := |bs|;
    BatchesPrefix(dates, groupLen, c);
    assert bs[..c] == bs;
    assert c * groupLen >= |dates|;
  }

  lemma {:induction false} BatchesPrefix(dates: seq<Date>, groupLen: int, k: nat)
    requires groupLen > 0 && k <= |Batches(dates, groupLen)|
    ensures Concat(Batches(dates, groupLen)[..k]) == dates[..Min(k * groupLen, |dates|)]
  {
    if k > 0 {
      var bs := Batches(dates, groupLen);
      var lo := (k - 1) * groupLen;
      var hi := Min(lo + groupLen, |dates|);
      BatchesPrefix(dates, groupLen, k - 1);
      BatchAt(dates, groupLen, k - 1);
      ConcatLast(bs, k);
      MulSucc(k - 1, groupLen);
      assert dates[..lo] + dates[lo..hi] == dates[..hi];
    }
  }

  /** Batch g starts at `g*group_len`, inside the dates. */
  lemma {:induction false} BatchAt(dates: seq<Date>, groupLen: int, g: nat)
    requires groupLen > 0 && g < |Batches(dates, groupLen)|
    ensures g * groupLen < |dates|
    ensures Batches(dates, groupLen)[g] == dates[g * groupLen..Min(g * groupLen + groupLen, |dates|)]
  {
    MulMonotone(g, |Batches(dates, groupLen)| - 1, groupLen);
  }

  lemma {:induction false} ConcatLast(bs: seq<seq<Date>>, k: nat)
    requires 0 < k <= |bs|
    ensures Concat(bs[..k]) == Concat(bs[..k - 1]) + bs[k - 1]
  {
    assert bs[..k][..k - 1] == bs[..k - 1];
  }

  lemma {:induction false} MulSucc(a: int, m: int)
    ensures (a + 1) * m == a * m + m
  {
  }
}

/**
 * The request-code allocator behind `GenerateSequentialRequestCode`, as
 * functions of the request codes already stored.
 */
module RequestCodes {
  import opened Wrappers
  import opened Text

  /** Codes from 1 to this bound are handed out smallest first. */
  const TierOneTop: int := 1000

  /** Length of the probe run after a taken `max + 1`. */
  const ProbeLength: int := 100

  /** Every stored code is a 32-bit `int`, as the column's type demands. */
  predicate AllInt32(codes: seq<int>) {
    forall i :: 0 <= i < |codes| ==> IsInt32(codes[i])
  }

  /** The least code in `n..1000` that is not taken, if there is one. */
  function LeastFreeFrom(codes: seq<int>, n: int): (r: Option<int>)
    requires 1 <= n <= TierOneTop + 1
    ensures r.Some? ==> n <= r.value <= TierOneTop && r.value !in codes
    ensures r.Some? ==> forall k :: n <= k < r.value ==> k in codes
    ensures r.None? ==> forall k :: n <= k <= TierOneTop ==> k in codes
    decreases TierOneTop + 1 - n
  {
    if n > TierOneTop then None
    else if n !in codes then Some(n)
    else LeastFreeFrom(codes, n + 1)
  }

  /** The first tier: the least code in 1..1000 not taken. */
  function TierOne(codes: seq<int>): Option<int> {
    LeastFreeFrom(codes, 1)
  }

  /** `ISNULL(MAX(RequestCode), 0)` over the positive codes. */
  function MaxPositive(codes: seq<int>): (m: int)
    ensures m >= 0
    ensures forall i :: 0 <= i < |codes| && codes[i] > 0 ==> codes[i] <= m
    ensures m == 0 || m in codes
    decreases |codes|
  {
    if codes == [] then 0
    else
      var rest := MaxPositive(codes[..|codes| - 1]);
      var last := codes[|codes| - 1];
      assert codes == codes[..|codes| - 1] + [last];
      if last > rest then last else rest
  }

  /** The first code in `lo..hi` that is not taken, if any. */
  function FirstFreeIn(codes: seq<int>, lo: int, hi: int): (r: Option<int>)
    ensures r.Some? ==> lo <= r.value <= hi && r.value !in codes
    ensures r.Some? ==> forall k :: lo <= k < r.value ==> k in codes
    ensures r.None? ==> forall k :: lo <= k <= hi ==> k in codes
    decreases hi - lo
  {
    if lo > hi then None
    else if lo !in codes then Some(lo)
    else FirstFreeIn(codes, lo + 1, hi)
  }

  /** `maxCode + 1` in unchecked 32-bit arithmetic. */
  function TierTwoCandidate(codes: seq<int>): int {
    Wrap32(MaxPositive(codes) + 1)
  }

  /**
   * The code the allocator returns: the first tier if it finds one; otherwise
   * `max + 1`, or, when that is taken, the first free code among the next hundred.
   */
  function NextRequestCode(codes: seq<int>): (r: int)
    ensures IsInt32(r)
  {
    match TierOne(codes)
    case Some(c) => c
    case None =>
      var next := TierTwoCandidate(codes);
      if next !in codes then next
      else match FirstFreeIn(codes, Wrap32(next + 1), Wrap32(next + ProbeLength))
        case Some(c) => c
        case None => next
  }

  /** The first tier returns the least positive code not in use, when one exists up to 1000. */
  lemma TierOneLeast(codes: seq<int>, k: int)
    requires 1 <= k <= TierOneTop && k !in codes
    ensures 1 <= NextRequestCode(codes) <= k
    ensures NextRequestCode(codes) !in codes
    ensures forall j :: 1 <= j < NextRequestCode(codes) ==> j in codes
  {
  }

  /** The second tier is reached only when every code 1..1000 is in use, and then `max + 1` is above 1000. */
  lemma TierTwoAboveTierOne(codes: seq<int>)
    requires TierOne(codes).None?
    ensures forall k :: 1 <= k <= TierOneTop ==> k in codes
    ensures MaxPositive(codes) >= TierOneTop
  {
    assert TierOneTop in codes;
    var i :| 0 <= i < |codes| && codes[i] == TierOneTop;
  }

  /** Below the 32-bit limit, `max + 1` is never in use, so the probe does not run. */
  lemma TierTwoFresh(codes: seq<int>)
    requires TierOne(codes).None?
    requires MaxPositive(codes) < Int32Max
    ensures NextRequestCode(codes) == MaxPositive(codes) + 1
    ensures NextRequestCode(codes) > TierOneTop
    ensures NextRequestCode(codes) !in codes
  {
    TierTwoAboveTierOne(codes);
    var m := MaxPositive(codes);
    assert forall i :: 0 <= i < |codes| ==> codes[i] != m + 1;
  }

  /**
   * When a stored code is `Int32.MaxValue`, `max + 1` wraps to `Int32.MinValue`:
   * the allocator then hands out that negative code, or probes the hundred codes after it.
   */
  lemma TierTwoWraps(codes: seq<int>)
    requires TierOne(codes).None?
    requires MaxPositive(codes) == Int32Max
    ensures TierTwoCandidate(codes) == Int32Min
    ensures Int32Min !in codes ==> NextRequestCode(codes) == Int32Min
    ensures Int32Min in codes ==>
      NextRequestCode(codes) == Int32Min
      || (Int32Min < NextRequestCode(codes) <= Int32Min + ProbeLength && NextRequestCode(codes) !in codes)
  {
  }

  /** The allocator returns a code in use only when all of 1..1000, `Int32.MinValue` and the hundred codes after it are. */
  lemma NextRequestCodeFresh(codes: seq<int>)
    requires AllInt32(codes)
    requires NextRequestCode(codes) in codes
    ensures TierOne(codes).None? && MaxPositive(codes) == Int32Max
    ensures forall k :: Int32Min <= k <= Int32Min + ProbeLength ==> k in codes
  {
    if TierOne(codes).None? {
      if MaxPositive(codes) < Int32Max {
        TierTwoFresh(codes);
      } else {
        var next := TierTwoCandidate(codes);
        assert MaxPositive(codes) in codes;
        assert next == Int32Min;
        assert Wrap32(next + 1) == Int32Min + 1;
        assert Wrap32(next + ProbeLength) == Int32Min + ProbeLength;
      }
    }
  }

  /** `max + 1` is already in use only when it wrapped: the maximum is `Int32.MaxValue`. */
  lemma TierTwoTaken(codes: seq<int>)
    requires AllInt32(codes)
    requires TierTwoCandidate(codes) in codes
    ensures MaxPositive(codes) == Int32Max
    ensures TierTwoCandidate(codes) == Int32Min
  {
    var m := MaxPositive(codes);
    if m > 0 {
      var i :| 0 <= i < |codes| && codes[i] == m;
      assert IsInt32(codes[i]);
    }
    var j :| 0 <= j < |codes| && codes[j] == TierTwoCandidate(codes);
    assert IsInt32(codes[j]);
  }

  /**
   * The code the `catch` block returns: `ISNULL(MAX(RequestID), 0) + 1000` in
   * unchecked 32-bit arithmetic (request ids are identity values, so all are
   * positive). The recursive CTE of the first query counts to 1000, past SQL
   * Server's default `MAXRECURSION` of 100, so that query throws and this is
   * the path the allocator takes as written.
   */
  function FallbackCode(requestIds: seq<int>): (r: int)
    ensures IsInt32(r)
    ensures MaxPositive(requestIds) <= Int32Max - TierOneTop ==>
      r >= TierOneTop && forall i :: 0 <= i < |requestIds| ==> requestIds[i] < r
  {
    Wrap32(MaxPositive(requestIds) + TierOneTop)
  }

  /**
   * As written, the allocator never hands out a free code below 1000: whenever
   * one is free, the fallback code differs from the least free code the first
   * tier is meant to return.
   */
  lemma FallbackMissesLeastFree(requestIds: seq<int>, codes: seq<int>, k: int)
    requires 1 <= k < TierOneTop && k !in codes
    requires MaxPositive(requestIds) <= Int32Max - TierOneTop
    ensures FallbackCode(requestIds) != NextRequestCode(codes)
    ensures NextRequestCode(codes) <= k < FallbackCode(requestIds)
  {
    TierOneLeast(codes, k);
  }

  /** On an empty table the fallback gives 1000 where the first tier gives 1. */
  lemma FallbackOnEmptyTable()
    ensures FallbackCode([]) == 1000
    ensures NextRequestCode([]) == 1
  {
  }
}

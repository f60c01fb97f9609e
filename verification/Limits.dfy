/** How much of the queue a limit in bytes, time or buffers covers. Index 0 is the newest buffer. */
module Limits {
  import opened Basics
  import opened Buffers

  datatype Format = Undefined | Buffers | Time | Bytes

  /** A limit that is not set. */
  const UNSET: int := -1

  /** Valid timestamps never increase from new to old. */
  ghost predicate TimeSorted(q: seq<Buffer>) {
    forall i, j :: 0 <= i <= j < |q| && q[i].ts != NO_TIME && q[j].ts != NO_TIME ==> q[i].ts >= q[j].ts
  }

  // ---- The lag of a client against units-max and units-soft-max ----

  /** Some buffer among the `n` newest is more than `max` older than the newest timestamp. */
  predicate SpanExceeds(q: seq<Buffer>, n: nat, max: int)
    requires n <= |q|
  {
    n > 0 && (SpanExceeds(q, n - 1, max)
              || (q[n - 1].ts != NO_TIME && SignedElapsed(FirstTs(q, n), q[n - 1].ts) > max))
  }

  /** The `n` newest buffers are more than a client may lag. */
  predicate Exceeds(format: Format, q: seq<Buffer>, n: nat, max: int)
    requires n <= |q|
  {
    match format
    case Time => SpanExceeds(q, n, max)
    case Bytes => ByteSum(q, n) > max
    case _ => n >= max
  }

  /** Number of buffers at which the limit is exceeded, from `i` buffers on; one past the whole queue if never. */
  function FirstExcess(format: Format, q: seq<Buffer>, i: nat, max: int): (r: nat)
    requires i <= |q|
    ensures i < r <= |q| + 1
    ensures forall n :: i < n < r && n <= |q| ==> !Exceeds(format, q, n, max)
    ensures r <= |q| ==> Exceeds(format, q, r, max)
    decreases |q| - i
  {
    if i == |q| then |q| + 1
    else if Exceeds(format, q, i + 1, max) then i + 1
    else FirstExcess(format, q, i + 1, max)
  }

  /** The cursor position from which a client counts as lagging by `max` units. */
  function BuffersMax(format: Format, q: seq<Buffer>, max: int): int {
    if format == Time || format == Bytes then FirstExcess(format, q, 0, max) else max
  }

  method GetBuffersMax(format: Format, q: seq<Buffer>, max: int) returns (r: int)
    ensures r == BuffersMax(format, q, max)
  {
    match format
    case Buffers =>
      return max;
    case Time =>
      var first: int := NO_TIME;
      for i := 0 to |q|
        invariant first == FirstTs(q, i)
        invariant FirstExcess(Time, q, 0, max) == FirstExcess(Time, q, i, max)
        invariant !SpanExceeds(q, i, max)
      {
        if q[i].ts != NO_TIME {
          if first == NO_TIME {
            first := q[i].ts;
          }
          var diff := SignedElapsed(first, q[i].ts);
          if diff > max {
            return i + 1;
          }
        }
      }
      return |q| + 1;
    case Bytes =>
      var acc := 0;
      for i := 0 to |q|
        invariant acc == ByteSum(q, i)
        invariant FirstExcess(Bytes, q, 0, max) == FirstExcess(Bytes, q, i, max)
      {
        acc := acc + q[i].Size();
        if acc > max {
          return i + 1;
        }
      }
      return |q| + 1;
    case Undefined =>
      return max;
  }

  lemma {:induction false} ExceedsGrows(format: Format, q: seq<Buffer>, m: nat, n: nat, max: int)
    requires m <= n <= |q| && Exceeds(format, q, m, max)
    ensures Exceeds(format, q, n, max)
    decreases n
  {
    if m < n {
      ByteSumGrows(q, m, n);
      ExceedsGrows(format, q, m, n - 1, max);
    }
  }

  /** Comparing the cursor with the computed index is the same as measuring the data in front of it. */
  lemma LagTestIsExact(format: Format, q: seq<Buffer>, max: int, pos: nat)
    requires pos <= |q| && 0 < max
    ensures pos >= BuffersMax(format, q, max) <==> Exceeds(format, q, pos, max)
    ensures BuffersMax(format, q, max) > 0
  {
    if format == Time || format == Bytes {
      var r := FirstExcess(format, q, 0, max);
      if r <= pos {
        ExceedsGrows(format, q, r, pos, max);
      } else if pos == 0 {
        assert !Exceeds(format, q, 0, max);
      }
    }
  }

  lemma {:induction false} ExceedsWeakens(format: Format, q: seq<Buffer>, n: nat, max: int, larger: int)
    requires n <= |q| && max <= larger && Exceeds(format, q, n, larger)
    ensures Exceeds(format, q, n, max)
    decreases n
  {
    if format == Time && SpanExceeds(q, n - 1, larger) {
      ExceedsWeakens(format, q, n - 1, max, larger);
    }
  }

  /** A larger limit is never reached earlier. */
  lemma BuffersMaxMonotone(format: Format, q: seq<Buffer>, max: int, larger: int)
    requires max <= larger
    ensures BuffersMax(format, q, max) <= BuffersMax(format, q, larger)
  {
    if format == Time || format == Bytes {
      var r := FirstExcess(format, q, 0, larger);
      if r <= |q| {
        ExceedsWeakens(format, q, r, max, larger);
      }
    }
  }

  /** On sorted timestamps below 2^63 the time test compares real differences. */
  lemma {:induction false} SpanExceedsMeansOlder(q: seq<Buffer>, n: nat, max: int)
    requires n <= |q| && TimeSorted(q)
    requires forall b :: b in q ==> b.ts < TWO_64 / 2
    ensures SpanExceeds(q, n, max)
            <==> exists k :: 0 <= k < n && q[k].ts != NO_TIME && FirstTs(q, n) - q[k].ts > max
  {
    if n > 0 {
      SpanExceedsMeansOlder(q, n - 1, max);
      if FirstTs(q, n) != NO_TIME {
        var f := FirstTsIsATimestamp(q, n);
        forall k | 0 <= k < n && q[k].ts != NO_TIME
          ensures SignedElapsed(FirstTs(q, n), q[k].ts) == FirstTs(q, n) - q[k].ts
        {
          assert f <= k;
          assert q[k] in q && q[f] in q;
        }
        if FirstTs(q, n - 1) == NO_TIME {
          NoTimestamps(q, n - 1);
        }
      } else {
        NoTimestamps(q, n);
      }
    }
  }

  // ---- The limits that decide how much to keep and how much to burst ----

  /** Some buffer among the `n` newest is at least `limit` older than the newest timestamp. */
  predicate SpanReached(q: seq<Buffer>, n: nat, limit: int)
    requires n <= |q|
  {
    n > 0 && (SpanReached(q, n - 1, limit)
              || (q[n - 1].ts != NO_TIME && Elapsed(FirstTs(q, n), q[n - 1].ts) >= limit))
  }

  /** The buffers up to index `k` meet every minimum that is set. */
  predicate MinMet(q: seq<Buffer>, k: nat, bytesMin: int, timeMin: int)
    requires k < |q|
  {
    && (bytesMin == UNSET || ByteSum(q, k + 1) >= bytesMin)
    && (timeMin == UNSET || SpanReached(q, k + 1, timeMin))
  }

  /** The buffers up to index `k` reach a maximum that is set. */
  predicate MaxHit(q: seq<Buffer>, k: nat, bytesMax: int, timeMax: int)
    requires k < |q|
  {
    || (bytesMax != UNSET && ByteSum(q, k + 1) >= bytesMax)
    || (timeMax != UNSET && SpanReached(q, k + 1, timeMax))
  }

  /** The least index from `k` on that reaches a maximum, or the last one. */
  function MaxIndex(q: seq<Buffer>, k: nat, bytesMax: int, timeMax: int): (r: nat)
    requires k < |q|
    ensures k <= r < |q|
    ensures forall j :: k <= j < r ==> !MaxHit(q, j, bytesMax, timeMax)
    ensures r == |q| - 1 || MaxHit(q, r, bytesMax, timeMax)
    decreases |q| - k
  {
    if k == |q| - 1 || MaxHit(q, k, bytesMax, timeMax) then k else MaxIndex(q, k + 1, bytesMax, timeMax)
  }

  /** The least index from `k` on that meets the minima, or `last`. */
  function MinIndex(q: seq<Buffer>, k: nat, last: nat, bytesMin: int, timeMin: int): (r: nat)
    requires k <= last < |q|
    ensures k <= r <= last
    ensures forall j :: k <= j < r ==> !MinMet(q, j, bytesMin, timeMin)
    ensures r == last || MinMet(q, r, bytesMin, timeMin)
    decreases last - k
  {
    if k == last || MinMet(q, k, bytesMin, timeMin) then k else MinIndex(q, k + 1, last, bytesMin, timeMin)
  }

  datatype Range = Range(min: nat, max: nat)

  /** The indices where minima and maxima are satisfied; all of a queue shorter than `buffersMin`. */
  function LimitRange(q: seq<Buffer>, bytesMin: int, buffersMin: int, timeMin: int, bytesMax: int, timeMax: int)
    : (r: Range)
    requires |q| > 0
    ensures r.min <= r.max < |q|
  {
    if buffersMin != UNSET && |q| < buffersMin then Range(|q| - 1, |q| - 1)
    else
      var max := MaxIndex(q, 0, bytesMax, timeMax);
      Range(MinIndex(q, 0, max, bytesMin, timeMin), max)
  }

  /** `max` is the least index that reaches a maximum, `min` the least that meets the minima, cut off at `max`. */
  ghost predicate IsRange(q: seq<Buffer>, min: int, max: int, bytesMin: int, timeMin: int, bytesMax: int, timeMax: int)
  {
    && 0 <= min <= max < |q|
    && (forall j :: 0 <= j < max ==> !MaxHit(q, j, bytesMax, timeMax))
    && (max == |q| - 1 || MaxHit(q, max, bytesMax, timeMax))
    && (forall j :: 0 <= j < min ==> !MinMet(q, j, bytesMin, timeMin))
    && (min == max || MinMet(q, min, bytesMin, timeMin))
  }

  lemma RangeIsUnique(q: seq<Buffer>, min: int, max: int, bytesMin: int, timeMin: int, bytesMax: int, timeMax: int)
    requires IsRange(q, min, max, bytesMin, timeMin, bytesMax, timeMax)
    ensures LimitRange(q, bytesMin, UNSET, timeMin, bytesMax, timeMax) == Range(min, max)
  {
    var m := MaxIndex(q, 0, bytesMax, timeMax);
    assert m == max;
    var n := MinIndex(q, 0, max, bytesMin, timeMin);
    assert n == min;
  }

  /** The one scan that finds both indices; a minimum, once met, is switched off. */
  method FindLimits(q: seq<Buffer>, bytesMin: int, buffersMin: int, timeMin: int,
                    bytesMax: int, buffersMax: int, timeMax: int)
    returns (minIdx: int, maxIdx: int, result: bool)
    requires |q| > 0
    ensures 0 <= minIdx <= maxIdx < |q|
    ensures Range(minIdx, maxIdx) == LimitRange(q, bytesMin, buffersMin, timeMin, bytesMax, timeMax)
    ensures if buffersMin != UNSET && |q| < buffersMin then minIdx == maxIdx == |q| - 1
            else IsRange(q, minIdx, maxIdx, bytesMin, timeMin, bytesMax, timeMax)
    ensures result <==> (buffersMin == UNSET || |q| >= buffersMin) && maxIdx < |q| - 1
                        && MinMet(q, maxIdx, bytesMin, timeMin)
  {
    if buffersMin != UNSET && |q| < buffersMin {
      return |q| - 1, |q| - 1, false;
    }
    minIdx, maxIdx, result := ScanLimits(q, bytesMin, timeMin, bytesMax, timeMax);
    RangeIsUnique(q, minIdx, maxIdx, bytesMin, timeMin, bytesMax, timeMax);
  }

  /** The timestamp part of one iteration: the first timestamp, the minimum still open, and the maximum. */
  method NoteTimestamp(q: seq<Buffer>, i: nat, first: int, timeLeft: int, timeMin: int, timeMax: int)
    returns (newFirst: int, newLeft: int, maxHit: bool)
    requires i < |q| && first == FirstTs(q, i) && (timeLeft == UNSET || timeLeft == timeMin)
    requires timeLeft == UNSET <==> timeMin == UNSET || SpanReached(q, i, timeMin)
    requires timeMax != UNSET ==> !SpanReached(q, i, timeMax)
    ensures newFirst == FirstTs(q, i + 1) && (newLeft == UNSET || newLeft == timeMin)
    ensures newLeft == UNSET <==> timeMin == UNSET || SpanReached(q, i + 1, timeMin)
    ensures maxHit <==> timeMax != UNSET && SpanReached(q, i + 1, timeMax)
  {
    newFirst, newLeft, maxHit := first, timeLeft, false;
    if q[i].ts != NO_TIME {
      if newFirst == NO_TIME {
        newFirst := q[i].ts;
      }
      if newLeft != UNSET && Elapsed(newFirst, q[i].ts) >= newLeft {
        newLeft := UNSET;
      }
      if timeMax != UNSET && Elapsed(newFirst, q[i].ts) >= timeMax {
        maxHit := true;
      }
    }
  }

  /** The loop of `FindLimits`. */
  method ScanLimits(q: seq<Buffer>, bytesMin: int, timeMin: int, bytesMax: int, timeMax: int)
    returns (minIdx: int, maxIdx: int, result: bool)
    requires |q| > 0
    ensures IsRange(q, minIdx, maxIdx, bytesMin, timeMin, bytesMax, timeMax)
    ensures result <==> maxIdx < |q| - 1 && MinMet(q, maxIdx, bytesMin, timeMin)
  {
    result := false;
    var first: int, bytes, maxHit := NO_TIME, 0, false;
    var bytesLeft, timeLeft := bytesMin, timeMin;
    minIdx, maxIdx := -1, -1;
    var i := 0;
    while i < |q|
      invariant 0 <= i <= |q| && bytes == ByteSum(q, i) && first == FirstTs(q, i)
      invariant bytesLeft == UNSET || bytesLeft == bytesMin
      invariant bytesLeft == UNSET <==> bytesMin == UNSET || (i > 0 && ByteSum(q, i) >= bytesMin)
      invariant timeLeft == UNSET || timeLeft == timeMin
      invariant timeLeft == UNSET <==> timeMin == UNSET || SpanReached(q, i, timeMin)
      invariant maxHit <==> i > 0 && MaxHit(q, i - 1, bytesMax, timeMax)
      invariant forall j :: 0 <= j < i - 1 ==> !MaxHit(q, j, bytesMax, timeMax)
      invariant minIdx == -1 ==> forall j :: 0 <= j < i - 1 ==> !MinMet(q, j, bytesMin, timeMin)
      invariant minIdx != -1 ==> 0 <= minIdx < Max(i, 1) && MinMet(q, minIdx, bytesMin, timeMin)
      invariant forall j :: 0 <= j < minIdx ==> !MinMet(q, j, bytesMin, timeMin)
      invariant maxIdx == -1
    {
      if bytesLeft == UNSET && timeLeft == UNSET && minIdx == -1 {
        minIdx := Max(i - 1, 0);
      }
      if maxHit {
        maxIdx := i - 1;
        result := minIdx != -1;
        if result {
          MinMetGrows(q, minIdx, maxIdx, bytesMin, timeMin);
        }
        break;
      }
      var buf := q[i];
      bytes := bytes + buf.Size();
      ByteSumGrows(q, i, i + 1);
      first, timeLeft, maxHit := NoteTimestamp(q, i, first, timeLeft, timeMin, timeMax);
      if bytesLeft != UNSET && bytes >= bytesLeft {
        bytesLeft := UNSET;
      }
      if bytesMax != UNSET && bytes >= bytesMax {
        maxHit := true;
      }
      i := i + 1;
    }
    if maxIdx == -1 {
      maxIdx := |q| - 1;
    }
    if minIdx == -1 {
      minIdx := maxIdx;
    }
  }

  /** Some buffer among the `n` newest really is at least `limit` older than the first timestamp. */
  ghost predicate Spans(q: seq<Buffer>, n: nat, limit: int)
    requires n <= |q|
  {
    exists k :: 0 <= k < n && q[k].ts != NO_TIME && FirstTs(q, n) - q[k].ts >= limit
  }

  /** If no timestamp is later than the first one, the unsigned test finds out about real ages. */
  lemma {:induction false} SpanReachedIsReal(q: seq<Buffer>, n: nat, limit: int)
    requires n <= |q| && forall k :: 0 <= k < n ==> q[k].ts <= FirstTs(q, n)
    ensures SpanReached(q, n, limit) <==> Spans(q, n, limit)
  {
    if n > 0 {
      if FirstTs(q, n - 1) == NO_TIME {
        NoTimestamps(q, n - 1);
      }
      SpanReachedIsReal(q, n - 1, limit);
    }
  }

  /** On sorted timestamps the span is the difference between the newest and an older timestamp. */
  lemma SpanReachedMeansOlder(q: seq<Buffer>, n: nat, limit: int)
    requires n <= |q| && TimeSorted(q)
    ensures SpanReached(q, n, limit) <==> Spans(q, n, limit)
  {
    forall k | 0 <= k < n
      ensures q[k].ts <= FirstTs(q, n)
    {
      if q[k].ts != NO_TIME {
        NewestIsFirst(q, n, k);
      }
    }
    SpanReachedIsReal(q, n, limit);
  }

  /** The least index from `k` on that is at least `limit` older than the first timestamp, or the length. */
  function OldEnough(q: seq<Buffer>, k: nat, limit: int): (r: nat)
    requires k <= |q|
    ensures k <= r <= |q|
    ensures r < |q| ==> q[r].ts != NO_TIME && FirstTs(q, |q|) - q[r].ts >= limit
    ensures forall j :: k <= j < r ==> q[j].ts == NO_TIME || FirstTs(q, |q|) - q[j].ts < limit
    decreases |q| - k
  {
    if k == |q| || (q[k].ts != NO_TIME && FirstTs(q, |q|) - q[k].ts >= limit) then k else OldEnough(q, k + 1, limit)
  }

  /** A prefix spans the limit exactly if it reaches up to that index. */
  lemma PrefixSpansIff(q: seq<Buffer>, n: nat, limit: int)
    requires n <= |q|
    ensures Spans(q[..n], n, limit) <==> OldEnough(q, 0, limit) < n
  {
    var p, r := q[..n], OldEnough(q, 0, limit);
    FirstTsPrefix(q, p, n);
    forall k | 0 <= k < n && q[k].ts != NO_TIME
      ensures FirstTs(p, n) == FirstTs(q, |q|)
    {
      if FirstTs(q, n) == NO_TIME {
        NoTimestamps(q, n);
      }
      FirstTsStable(q, n, |q|);
    }
    if r < n {
      assert p[r] == q[r];
    }
  }

  /** Buffer `k` has a timestamp later than the first one, and the unsigned difference, which wraps around, is at least
      `limit`. */
  predicate Misleads(q: seq<Buffer>, k: nat, limit: int)
    requires k < |q|
  {
    q[k].ts > FirstTs(q, |q|) && Elapsed(FirstTs(q, |q|), q[k].ts) >= limit
  }

  /** The least such index from `k` on, or the length. */
  function Misleading(q: seq<Buffer>, k: nat, limit: int): (r: nat)
    requires k <= |q|
    ensures k <= r <= |q|
    ensures r < |q| ==> Misleads(q, r, limit)
    ensures forall j :: k <= j < r ==> !Misleads(q, j, limit)
    decreases |q| - k
  {
    if k == |q| || Misleads(q, k, limit) then k else Misleading(q, k + 1, limit)
  }

  /** The unsigned test is met by a prefix exactly if it holds a buffer that is old enough, or one that misleads. */
  lemma {:induction false} SpanReachedIff(q: seq<Buffer>, n: nat, limit: int)
    requires n <= |q|
    ensures SpanReached(q, n, limit) <==> OldEnough(q, 0, limit) < n || Misleading(q, 0, limit) < n
  {
    if n > 0 {
      SpanReachedIff(q, n - 1, limit);
      var b := q[n - 1];
      if b.ts != NO_TIME {
        FirstTsStable(q, n, |q|);
        assert Elapsed(FirstTs(q, n), b.ts) >= limit <==> FirstTs(q, |q|) - b.ts >= limit || Misleads(q, n - 1, limit);
      } else {
        assert !Misleads(q, n - 1, limit);
      }
      assert OldEnough(q, 0, limit) < n
             <==> OldEnough(q, 0, limit) < n - 1 || (b.ts != NO_TIME && FirstTs(q, |q|) - b.ts >= limit);
      assert Misleading(q, 0, limit) < n <==> Misleading(q, 0, limit) < n - 1 || Misleads(q, n - 1, limit);
    }
  }

  /** The minimum in time only moves the index that the minimum in bytes asks for. */
  lemma MinIndexSplits(q: seq<Buffer>, bytesMin: int, timeMin: int)
    requires |q| > 0 && timeMin != UNSET
    ensures var last, t := |q| - 1, Min(OldEnough(q, 0, timeMin), Misleading(q, 0, timeMin));
            MinIndex(q, 0, last, bytesMin, timeMin) == Max(MinIndex(q, 0, last, bytesMin, UNSET), Min(t, last))
  {
    var last, t := |q| - 1, Min(OldEnough(q, 0, timeMin), Misleading(q, 0, timeMin));
    var m, r := MinIndex(q, 0, last, bytesMin, UNSET), MinIndex(q, 0, last, bytesMin, timeMin);
    forall k | 0 <= k <= last
      ensures MinMet(q, k, bytesMin, timeMin) <==> MinMet(q, k, bytesMin, UNSET) && t <= k
      ensures m < last && m <= k ==> MinMet(q, k, bytesMin, UNSET)
    {
      SpanReachedIff(q, k + 1, timeMin);
      if m < last && m <= k {
        MinMetGrows(q, m, k, bytesMin, UNSET);
      }
    }
    assert r < last ==> m <= r && t <= r;
    assert m < last && t < last ==> MinMet(q, Max(m, t), bytesMin, timeMin);
  }

  /** The lag measured in a prefix of the queue is the lag measured in the queue. */
  lemma {:induction false} ExceedsOfPrefix(format: Format, q: seq<Buffer>, p: seq<Buffer>, n: nat, max: int)
    requires n <= |p| && p <= q
    ensures Exceeds(format, p, n, max) == Exceeds(format, q, n, max)
  {
    assert p[..n] == q[..n];
    ByteSumPrefix(q, p, n);
    if format == Time && n > 0 {
      FirstTsPrefix(q, p, n);
      assert p[n - 1] == q[n - 1];
      ExceedsOfPrefix(format, q, p, n - 1, max);
    }
  }

  lemma TailIsSorted(b: Buffer, q: seq<Buffer>)
    requires TimeSorted([b] + q)
    ensures TimeSorted(q)
  {
    var p := [b] + q;
    assert forall i :: 0 <= i < |q| ==> p[i + 1] == q[i];
  }

  lemma {:induction false} FirstTsOfFront(b: Buffer, q: seq<Buffer>, n: nat)
    requires n <= |q|
    ensures FirstTs([b] + q, n + 1) == if b.ts != NO_TIME then b.ts else FirstTs(q, n)
  {
    var p := [b] + q;
    if n == 0 {
      assert FirstTs(p, 0) == NO_TIME && p[0] == b;
    } else {
      FirstTsOfFront(b, q, n - 1);
      assert p[n] == q[n - 1];
    }
  }

  lemma FrontIsNewest(p: seq<Buffer>, b: Buffer, q: seq<Buffer>, f: nat)
    requires TimeSorted(p) && p == [b] + q && f < |q| && q[f].ts != NO_TIME
    ensures b.ts == NO_TIME || b.ts >= q[f].ts
  {
    assert p[0] == b && p[f + 1] == q[f];
  }

  /** An age that a queue reaches is still reached once a newer buffer is put in front. */
  lemma SpansPrepend(b: Buffer, q: seq<Buffer>, limit: int)
    requires Spans(q, |q|, limit) && (b.ts == NO_TIME || b.ts >= FirstTs(q, |q|))
    ensures Spans([b] + q, |q| + 1, limit)
  {
    var p := [b] + q;
    var k :| 0 <= k < |q| && q[k].ts != NO_TIME && FirstTs(q, |q|) - q[k].ts >= limit;
    FirstTsOfFront(b, q, |q|);
    assert p[k + 1].ts == q[k].ts;
  }

  /** Minima that a queue meets are still met once a newer buffer is put in front. */
  lemma MinMetPrepend(b: Buffer, q: seq<Buffer>, bytesMin: int, timeMin: int)
    requires |q| > 0 && TimeSorted([b] + q) && MinMet(q, |q| - 1, bytesMin, timeMin)
    ensures MinMet([b] + q, |q|, bytesMin, timeMin)
  {
    ByteSumPrepend(b, q, |q|);
    if timeMin != UNSET {
      TailIsSorted(b, q);
      SpanReachedMeansOlder(q, |q|, timeMin);
      SpanReachedMeansOlder([b] + q, |q| + 1, timeMin);
      if FirstTs(q, |q|) != NO_TIME {
        var f := FirstTsIsATimestamp(q, |q|);
        FrontIsNewest([b] + q, b, q, f);
      }
      SpansPrepend(b, q, timeMin);
    }
  }

  lemma NewestIsFirst(q: seq<Buffer>, n: nat, k: nat)
    requires k < n <= |q| && TimeSorted(q) && q[k].ts != NO_TIME
    ensures FirstTs(q, n) != NO_TIME && FirstTs(q, n) >= q[k].ts
  {
    if FirstTs(q, n) == NO_TIME {
      NoTimestamps(q, n);
    } else {
      var f := FirstTsIsATimestamp(q, n);
    }
  }

  /** What meets the minima does so in every longer prefix. */
  lemma {:induction false} MinMetGrows(q: seq<Buffer>, j: nat, k: nat, bytesMin: int, timeMin: int)
    requires j <= k < |q| && MinMet(q, j, bytesMin, timeMin)
    ensures MinMet(q, k, bytesMin, timeMin)
    decreases k
  {
    if j < k {
      ByteSumGrows(q, j + 1, k + 1);
      MinMetGrows(q, j, k - 1, bytesMin, timeMin);
    }
  }

  /** Whether a prefix meets the minima depends on that prefix alone. */
  lemma MinMetOfPrefix(q: seq<Buffer>, p: seq<Buffer>, k: nat, bytesMin: int, timeMin: int)
    requires k < |p| && p <= q
    ensures MinMet(p, k, bytesMin, timeMin) == MinMet(q, k, bytesMin, timeMin)
  {
    assert p[..k + 1] == q[..k + 1];
    ByteSumPrefix(q, p, k + 1);
    SpanReachedOfPrefix(q, p, k + 1, timeMin);
  }

  lemma {:induction false} SpanReachedOfPrefix(q: seq<Buffer>, p: seq<Buffer>, n: nat, limit: int)
    requires n <= |p| && p <= q
    ensures SpanReached(p, n, limit) == SpanReached(q, n, limit)
  {
    if n > 0 {
      assert p[..n] == q[..n];
      assert p[n - 1] == q[n - 1];
      FirstTsPrefix(q, p, n);
      SpanReachedOfPrefix(q, p, n - 1, limit);
    }
  }
}

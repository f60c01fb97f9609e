/** Media buffers: a list of memories, a timestamp and the two flags the sink looks at. */
module Buffers {
  import opened Basics

  /** The timestamp of a buffer that has none. */
  const NO_TIME: int := -1

  const TWO_64: int := 0x1_0000_0000_0000_0000

  type Timestamp = t: int | -1 <= t < TWO_64 - 1

  /** `bytes` is the content; `mems` are the memories that hold it. */
  datatype Buffer = Buffer(id: nat, bytes: seq<byte>, mems: seq<seq<byte>>, ts: Timestamp, delta: bool, header: bool) {
    function Size(): nat { |bytes| }

    /** A frame a decoder can start from. */
    predicate IsSync() { !delta && !header }

    /** The write path aborts the process on a buffer without any byte. */
    predicate Sendable() { bytes != [] && bytes == Flatten(mems) }
  }

  /** The bytes of the first `n` buffers of a queue. */
  function ByteSum(q: seq<Buffer>, n: nat): nat
    requires n <= |q|
  {
    if n == 0 then 0 else ByteSum(q, n - 1) + q[n - 1].Size()
  }

  /** The first timestamp among the first `n` buffers of a queue. */
  function FirstTs(q: seq<Buffer>, n: nat): Timestamp
    requires n <= |q|
  {
    if n == 0 then NO_TIME
    else if FirstTs(q, n - 1) != NO_TIME then FirstTs(q, n - 1)
    else q[n - 1].ts
  }

  /** `a - b` as the 64-bit unsigned subtraction of two timestamps computes it. */
  function Elapsed(a: int, b: int): int { if a >= b then a - b else a - b + TWO_64 }

  /** `a - b` read back as a signed 64-bit number. */
  function SignedElapsed(a: int, b: int): int
  {
    var d := Elapsed(a, b);
    if d < TWO_64 / 2 then d else d - TWO_64
  }

  lemma {:induction false} ByteSumGrows(q: seq<Buffer>, m: nat, n: nat)
    requires m <= n <= |q|
    ensures ByteSum(q, m) <= ByteSum(q, n)
    decreases n
  {
    if m < n {
      ByteSumGrows(q, m, n - 1);
    }
  }

  lemma {:induction false} ByteSumPrefix(q: seq<Buffer>, p: seq<Buffer>, n: nat)
    requires n <= |q| && n <= |p| && q[..n] == p[..n]
    ensures ByteSum(q, n) == ByteSum(p, n)
  {
    if n > 0 {
      assert q[..n - 1] == q[..n][..n - 1] == p[..n][..n - 1] == p[..n - 1];
      assert q[n - 1] == q[..n][n - 1] == p[..n][n - 1] == p[n - 1];
      ByteSumPrefix(q, p, n - 1);
    }
  }

  lemma {:induction false} ByteSumPrepend(b: Buffer, q: seq<Buffer>, n: nat)
    requires n <= |q|
    ensures ByteSum([b] + q, n + 1) == b.Size() + ByteSum(q, n)
  {
    if n > 0 {
      ByteSumPrepend(b, q, n - 1);
      assert ([b] + q)[n] == q[n - 1];
    }
  }

  lemma {:induction false} FirstTsPrefix(q: seq<Buffer>, p: seq<Buffer>, n: nat)
    requires n <= |q| && n <= |p| && q[..n] == p[..n]
    ensures FirstTs(q, n) == FirstTs(p, n)
  {
    if n > 0 {
      assert q[..n - 1] == q[..n][..n - 1] == p[..n][..n - 1] == p[..n - 1];
      assert q[n - 1] == q[..n][n - 1] == p[..n][n - 1] == p[n - 1];
      FirstTsPrefix(q, p, n - 1);
    }
  }

  /** The first timestamp does not depend on where the scan that found it stops. */
  lemma {:induction false} FirstTsStable(q: seq<Buffer>, m: nat, n: nat)
    requires m <= n <= |q| && FirstTs(q, m) != NO_TIME
    ensures FirstTs(q, n) == FirstTs(q, m)
    decreases n
  {
    if m < n {
      FirstTsStable(q, m, n - 1);
    }
  }

  lemma {:induction false} FirstTsIsATimestamp(q: seq<Buffer>, n: nat) returns (k: nat)
    requires n <= |q| && FirstTs(q, n) != NO_TIME
    ensures k < n && q[k].ts == FirstTs(q, n)
    ensures forall j :: 0 <= j < k ==> q[j].ts == NO_TIME
  {
    if FirstTs(q, n - 1) != NO_TIME {
      k := FirstTsIsATimestamp(q, n - 1);
    } else {
      k := n - 1;
      NoTimestamps(q, n - 1);
    }
  }

  lemma {:induction false} NoTimestamps(q: seq<Buffer>, n: nat)
    requires n <= |q| && FirstTs(q, n) == NO_TIME
    ensures forall j :: 0 <= j < n ==> q[j].ts == NO_TIME
  {
    if n > 0 {
      NoTimestamps(q, n - 1);
    }
  }
}

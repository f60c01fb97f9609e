/** Scatter-gather output: the memories of a buffer that one send call is offered. */
module Vectors {
  import opened Basics
  import opened Buffers

  /** Vectors passed to one send call. */
  const MAX_VECTORS: nat := 8

  /** What one send call is offered of the memories from byte `offset` on: at most `cap` memories. */
  function Offer(mems: seq<seq<byte>>, offset: nat, cap: nat): (bytes: seq<byte>)
    ensures offset < |Flatten(mems)| && cap > 0 ==> bytes != [] && bytes <= Flatten(mems)[offset..]
  {
    if mems == [] then []
    else if offset >= |mems[0]| then
      assert offset < |Flatten(mems)| ==> Flatten(mems)[offset..] == Flatten(mems[1..])[offset - |mems[0]|..];
      Offer(mems[1..], offset - |mems[0]|, cap)
    else
      var end := Max(1, Min(cap, |mems|));
      assert Flatten(mems[1..]) == Flatten(mems[1..end]) + Flatten(mems[end..]) by {
        assert mems[1..] == mems[1..end] + mems[end..];
        FlattenAppend(mems[1..end], mems[end..]);
      }
      mems[0][offset..] + Flatten(mems[1..end])
  }

  datatype Spot = Spot(index: nat, skip: nat)

  /** The memory that holds byte `offset`, and how far into it that byte is. */
  function FindMemory(mems: seq<seq<byte>>, offset: nat): (p: Spot)
    requires offset < |Flatten(mems)|
    ensures p.index < |mems| && p.skip < |mems[p.index]|
  {
    if offset < |mems[0]| then Spot(0, offset)
    else
      var p := FindMemory(mems[1..], offset - |mems[0]|);
      Spot(p.index + 1, p.skip)
  }

  /** The vectors start inside the memory found and go on with whole memories. */
  lemma {:induction false} OfferStartsAtSpot(mems: seq<seq<byte>>, offset: nat, cap: nat)
    requires offset < |Flatten(mems)| && cap > 0
    ensures var p := FindMemory(mems, offset);
            Offer(mems, offset, cap)
            == mems[p.index][p.skip..] + Flatten(mems[p.index + 1..][..Min(cap, |mems| - p.index) - 1])
  {
    var p := FindMemory(mems, offset);
    if offset >= |mems[0]| {
      var q := FindMemory(mems[1..], offset - |mems[0]|);
      OfferStartsAtSpot(mems[1..], offset - |mems[0]|, cap);
      assert mems[1..][q.index] == mems[p.index];
      assert mems[1..][q.index + 1..] == mems[p.index + 1..];
    } else {
      assert p == Spot(0, offset);
      assert mems[1..Max(1, Min(cap, |mems|))] == mems[1..][..Min(cap, |mems|) - 1];
      assert Offer(mems, offset, cap) == mems[0][offset..] + Flatten(mems[1..Max(1, Min(cap, |mems|))]);
    }
  }

  /** The vectors, filled one by one, are the first memory from the offset on and whole memories behind it. */
  lemma FilledIsOffer(mems: seq<seq<byte>>, offset: nat, cap: nat, vectors: seq<seq<byte>>)
    requires offset < |Flatten(mems)| && cap > 0
    requires var p := FindMemory(mems, offset);
             && |vectors| == Min(cap, |mems| - p.index)
             && vectors[0] == mems[p.index][p.skip..]
             && forall k :: 0 < k < |vectors| ==> vectors[k] == mems[p.index + k]
    ensures Flatten(vectors) == Offer(mems, offset, cap)
  {
    var p := FindMemory(mems, offset);
    var first, later := mems[p.index][p.skip..], mems[p.index + 1..][..|vectors| - 1];
    assert vectors == [first] + later;
    OfferStartsAtSpot(mems, offset, cap);
    FlattenAppend([first], later);
    FlattenOne(first);
  }

  /** Fills `vectors` with the memories of `buf` from `offset` on; the first one is entered in the middle. */
  method MapMemories(buf: Buffer, offset: nat, vectors: array<seq<byte>>) returns (mapped: nat)
    requires buf.Sendable() && offset < buf.Size() && vectors.Length > 0
    modifies vectors
    ensures 0 < mapped <= vectors.Length
    ensures Flatten(vectors[..mapped]) == Offer(buf.mems, offset, vectors.Length)
  {
    var spot := FindMemory(buf.mems, offset);
    var memLen := |buf.mems| - spot.index;
    vectors[0] := buf.mems[spot.index][spot.skip..];
    var i := 1;
    while i < memLen && i < vectors.Length
      invariant 1 <= i <= memLen && i <= vectors.Length
      invariant vectors[0] == buf.mems[spot.index][spot.skip..]
      invariant forall k :: 0 < k < i ==> vectors[k] == buf.mems[spot.index + k]
    {
      vectors[i] := buf.mems[spot.index + i];
      i := i + 1;
    }
    mapped := i;
    FilledIsOffer(buf.mems, offset, vectors.Length, vectors[..mapped]);
  }
}

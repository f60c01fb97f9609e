/** What a write event comes to when its socket takes everything: nothing is left behind. */
module Draining {
  import opened Basics
  import opened Buffers
  import opened Vectors
  import opened Positions
  import opened Clients
  import opened ClientSafety
  import opened WriteSafety

  /** Every buffer on the sending list can be sent, and the first one has bytes left. */
  ghost predicate CanSend(c: ClientView) {
    AllSendable(c.sending) && (c.sending != [] ==> c.bufoffset < c.sending[0].Size())
  }

  ghost predicate SceneSendable(sc: Scene) { AllSendable(sc.queue) && CapsSendable(sc.caps) }

  /** Whether the start position is still to be chosen. */
  predicate Unplaced(c: ClientView) { c.newConnection && c.status != Flushing }

  function HeadersFor(c: ClientView, sc: Scene): seq<Buffer> { HeadersToSend(c.caps, sc.caps, sc.resend) }

  function HeaderBytes(c: ClientView, sc: Scene): nat { |BytesOf(HeadersFor(c, sc))| }

  /** The bytes that may have to be sent before the client has caught up. */
  function Backlog(c: ClientView, sc: Scene): nat
    requires CursorInside(c, sc.queue) && OffsetInside(c)
  {
    |RestOf(c.sending, c.bufoffset)| + HeaderBytes(c, sc)
    + ByteSum(sc.queue, if Unplaced(c) then |sc.queue| else c.bufpos + 1)
  }

  lemma DueBytes(c: ClientView, sc: Scene, buf: Buffer)
    ensures |BytesOf(HeadersFor(c, sc) + [buf])| == HeaderBytes(c, sc) + buf.Size()
  {
    BytesOfAppend(HeadersFor(c, sc), [buf]);
    assert BytesOf([buf]) == buf.bytes + BytesOf([]);
  }

  lemma PickCanSend(c: ClientView, sc: Scene)
    requires 0 <= c.bufpos < |sc.queue| && c.sending == [] && SceneSendable(sc)
    ensures CanSend(Pick(c, sc)) && Pick(c, sc).sending == HeadersFor(c, sc) + [sc.queue[c.bufpos]]
  {
    var r := Pick(c, sc);
    assert r.sending == HeadersFor(c, sc) + [sc.queue[c.bufpos]];
    assert AllSendable(HeadersFor(c, sc)) && sc.queue[c.bufpos].Sendable();
  }

  /** A pick moves the bytes of the buffer, and of the headers due, to the sending list. */
  lemma PickBacklog(c: ClientView, sc: Scene)
    requires 0 <= c.bufpos < |sc.queue| && c.sending == [] && !Unplaced(c) && OffsetInside(c) && SceneSendable(sc)
    ensures CanSend(Pick(c, sc)) && Backlog(Pick(c, sc), sc) == Backlog(c, sc)
  {
    var r := Pick(c, sc);
    PickCanSend(c, sc);
    DueBytes(c, sc, sc.queue[c.bufpos]);
    assert |RestOf(r.sending, 0)| == HeaderBytes(c, sc) + sc.queue[c.bufpos].Size();
    assert HeaderBytes(r, sc) == 0 && RestOf(c.sending, c.bufoffset) == [];
  }

  lemma PickedBacklog(c: ClientView, sc: Scene)
    requires 0 <= c.bufpos < |sc.queue| && c.sending == [] && !Unplaced(c) && OffsetInside(c) && SceneSendable(sc)
    ensures Lightened(PickUnlessFlushed(c, sc), c, sc)
  {
    if c.flushcount != 0 {
      PickBacklog(c, sc);
    }
  }

  /** What `Load` comes to: nothing to send and waiting, flushed with nothing to send, or no more to send than
      before. */
  ghost predicate Lightened(r: Ready, c: ClientView, sc: Scene)
    requires CursorInside(c, sc.queue) && OffsetInside(c)
    requires r.Loaded? ==> CursorInside(r.client, sc.queue) && OffsetInside(r.client)
  {
    match r
    case Wait(c1) => c1.sending == [] && c1.bufpos == -1 && !c1.source
    case Flushed(c1) => c1.sending == []
    case Loaded(c1) => CanSend(c1) && Backlog(c1, sc) <= Backlog(c, sc)
  }

  /** A start position is some index of the queue, so that no more than the queue is to be sent. */
  lemma PlaceBacklog(c: ClientView, p: Placement, sc: Scene)
    requires -1 <= p.position < |sc.queue| && -1 <= p.bufpos < |sc.queue| && (p.position == -1 ==> p.bufpos == -1)
    requires Unplaced(c) && c.sending == [] && OffsetInside(c) && CursorInside(c, sc.queue) && SceneSendable(sc)
    ensures Lightened(Place(c, p, sc), c, sc)
  {
    if p.position >= 0 {
      var c1 := StartAt(c.(bufpos := p.bufpos, sync := p.sync), p.position, sc.total);
      ByteSumGrows(sc.queue, p.position + 1, |sc.queue|);
      PickedBacklog(c1, sc);
      assert Backlog(c1, sc) <= Backlog(c, sc);
    }
  }

  lemma LoadBacklog(c: ClientView, sc: Scene)
    requires CursorInside(c, sc.queue) && OffsetInside(c) && CanSend(c) && SceneSendable(sc)
    ensures Lightened(Load(c, sc), c, sc)
  {
    if c.sending == [] && c.bufpos != -1 {
      if Unplaced(c) {
        PlaceBacklog(c, NewPosition(sc.queue, c.bufpos, c.sync, c.burst), sc);
      } else {
        PickedBacklog(c, sc);
      }
    }
  }

  /** What is left of the sending list after a send can be sent. */
  lemma SentCanSend(c: ClientView, n: nat)
    requires CanSend(c) && c.sending != [] && c.bufoffset + n <= c.sending[0].Size()
    ensures CanSend(AfterSend(c, n))
  {
    AfterSendFields(c, n);
    var r := AfterSend(c, n);
    assert r.sending == c.sending || forall k :: 0 <= k < |r.sending| ==> r.sending[k] == c.sending[k + 1];
  }

  /** A send shortens it by the bytes sent. */
  lemma SentIsOff(c: ClientView, n: nat)
    requires c.sending != [] && OffsetInside(c) && c.bufoffset + n <= c.sending[0].Size()
    ensures |RestOf(AfterSend(c, n).sending, AfterSend(c, n).bufoffset)| == |RestOf(c.sending, c.bufoffset)| - n
  {
    AfterSendFields(c, n);
    SendSplits([], c.sending, c.bufoffset, n);
  }

  /** A socket that takes anything at all takes at least one byte of what it is offered. */
  lemma SendProgresses(c: ClientView, sc: Scene, bytes: nat)
    requires CursorInside(c, sc.queue) && OffsetInside(c) && CanSend(c) && c.sending != [] && bytes > 0
    ensures var r := AfterSend(c, Accepted(c, bytes));
            CanSend(r) && CursorInside(r, sc.queue) && Backlog(r, sc) < Backlog(c, sc)
  {
    var n := Accepted(c, bytes);
    SentCanSend(c, n);
    SentIsOff(c, n);
    assert n > 0;
  }

  /** A socket that goes on taking bytes, however few at a time, is sent everything: the write event ends with nothing
      on the sending list, and either the client waits for the next buffer, or its flush has ended. */
  lemma {:induction false} WriteDrains(c: ClientView, sc: Scene, replies: seq<Reply>)
    requires CursorInside(c, sc.queue) && OffsetInside(c) && CanSend(c) && SceneSendable(sc)
    requires forall i :: 0 <= i < |replies| ==> replies[i].Accepts? && replies[i].bytes > 0
    requires |replies| >= Backlog(c, sc)
    ensures var w := Write(c, sc, replies);
            && w.client.sending == []
            && (w.stays ==> w.client.bufpos == -1 && !w.client.source)
            && (!w.stays ==> w.client.trail.flushed)
    decreases |replies|
  {
    LoadBacklog(c, sc);
    match Load(c, sc)
    case Wait(_) =>
    case Flushed(_) =>
    case Loaded(c1) =>
      assert |RestOf(c1.sending, c1.bufoffset)| > 0;
      SendProgresses(c1, sc, replies[0].bytes);
      assert Round(c, sc, FirstOf(replies)) == Goes(AfterSend(c1, Accepted(c1, replies[0].bytes)));
      WriteDrains(AfterSend(c1, Accepted(c1, replies[0].bytes)), sc, replies[1..]);
  }
}

/** A write event keeps the invariant of its client, for every sequence of replies of the socket. */
module WriteSafety {
  import opened Basics
  import opened Buffers
  import opened Vectors
  import opened Positions
  import opened Clients
  import opened Headers
  import opened ClientSafety

  /** The queue holds the newest buffers of the stream, newest first. */
  ghost predicate QueueMatches(queue: seq<Buffer>, stream: seq<Buffer>) {
    && |queue| <= |stream|
    && forall p :: 0 <= p < |queue| ==> queue[p] == stream[|stream| - 1 - p]
  }

  ghost predicate SceneMatches(sc: Scene, stream: seq<Buffer>) {
    sc.total == |stream| && QueueMatches(sc.queue, stream)
  }

  /** Delivery is about the sending list, the offset, the items and the wire; nothing else. */
  lemma SameDelivery(c: ClientView, r: ClientView)
    requires r.sending == c.sending && r.bufoffset == c.bufoffset && r.bytesSent == c.bytesSent
    requires r.trail.items == c.trail.items && r.trail.wire == c.trail.wire
    requires r.trail.taken == c.trail.taken && r.trail.released == c.trail.released
    requires Delivers(c) && RefsBalance(c)
    ensures Delivers(r) && RefsBalance(r) && WireIsPrefix(r)
  {
  }

  // ---- One buffer is picked ----

  lemma QueueToDelivers(c: ClientView, buf: Buffer, caps: Caps, resend: bool)
    requires c.sending == [] && Delivers(c)
    ensures Delivers(QueueTo(c, buf, caps, resend))
  {
    var more := NewItems(c.caps, buf, caps, resend);
    var r := QueueTo(c, buf, caps, resend);
    QueueBytes(c.trail.items, more);
    assert r.sending == BuffersOf(more) && r.trail.items == c.trail.items + more;
    assert RestOf(c.sending, c.bufoffset) == [] && c.trail.wire == Queued(c);
    assert RestOf(r.sending, 0) == BytesOf(BuffersOf(more));
    assert r.trail.wire == c.trail.wire && Queued(r) == Queued(c) + BytesOf(BuffersOf(more));
  }

  lemma QueueToRefs(c: ClientView, buf: Buffer, caps: Caps, resend: bool)
    requires RefsBalance(c)
    ensures RefsBalance(QueueTo(c, buf, caps, resend))
  {
    var more := NewItems(c.caps, buf, caps, resend);
    var r := QueueTo(c, buf, caps, resend);
    BuffersOfAppend(c.trail.items, more);
    assert r.trail.items == c.trail.items + more && r.trail.released == c.trail.released;
    assert r.sending == c.sending + BuffersOf(more);
  }

  lemma QueueBytes(items: seq<Item>, more: seq<Item>)
    ensures BuffersOf(items + more) == BuffersOf(items) + BuffersOf(more)
    ensures BytesOf(BuffersOf(items + more)) == BytesOf(BuffersOf(items)) + BytesOf(BuffersOf(more))
  {
    BuffersOfAppend(items, more);
    BytesOfAppend(BuffersOf(items), BuffersOf(more));
  }

  lemma DataOfMore(items: seq<Item>, prev: Option<Caps>, buf: Buffer, caps: Caps, resend: bool)
    ensures DataOf(items + NewItems(prev, buf, caps, resend)) == DataOf(items) + [buf]
  {
    var data := Data(buf, caps);
    match HeadersDue(prev, caps, resend)
    case None =>
      assert (items + [data])[..|items|] == items;
    case Some(headers) =>
      var more := items + [Block(headers), data];
      assert more[..|items| + 1] == items + [Block(headers)];
      assert (items + [Block(headers)])[..|items|] == items;
  }

  /** What a pick leaves as it was, and how it moves the cursor. */
  lemma PickFields(c: ClientView, sc: Scene)
    requires 0 <= c.bufpos < |sc.queue|
    ensures var r := Pick(c, sc);
            && r.bufoffset == 0 && r.bufpos == c.bufpos - 1 && r.caps == Some(sc.caps)
            && r.trail.log == c.trail.log + [Next(c, sc.total)]
            && r.flushcount == (if c.flushcount != -1 then c.flushcount - 1 else c.flushcount)
            && r.handle == c.handle && r.status == c.status && r.removing == c.removing && r.sync == c.sync
            && r.newConnection == c.newConnection
  {
  }

  lemma PickNumbers(c: ClientView, sc: Scene)
    requires 0 <= c.bufpos < |sc.queue| && NumbersHold(c, sc.total)
    requires c.flushcount != 0 && (c.newConnection ==> c.flushcount != -1)
    ensures NumbersHold(Pick(c, sc), sc.total)
  {
    var r := Pick(c, sc);
    assert r.trail.log == c.trail.log + [Next(c, sc.total)];
    assert Extra(r, sc.total) == Extra(c, sc.total) && Next(r, sc.total) == Next(c, sc.total) + 1;
    assert r.trail.start == c.trail.start && r.trail.flush == c.trail.flush;
  }

  lemma PickDelivers(c: ClientView, sc: Scene)
    requires 0 <= c.bufpos < |sc.queue| && c.sending == [] && Delivers(c) && RefsBalance(c)
    ensures Delivers(Pick(c, sc)) && WireIsPrefix(Pick(c, sc)) && RefsBalance(Pick(c, sc))
  {
    QueueToDelivers(c, sc.queue[c.bufpos], sc.caps, sc.resend);
    QueueToRefs(c, sc.queue[c.bufpos], sc.caps, sc.resend);
    var r, q := Pick(c, sc), QueueTo(c, sc.queue[c.bufpos], sc.caps, sc.resend);
    SameDelivery(q, r);
  }

  lemma PickHeaders(c: ClientView, sc: Scene)
    requires 0 <= c.bufpos < |sc.queue| && LaidOut(c.trail.items, sc.resend) && CapsLink(c)
    ensures LaidOut(Pick(c, sc).trail.items, sc.resend) && CapsLink(Pick(c, sc))
  {
    QueueToLaidOut(c, sc.queue[c.bufpos], sc.caps, sc.resend);
    var r, q := Pick(c, sc), QueueTo(c, sc.queue[c.bufpos], sc.caps, sc.resend);
    assert r.trail.items == q.trail.items && r.caps == q.caps;
  }

  lemma PickLog(c: ClientView, sc: Scene, stream: seq<Buffer>)
    requires 0 <= c.bufpos < |sc.queue| && SceneMatches(sc, stream) && LogMatches(c, stream)
    ensures LogMatches(Pick(c, sc), stream)
  {
    var r := Pick(c, sc);
    DataOfMore(c.trail.items, c.caps, sc.queue[c.bufpos], sc.caps, sc.resend);
    assert r.trail.items == c.trail.items + NewItems(c.caps, sc.queue[c.bufpos], sc.caps, sc.resend);
    assert r.trail.log == c.trail.log + [Next(c, sc.total)];
  }

  lemma TimesOfMore(bs: seq<Buffer>, b: Buffer)
    ensures FirstTs(bs + [b], |bs| + 1) == if FirstTs(bs, |bs|) != NO_TIME then FirstTs(bs, |bs|) else b.ts
    ensures LastTs(bs + [b]) == if b.ts != NO_TIME then b.ts else LastTs(bs)
  {
    FirstTsPrefix(bs + [b], bs, |bs|);
    assert (bs + [b])[..|bs|] == bs;
  }

  lemma PickTimes(c: ClientView, sc: Scene)
    requires 0 <= c.bufpos < |sc.queue| && TimesMatch(c)
    ensures TimesMatch(Pick(c, sc))
  {
    var r, buf := Pick(c, sc), sc.queue[c.bufpos];
    DataOfMore(c.trail.items, c.caps, buf, sc.caps, sc.resend);
    TimesOfMore(DataOf(c.trail.items), buf);
    assert r.trail.items == c.trail.items + NewItems(c.caps, buf, sc.caps, sc.resend);
  }

  lemma PickSending(c: ClientView, sc: Scene, stream: seq<Buffer>)
    requires 0 <= c.bufpos < |sc.queue| && SceneMatches(sc, stream) && c.sending == []
    requires c.flushcount != 0 && (c.newConnection ==> c.flushcount != -1)
    requires Sending(c, sc.total, stream, sc.resend)
    ensures Sending(Pick(c, sc), sc.total, stream, sc.resend)
  {
    PickNumbers(c, sc);
    PickDelivers(c, sc);
    PickLog(c, sc, stream);
    PickTimes(c, sc);
    PickHeaders(c, sc);
  }

  // ---- Loading ----

  lemma MovedSending(c: ClientView, sync: SyncMethod, bufpos: int, source: bool, total: nat,
                     stream: seq<Buffer>, resend: bool)
    requires Sending(c, total, stream, resend)
    requires bufpos == c.bufpos || (c.newConnection && c.flushcount == -1)
    ensures Sending(c.(bufpos := bufpos, sync := sync, source := source), total, stream, resend)
  {
    SameDelivery(c, c.(bufpos := bufpos, sync := sync, source := source));
  }

  lemma StartSending(c: ClientView, position: int, total: nat, stream: seq<Buffer>, resend: bool)
    requires c.newConnection && c.flushcount == -1 && Sending(c, total, stream, resend)
    ensures Sending(StartAt(c, position, total), total, stream, resend)
  {
    SameDelivery(c, StartAt(c, position, total));
  }

  /** The client that `Load` leaves; one that flushed has nothing left to send. */
  ghost predicate LoadOutcome(r: Ready, c: ClientView, sc: Scene, stream: seq<Buffer>) {
    && !r.client.removing && r.client.handle == c.handle && !r.client.trail.flushed
    && Sending(r.client, sc.total, stream, sc.resend) && KeyframeFirst(r.client, stream)
    && (!r.Flushed? ==> Sound(r.client, sc.total, stream, sc.resend))
    && (r.Flushed? ==> r.client.sending == [] && r.client.flushcount == 0)
  }

  /** A client that may pick: one that has received nothing starts on a keyframe if it was added to do so. */
  ghost predicate MayPick(c: ClientView, sc: Scene, stream: seq<Buffer>)
    requires 0 <= c.bufpos < |sc.queue|
  {
    && c.source && Active(c) && !c.trail.flushed && -1 <= c.flushcount
    && (c.status == Flushing <==> c.flushcount != -1)
    && (c.newConnection ==> c.flushcount != -1)
    && (StartsOnKeyframe(c.trail.added) <==> StartsOnKeyframe(c.sync))
    && (!c.newConnection && c.trail.log != [] ==> KeyframeFirst(c, stream))
    && (!c.newConnection && c.trail.log == [] ==>
          c.flushcount == -1 && (StartsOnKeyframe(c.trail.added) ==> sc.queue[c.bufpos].IsSync()))
  }

  lemma PickServing(c: ClientView, sc: Scene, stream: seq<Buffer>)
    requires 0 <= c.bufpos < |sc.queue| && SceneMatches(sc, stream) && MayPick(c, sc, stream) && c.flushcount != 0
    ensures Serving(Pick(c, sc)) && KeyframeFirst(Pick(c, sc), stream)
    ensures Pick(c, sc).handle == c.handle && Pick(c, sc).removing == c.removing
  {
    var r := Pick(c, sc);
    assert r.trail.log == c.trail.log + [Next(c, sc.total)];
  }

  lemma PickSound(c: ClientView, was: ClientView, sc: Scene, stream: seq<Buffer>)
    requires 0 <= c.bufpos < |sc.queue| && SceneMatches(sc, stream) && c.sending == []
    requires !c.removing && c.handle == was.handle && Sending(c, sc.total, stream, sc.resend) && MayPick(c, sc, stream)
    ensures LoadOutcome(PickUnlessFlushed(c, sc), was, sc, stream)
  {
    if c.flushcount != 0 {
      PickSending(c, sc, stream);
      PickServing(c, sc, stream);
    }
  }

  lemma PlaceSound(c: ClientView, p: Placement, sc: Scene, stream: seq<Buffer>)
    requires !c.removing && OffsetInside(c) && SceneMatches(sc, stream)
    requires Sound(c, sc.total, stream, sc.resend)
    requires c.sending == [] && c.source && c.newConnection && c.status != Flushing
    requires -1 <= p.position < |sc.queue| && -1 <= p.bufpos < |sc.queue|
    requires p.position == -1 ==> p.bufpos == -1
    requires StartsOnKeyframe(c.sync) <==> StartsOnKeyframe(p.sync)
    requires p.position != -1 && StartsOnKeyframe(p.sync) ==> sc.queue[p.position].IsSync()
    ensures LoadOutcome(Place(c, p, sc), c, sc, stream)
  {
    var c1 := c.(bufpos := p.bufpos, sync := p.sync);
    if p.position >= 0 {
      assert c1 == c.(bufpos := p.bufpos, sync := p.sync, source := c.source);
      MovedSending(c, p.sync, p.bufpos, c.source, sc.total, stream, sc.resend);
      StartSending(c1, p.position, sc.total, stream, sc.resend);
      PickSound(StartAt(c1, p.position, sc.total), c, sc, stream);
    } else {
      MovedSending(c, p.sync, p.bufpos, false, sc.total, stream, sc.resend);
      assert c1.(source := false) == c.(bufpos := p.bufpos, sync := p.sync, source := false);
    }
  }

  /** A client with nothing to send that waits for the next buffer is not watched any more, or has been flushed. */
  lemma UnwatchedSound(c: ClientView, sc: Scene, stream: seq<Buffer>)
    requires !c.removing && c.sending == [] && c.bufpos == -1 && Sound(c, sc.total, stream, sc.resend)
    ensures var c1 := c.(source := false);
            LoadOutcome(if c.flushcount == 0 then Flushed(c1) else Wait(c1), c, sc, stream)
  {
    SendingKept(c, c.(source := false), sc.total, sc.total, stream, sc.resend);
  }

  /** A client that picks, having been placed before, or being flushed. */
  lemma GoingOnMayPick(c: ClientView, sc: Scene, stream: seq<Buffer>)
    requires !c.removing && 0 <= c.bufpos < |sc.queue| && c.sending == [] && (c.newConnection ==> c.status == Flushing)
    requires Sound(c, sc.total, stream, sc.resend)
    ensures MayPick(c, sc, stream)
  {
  }

  lemma LoadSound(c: ClientView, sc: Scene, stream: seq<Buffer>)
    requires !c.removing && CursorInside(c, sc.queue) && OffsetInside(c) && SceneMatches(sc, stream)
    requires Sound(c, sc.total, stream, sc.resend)
    ensures LoadOutcome(Load(c, sc), c, sc, stream)
  {
    if c.sending == [] {
      if c.bufpos == -1 {
        UnwatchedSound(c, sc, stream);
      } else if c.newConnection && c.status != Flushing {
        PlaceSound(c, NewPosition(sc.queue, c.bufpos, c.sync, c.burst), sc, stream);
      } else {
        GoingOnMayPick(c, sc, stream);
        PickSound(c, c, sc, stream);
      }
    }
  }

  // ---- Sending ----

  lemma SliceSplits(bytes: seq<byte>, rest: seq<byte>, offset: nat, n: nat)
    requires offset + n <= |bytes|
    ensures var all := bytes + rest;
            && all[offset..] == bytes[offset..offset + n] + all[offset + n..]
            && (n == |bytes| - offset ==> all[offset + n..] == rest)
  {
  }

  /** Bytes move from the front of the sending list to the wire. */
  lemma SendSplits(wire: seq<byte>, sending: seq<Buffer>, offset: nat, n: nat)
    requires sending != [] && OffsetFits(sending, offset) && offset + n <= sending[0].Size()
    ensures wire + RestOf(sending, offset)
            == wire + sending[0].bytes[offset..offset + n]
               + (if n < sending[0].Size() - offset then RestOf(sending, offset + n) else RestOf(sending[1..], 0))
  {
    SliceSplits(sending[0].bytes, BytesOf(sending[1..]), offset, n);
  }

  /** What a send leaves on the sending list, and what it puts on the wire. */
  lemma AfterSendFields(c: ClientView, n: nat)
    requires c.sending != [] && c.bufoffset + n <= c.sending[0].Size()
    ensures var r := AfterSend(c, n);
            && r.trail.items == c.trail.items && r.bytesSent == c.bytesSent + n
            && r.trail.wire == c.trail.wire + c.sending[0].bytes[c.bufoffset..c.bufoffset + n]
            && (if n < c.sending[0].Size() - c.bufoffset then r.sending == c.sending && r.bufoffset == c.bufoffset + n
                else r.sending == c.sending[1..] && r.bufoffset == 0)
  {
  }

  lemma SendMovesBytes(c: ClientView, n: nat)
    requires c.sending != [] && OffsetInside(c) && c.bufoffset + n <= c.sending[0].Size()
    ensures var r := AfterSend(c, n);
            && r.trail.wire + RestOf(r.sending, r.bufoffset) == c.trail.wire + RestOf(c.sending, c.bufoffset)
            && |r.trail.wire| == |c.trail.wire| + n && r.bytesSent == c.bytesSent + n && r.trail.items == c.trail.items
  {
    AfterSendFields(c, n);
    SendSplits(c.trail.wire, c.sending, c.bufoffset, n);
  }

  lemma AfterSendDelivers(c: ClientView, n: nat)
    requires c.sending != [] && OffsetInside(c) && c.bufoffset + n <= c.sending[0].Size()
    requires Delivers(c)
    ensures Delivers(AfterSend(c, n))
  {
    SendMovesBytes(c, n);
    SameBytes(c, AfterSend(c, n));
  }

  /** Delivery holds again when the wire and the sending list together show the same bytes. */
  lemma SameBytes(c: ClientView, r: ClientView)
    requires Delivers(c) && OffsetInside(r) && r.trail.items == c.trail.items && r.bytesSent == |r.trail.wire|
    requires r.trail.wire + RestOf(r.sending, r.bufoffset) == c.trail.wire + RestOf(c.sending, c.bufoffset)
    ensures Delivers(r)
  {
  }

  lemma DeliversPrefix(c: ClientView)
    requires Delivers(c)
    ensures WireIsPrefix(c)
  {
  }

  lemma HeadAndRest(s: seq<Buffer>)
    requires s != []
    ensures multiset(s) == multiset{s[0]} + multiset(s[1..])
  {
    assert s == [s[0]] + s[1..];
  }

  lemma AfterSendRefs(c: ClientView, n: nat)
    requires c.sending != [] && c.bufoffset + n <= c.sending[0].Size() && RefsBalance(c)
    ensures RefsBalance(AfterSend(c, n))
  {
    var r := AfterSend(c, n);
    HeadAndRest(c.sending);
    assert r.trail.items == c.trail.items && r.trail.taken == c.trail.taken;
    if n < c.sending[0].Size() - c.bufoffset {
      assert r.trail.released == c.trail.released && r.sending == c.sending;
    } else {
      assert r.trail.released == c.trail.released + multiset{c.sending[0]} && r.sending == c.sending[1..];
    }
  }

  lemma AfterSendSound(c: ClientView, n: nat, total: nat, stream: seq<Buffer>, resend: bool)
    requires !c.removing && c.sending != [] && OffsetInside(c) && c.bufoffset + n <= c.sending[0].Size()
    requires Sound(c, total, stream, resend)
    ensures Sound(AfterSend(c, n), total, stream, resend)
  {
    var r := AfterSend(c, n);
    AfterSendDelivers(c, n);
    DeliversPrefix(r);
    AfterSendRefs(c, n);
    AfterSendFields(c, n);
    assert MarkNow(r, total) == MarkNow(c, total);
    assert NumbersHold(r, total) && LogMatches(r, stream);
  }

  /** The client a write event leaves is sound, or can be removed; one that flushed sent all it had. */
  ghost predicate WriteOutcome(w: Written, handle: Handle, sc: Scene, stream: seq<Buffer>) {
    && w.client.handle == handle && !w.client.removing
    && CursorInside(w.client, sc.queue)
    && (w.stays ==> Sound(w.client, sc.total, stream, sc.resend))
    && (!w.stays ==> !Active(w.client) && Leaving(w.client, sc.total, stream, sc.resend))
    && (w.client.trail.flushed <==> w.client.status == Removed)
  }

  /** With nothing on the sending list everything queued is on the wire. */
  lemma AllDelivered(c: ClientView)
    requires c.sending == [] && Delivers(c)
    ensures c.trail.wire == Queued(c)
  {
    assert RestOf(c.sending, c.bufoffset) == [];
  }

  lemma FlushEndedLeaves(c: ClientView, sc: Scene, stream: seq<Buffer>)
    requires !c.removing && Sending(c, sc.total, stream, sc.resend) && CursorInside(c, sc.queue)
    requires KeyframeFirst(c, stream) && c.sending == [] && c.flushcount == 0
    ensures WriteOutcome(Written(FlushEnded(c), false), c.handle, sc, stream)
  {
    var r := FlushEnded(c);
    AllDelivered(c);
    RecordKept(c, r, stream, sc.resend);
    AccountsKept(c, r, MarkNow(c, sc.total));
    assert Queued(r) == Queued(c) && EndOf(r, sc.total) == MarkNow(c, sc.total);
  }

  lemma BrokenLeaves(c: ClientView, status: Status, sc: Scene, stream: seq<Buffer>)
    requires !c.removing && Sound(c, sc.total, stream, sc.resend) && CursorInside(c, sc.queue)
    requires status == Closed || status == Failed
    ensures WriteOutcome(Written(c.(status := status), false), c.handle, sc, stream)
  {
    GivenUpLeaves(c, status, sc.total, stream, sc.resend);
  }

  lemma StaysSound(c: ClientView, sc: Scene, stream: seq<Buffer>)
    requires !c.removing && Sound(c, sc.total, stream, sc.resend) && CursorInside(c, sc.queue)
    ensures WriteOutcome(Written(c, true), c.handle, sc, stream)
  {
  }

  /** A round ends the loop with such a client, or goes on with one that is sound. */
  ghost predicate RoundOutcome(r: RoundResult, handle: Handle, sc: Scene, stream: seq<Buffer>) {
    match r
    case Ends(w) => WriteOutcome(w, handle, sc, stream)
    case Goes(c) => c.handle == handle && !c.removing && Sound(c, sc.total, stream, sc.resend)
  }

  lemma AnswerSound(c: ClientView, reply: Reply, sc: Scene, stream: seq<Buffer>)
    requires !c.removing && CursorInside(c, sc.queue) && OffsetInside(c)
    requires c.sending != [] && Sound(c, sc.total, stream, sc.resend)
    ensures RoundOutcome(Answer(c, reply), c.handle, sc, stream)
  {
    match reply
    case WouldBlock => StaysSound(c, sc, stream);
    case Reset => BrokenLeaves(c, Closed, sc, stream);
    case Broken => BrokenLeaves(c, Failed, sc, stream);
    case Accepts(k) => AfterSendSound(c, Accepted(c, k), sc.total, stream, sc.resend);
  }

  lemma ProceedSound(r: Ready, c: ClientView, sc: Scene, reply: Option<Reply>, stream: seq<Buffer>)
    requires LoadOutcome(r, c, sc, stream) && CursorInside(r.client, sc.queue)
    requires r.Loaded? ==> r.client.sending != [] && OffsetInside(r.client)
    ensures RoundOutcome(Proceed(r, reply), c.handle, sc, stream)
  {
    match r
    case Wait(c1) => StaysSound(c1, sc, stream);
    case Flushed(c1) => FlushEndedLeaves(c1, sc, stream);
    case Loaded(c1) =>
      if reply == None {
        StaysSound(c1, sc, stream);
      } else {
        AnswerSound(c1, reply.value, sc, stream);
      }
  }

  lemma RoundSound(c: ClientView, sc: Scene, reply: Option<Reply>, stream: seq<Buffer>)
    requires !c.removing && CursorInside(c, sc.queue) && OffsetInside(c) && SceneMatches(sc, stream)
    requires Sound(c, sc.total, stream, sc.resend)
    ensures RoundOutcome(Round(c, sc, reply), c.handle, sc, stream)
  {
    LoadSound(c, sc, stream);
    ProceedSound(Load(c, sc), c, sc, reply, stream);
  }

  /** One round of the write loop. */
  lemma WriteStep(c: ClientView, sc: Scene, replies: seq<Reply>)
    requires CursorInside(c, sc.queue) && OffsetInside(c)
    ensures var r := Round(c, sc, FirstOf(replies));
            Write(c, sc, replies) == if r.Goes? then Write(r.client, sc, replies[1..]) else r.written
  {
  }

  /** The invariant of the write loop, for every sequence of replies. */
  lemma {:induction false} WriteSound(c: ClientView, sc: Scene, replies: seq<Reply>, stream: seq<Buffer>)
    requires !c.removing && CursorInside(c, sc.queue) && OffsetInside(c) && SceneMatches(sc, stream)
    requires Sound(c, sc.total, stream, sc.resend)
    ensures WriteOutcome(Write(c, sc, replies), c.handle, sc, stream)
    decreases |replies|
  {
    RoundSound(c, sc, FirstOf(replies), stream);
    match Round(c, sc, FirstOf(replies))
    case Ends(_) =>
    case Goes(c1) => WriteSound(c1, sc, replies[1..], stream);
  }

  // ---- What a write event does not count ----

  lemma PickCounts(c: ClientView, sc: Scene)
    requires 0 <= c.bufpos < |sc.queue|
    ensures SameCounts(c, PickUnlessFlushed(c, sc).client)
  {
  }

  lemma PlaceCounts(c: ClientView, p: Placement, sc: Scene)
    requires -1 <= p.position < |sc.queue| && -1 <= p.bufpos < |sc.queue| && OffsetInside(c)
    ensures SameCounts(c, Place(c, p, sc).client)
  {
    if p.position >= 0 {
      PickCounts(StartAt(c.(bufpos := p.bufpos, sync := p.sync), p.position, sc.total), sc);
    }
  }

  lemma LoadCounts(c: ClientView, sc: Scene)
    requires CursorInside(c, sc.queue) && OffsetInside(c)
    ensures SameCounts(c, Load(c, sc).client)
  {
    if c.sending == [] && c.bufpos != -1 {
      PickCounts(c, sc);
      PlaceCounts(c, NewPosition(sc.queue, c.bufpos, c.sync, c.burst), sc);
    }
  }

  /** Whether the history of visits, drops and the flush is the same in both. */
  ghost predicate SameHistory(c: ClientView, r: ClientView) {
    && r.trail.visits == c.trail.visits && r.trail.joined == c.trail.joined && r.dropped == c.dropped
    && r.trail.flush == c.trail.flush && r.trail.flushTo == c.trail.flushTo
    && (r.status == c.status || r.status == Removed || r.status == Closed || r.status == Failed)
  }

  lemma RoundHistory(c: ClientView, sc: Scene, reply: Option<Reply>)
    requires CursorInside(c, sc.queue) && OffsetInside(c)
    ensures var r := Round(c, sc, reply);
            SameHistory(c, if r.Goes? then r.client else r.written.client) && (r.Goes? ==> r.client.status == c.status)
  {
    LoadCounts(c, sc);
    match Load(c, sc)
    case Wait(_) =>
    case Flushed(_) =>
    case Loaded(c1) =>
      if reply != None {
        AnswerHistory(c1, reply.value);
      }
  }

  lemma AnswerHistory(c: ClientView, reply: Reply)
    requires c.sending != [] && OffsetInside(c)
    ensures var r := Answer(c, reply);
            SameHistory(c, if r.Goes? then r.client else r.written.client) && (r.Goes? ==> r.client.status == c.status)
  {
  }

  lemma {:induction false} WriteHistory(c: ClientView, sc: Scene, replies: seq<Reply>)
    requires CursorInside(c, sc.queue) && OffsetInside(c)
    ensures SameHistory(c, Write(c, sc, replies).client)
    decreases |replies|
  {
    RoundHistory(c, sc, FirstOf(replies));
    match Round(c, sc, FirstOf(replies))
    case Ends(_) =>
    case Goes(c1) => WriteHistory(c1, sc, replies[1..]);
  }
}

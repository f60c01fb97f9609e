/** What a socket event comes to, told from the condition, from what the socket answers, and from the client before. */
module Events {
  import opened Basics
  import opened Buffers
  import opened Limits
  import opened Positions
  import opened Clients
  import opened ClientSafety
  import opened WriteSafety
  import opened Draining
  import opened Outcomes
  import opened Sink
  import opened SinkSafety
  import opened Membership
  import opened Runs

  // ---- Reading ----

  /** The first read that does not get data, or the number of reads. */
  function FirstNotGot(incoming: seq<ReadReply>): (k: nat)
    ensures k <= |incoming| && (k < |incoming| ==> incoming[k] != Got)
    ensures forall j :: 0 <= j < k ==> incoming[j] == Got
  {
    if incoming == [] || incoming[0] != Got then 0 else FirstNotGot(incoming[1..]) + 1
  }

  /** The status a client is given up with when it has been read from, if it is. */
  function EndOfReading(incoming: seq<ReadReply>, first: bool): Option<Status> {
    var k := FirstNotGot(incoming);
    if k == |incoming| then None
    else if incoming[k] == ReadError then Some(Failed)
    else if incoming[k] == Empty && k == 0 && first then Some(Closed)
    else None
  }

  /** What is left of client `c` when it is given up for the reason given, or kept. */
  function Concludes(c: ClientView, reason: Option<Status>): Written {
    if reason == None then Written(c, true) else Written(c.(status := reason.value), false)
  }

  lemma {:induction false} ReadIs(c: ClientView, incoming: seq<ReadReply>, first: bool)
    ensures var e := EndOfReading(incoming, first);
            Read(c, incoming, first) == Concludes(c, e)
    decreases |incoming|
  {
    if incoming != [] && incoming[0].Got? {
      ReadIs(c, incoming[1..], false);
    }
  }

  // ---- Events ----

  /** Client `i` leaves for the reason given, or nothing changes. */
  ghost predicate EndsAs(s: SinkView, r: SinkView, i: nat, reason: Option<Status>)
    requires i < |s.clients|
  {
    match reason
    case None => r == s
    case Some(status) => LeavesAs(s, r, i, status)
  }

  lemma EndsAsHandles(s: SinkView, r: SinkView, i: nat, reason: Option<Status>)
    requires i < |s.clients| && s.clients[i].handle in s.handles && EndsAs(s, r, i, reason)
    ensures s.clients[i].handle !in r.handles <==> reason != None
  {
  }

  /** A listed client whose removal has not begun, at its place. */
  ghost predicate Serves(s: SinkView, h: Handle, i: int) {
    h in s.handles && i == IndexOf(s.clients, h) && 0 <= i < |s.clients| && !s.clients[i].removing
  }

  /** A client that is served can be written to. */
  lemma ServedIsWritable(cfg: Config, s: SinkView, h: Handle, i: int)
    requires Inv(cfg, s) && Serves(s, h, i)
    ensures CursorsInside(s) && Active(s.clients[i]) && Writable(s.clients[i], SceneOf(cfg, s))
    ensures !s.clients[i].trail.flushed
  {
    InvCursors(cfg, s);
    assert Fit(s.clients[i], s.queue, s.past.stream, cfg.resend);
  }

  /** The state when client `i` has become `c` by writing. */
  function HasSent(s: SinkView, i: nat, c: ClientView): SinkView
    requires i < |s.clients|
  {
    s.(clients := s.clients[i := c], bytesServed := s.bytesServed + (c.bytesSent - s.clients[i].bytesSent))
  }

  lemma SettleStays(s: SinkView, i: nat, c: ClientView)
    requires i < |s.clients|
    ensures Settle(s, i, Written(c, true), false) == HasSent(s, i, c)
  {
  }

  lemma SettleLeaves(s: SinkView, i: nat, c: ClientView, status: Status)
    requires i < |s.clients| && !c.removing && status != Slow
    ensures LeavesAs(HasSent(s, i, c), Settle(s, i, Written(c.(status := status), false), false), i, status)
  {
    var s1 := HasSent(s, i, c);
    assert SetClient(s1, i, s1.clients[i].(status := status)) == Served(s, i, c.(status := status));
    RemoveAsLeaves(s1, i, status);
  }

  lemma SettleEnds(s: SinkView, i: nat, c: ClientView, reason: Option<Status>)
    requires i < |s.clients| && !c.removing && reason != Some(Slow)
    ensures EndsAs(HasSent(s, i, c), Settle(s, i, Concludes(c, reason), false), i, reason)
  {
    if reason == None {
      SettleStays(s, i, c);
    } else {
      SettleLeaves(s, i, c, reason.value);
    }
  }

  lemma SocketIsRead(cfg: Config, s: SinkView, h: Handle, i: int, cond: Condition, incoming: seq<ReadReply>,
                     replies: seq<Reply>)
    requires CursorsInside(s) && Serves(s, h, i) && Active(s.clients[i]) && !cond.err && !cond.hup && cond.readable
    ensures SocketCondition(cfg, s, h, cond, incoming, replies, false)
            == Settle(s, i, Read(s.clients[i], incoming, true), false)
  {
  }

  lemma SocketIsWritten(cfg: Config, s: SinkView, h: Handle, i: int, cond: Condition, incoming: seq<ReadReply>,
                        replies: seq<Reply>)
    requires CursorsInside(s) && Serves(s, h, i) && Active(s.clients[i])
    requires cond == Condition(false, false, false, true)
    ensures SocketCondition(cfg, s, h, cond, incoming, replies, false)
            == Settle(s, i, Write(s.clients[i], SceneOf(cfg, s), replies), false)
  {
  }

  /** A socket that can be read from, in order otherwise: the client leaves as closed if the first read finds the
      connection closed, as failed if a read fails behind others that got data; else nothing changes, also if the socket
      can be written to. */
  lemma ReadableSocket(cfg: Config, s: SinkView, h: Handle, i: int, writable: bool, incoming: seq<ReadReply>,
                       replies: seq<Reply>)
    requires Inv(cfg, s) && Serves(s, h, i)
    ensures CursorsInside(s)
    ensures var r := SocketCondition(cfg, s, h, Condition(false, false, true, writable), incoming, replies, false);
            EndsAs(s, r, i, EndOfReading(incoming, true))
  {
    ServedIsWritable(cfg, s, h, i);
    SocketIsRead(cfg, s, h, i, Condition(false, false, true, writable), incoming, replies);
    var c, e := s.clients[i], EndOfReading(incoming, true);
    ReadIs(c, incoming, true);
    NothingSent(s, i);
    SettleEnds(s, i, c, e);
  }

  lemma NothingSent(s: SinkView, i: nat)
    requires i < |s.clients|
    ensures HasSent(s, i, s.clients[i]) == s
  {
    assert s.clients[i := s.clients[i]] == s.clients;
  }

  /** The status a client is given up with when it has been written to, if it is: `before` is what the answers before
      the first refusal left of it. */
  function EndOfWriting(before: ClientView, replies: seq<Reply>): Option<Status> {
    var k := FirstRefusal(replies);
    if before.trail.flushed then Some(Removed)
    else if before.sending == [] || k == |replies| || replies[k] == WouldBlock then None
    else if replies[k] == Reset then Some(Closed)
    else Some(Failed)
  }

  /** A socket that can be written to and not read from, in order otherwise: the client sends what the answers before
      the first refusal take; then it leaves as removed if its flush has ended, as closed or failed if the refusal met
      something to send and was a reset or a failure, and stays otherwise. */
  lemma WritableSocket(cfg: Config, s: SinkView, h: Handle, i: int, incoming: seq<ReadReply>, replies: seq<Reply>)
    requires Inv(cfg, s) && Serves(s, h, i)
    ensures CursorsInside(s) && CursorInside(s.clients[i], s.queue) && OffsetInside(s.clients[i])
    ensures var r := SocketCondition(cfg, s, h, Condition(false, false, false, true), incoming, replies, false);
            var before := Write(s.clients[i], SceneOf(cfg, s), replies[..FirstRefusal(replies)]).client;
            && EndsAs(HasSent(s, i, before), r, i, EndOfWriting(before, replies))
            && (EndOfWriting(before, replies) == None ==> before.status == s.clients[i].status)
  {
    ServedIsWritable(cfg, s, h, i);
    WriteOfListed(cfg, s, i, replies[..FirstRefusal(replies)]);
    WriterSettles(cfg, s, h, i, incoming, replies);
  }

  lemma WriterSettles(cfg: Config, s: SinkView, h: Handle, i: int, incoming: seq<ReadReply>, replies: seq<Reply>)
    requires CursorsInside(s) && Serves(s, h, i) && Active(s.clients[i]) && !s.clients[i].trail.flushed
    requires Writable(s.clients[i], SceneOf(cfg, s))
    requires !Write(s.clients[i], SceneOf(cfg, s), replies[..FirstRefusal(replies)]).client.removing
    ensures var r := SocketCondition(cfg, s, h, Condition(false, false, false, true), incoming, replies, false);
            var before := Write(s.clients[i], SceneOf(cfg, s), replies[..FirstRefusal(replies)]).client;
            && EndsAs(HasSent(s, i, before), r, i, EndOfWriting(before, replies))
            && (EndOfWriting(before, replies) == None ==> before.status == s.clients[i].status)
  {
    SocketIsWritten(cfg, s, h, i, Condition(false, false, false, true), incoming, replies);
    WriteIsAnswered(s.clients[i], SceneOf(cfg, s), replies);
    var before := Write(s.clients[i], SceneOf(cfg, s), replies[..FirstRefusal(replies)]).client;
    SettleEnds(s, i, before, EndOfWriting(before, replies));
  }

  /** What a write event comes to, in terms of how it ends. */
  lemma WriteIsAnswered(c: ClientView, sc: Scene, replies: seq<Reply>)
    requires Writable(c, sc) && !c.trail.flushed
    ensures var before := Write(c, sc, replies[..FirstRefusal(replies)]).client;
            var e := EndOfWriting(before, replies);
            && Write(c, sc, replies) == Concludes(before, e)
            && (e == None ==> before.status == c.status)
  {
    var before := Write(c, sc, replies[..FirstRefusal(replies)]).client;
    ClientLeavesIff(c, sc, replies);
    WriteUnrefused(c, sc, replies[..FirstRefusal(replies)]);
    assert before.trail.flushed ==> before.(status := Removed) == before;
  }

  /** Nothing happens without a condition, for a handle that is not listed, or for a client that is being removed. */
  lemma NothingHappens(cfg: Config, s: SinkView, h: Handle, cond: Condition, incoming: seq<ReadReply>,
                       replies: seq<Reply>, window: bool)
    requires Inv(cfg, s)
    requires cond == Condition(false, false, false, false) || !Serves(s, h, IndexOf(s.clients, h))
    ensures CursorsInside(s) && SocketCondition(cfg, s, h, cond, incoming, replies, window) == s
  {
    InvCursors(cfg, s);
    var i := IndexOf(s.clients, h);
    if h in s.handles && i != -1 {
      assert Fit(s.clients[i], s.queue, s.past.stream, cfg.resend);
    }
  }

  /** Why a client leaves by an event of its socket, if it does. */
  function EndByEvent(cfg: Config, s: SinkView, i: nat, cond: Condition, incoming: seq<ReadReply>, replies: seq<Reply>)
    : Option<Status>
    requires i < |s.clients| && CursorInside(s.clients[i], s.queue) && OffsetInside(s.clients[i])
  {
    if cond.err then Some(Failed)
    else if cond.hup then Some(Closed)
    else if cond.readable then EndOfReading(incoming, true)
    else if cond.writable then
      EndOfWriting(Write(s.clients[i], SceneOf(cfg, s), replies[..FirstRefusal(replies)]).client, replies)
    else None
  }

  lemma WriterLeavesIff(cfg: Config, s: SinkView, h: Handle, i: int, incoming: seq<ReadReply>, replies: seq<Reply>)
    requires Inv(cfg, s) && Serves(s, h, i)
    ensures CursorsInside(s) && CursorInside(s.clients[i], s.queue) && OffsetInside(s.clients[i])
    ensures var cond := Condition(false, false, false, true);
            h !in SocketCondition(cfg, s, h, cond, incoming, replies, false).handles
            <==> EndByEvent(cfg, s, i, cond, incoming, replies) != None
  {
    WritableSocket(cfg, s, h, i, incoming, replies);
    var before := Write(s.clients[i], SceneOf(cfg, s), replies[..FirstRefusal(replies)]).client;
    WriteOfListed(cfg, s, i, replies[..FirstRefusal(replies)]);
    var r := SocketCondition(cfg, s, h, Condition(false, false, false, true), incoming, replies, false);
    EndsAsHandles(HasSent(s, i, before), r, i, EndOfWriting(before, replies));
  }

  lemma ReaderLeavesIff(cfg: Config, s: SinkView, h: Handle, i: int, writable: bool, incoming: seq<ReadReply>,
                        replies: seq<Reply>)
    requires Inv(cfg, s) && Serves(s, h, i)
    ensures CursorsInside(s)
    ensures h !in SocketCondition(cfg, s, h, Condition(false, false, true, writable), incoming, replies, false).handles
            <==> EndOfReading(incoming, true) != None
  {
    ReadableSocket(cfg, s, h, i, writable, incoming, replies);
  }

  lemma LeavesIff(cfg: Config, s: SinkView, h: Handle, i: int, cond: Condition, incoming: seq<ReadReply>,
                  replies: seq<Reply>)
    requires Inv(cfg, s) && Serves(s, h, i)
    ensures CursorsInside(s) && CursorInside(s.clients[i], s.queue) && OffsetInside(s.clients[i])
    ensures h !in SocketCondition(cfg, s, h, cond, incoming, replies, false).handles
            <==> EndByEvent(cfg, s, i, cond, incoming, replies) != None
  {
    ServedIsWritable(cfg, s, h, i);
    if cond.err || cond.hup {
      BrokenSocketLeaves(cfg, s, h, cond, incoming, replies);
    } else if cond.readable {
      ReaderLeavesIff(cfg, s, h, i, cond.writable, incoming, replies);
    } else if cond.writable {
      WriterLeavesIff(cfg, s, h, i, incoming, replies);
    } else {
      NothingHappens(cfg, s, h, cond, incoming, replies, false);
    }
  }

  /** Over every run: a client leaves by an event of its socket exactly on an error or hangup; if the socket can be read
      from and the connection is found closed or a read fails; or if it can only be written to, and the flush ends or
      there is something to send when the first answer that refuses is a reset or a failure. */
  lemma ClientsLeaveIff(cfg: Config, caps: Caps, es: seq<Event>, h: Handle, i: int, cond: Condition,
                        incoming: seq<ReadReply>, replies: seq<Reply>)
    requires Serves(After(cfg, caps, es), h, i)
    ensures CursorInside(After(cfg, caps, es).clients[i], After(cfg, caps, es).queue)
    ensures OffsetInside(After(cfg, caps, es).clients[i])
    ensures h !in After(cfg, caps, es + [SocketE(h, cond, incoming, replies, false)]).handles
            <==> EndByEvent(cfg, After(cfg, caps, es), i, cond, incoming, replies) != None
  {
    AfterInv(cfg, caps, es);
    AfterSocket(cfg, caps, es, h, cond, incoming, replies);
    LeavesIff(cfg, After(cfg, caps, es), h, i, cond, incoming, replies);
  }

  // ---- The window of a removal ----

  /** A removal that stops in the window is completed later. */
  lemma WindowOf(s: SinkView, h: Handle, i: nat)
    requires i == IndexOf(s.clients, h) < |s.clients| && !s.clients[i].removing
    ensures EndRemoval(RemoveLink(s, i, true), h) == RemoveLink(s, i, false)
  {
    IndexOfChanged(s.clients, i, BeginRemoval(s.clients[i], Total(s)), h);
  }

  lemma SettleWindow(s: SinkView, h: Handle, i: nat, w: Written)
    requires i == IndexOf(s.clients, h) < |s.clients| && !w.client.removing && w.client.handle == h
    ensures if w.stays then Settle(s, i, w, true) == Settle(s, i, w, false)
            else EndRemoval(Settle(s, i, w, true), h) == Settle(s, i, w, false)
  {
    IndexOfChanged(s.clients, i, w.client, h);
    if !w.stays {
      WindowOf(Served(s, i, w.client), h, i);
    }
  }

  lemma RemoveAsWindow(s: SinkView, h: Handle, i: nat, status: Status)
    requires i == IndexOf(s.clients, h) < |s.clients| && !s.clients[i].removing
    ensures EndRemoval(RemoveAs(s, i, status, true), h) == RemoveAs(s, i, status, false)
  {
    IndexOfChanged(s.clients, i, s.clients[i].(status := status), h);
    WindowOf(SetClient(s, i, s.clients[i].(status := status)), h, i);
  }

  /** An event whose removal stops in the window comes, with its second half, to the same as one without a window. */
  lemma SocketWindow(cfg: Config, s: SinkView, h: Handle, cond: Condition, incoming: seq<ReadReply>,
                     replies: seq<Reply>)
    requires Inv(cfg, s)
    ensures CursorsInside(s)
    ensures var full := SocketCondition(cfg, s, h, cond, incoming, replies, false);
            var part := SocketCondition(cfg, s, h, cond, incoming, replies, true);
            part == full || EndRemoval(part, h) == full
  {
    InvCursors(cfg, s);
    var i := IndexOf(s.clients, h);
    if !Serves(s, h, i) {
      NothingHappens(cfg, s, h, cond, incoming, replies, false);
      NothingHappens(cfg, s, h, cond, incoming, replies, true);
    } else {
      ServedIsWritable(cfg, s, h, i);
      var c := s.clients[i];
      if cond.err {
        RemoveAsWindow(s, h, i, Failed);
      } else if cond.hup {
        RemoveAsWindow(s, h, i, Closed);
      } else if cond.readable {
        ReadSound(c, incoming, true);
        SettleWindow(s, h, i, Read(c, incoming, true));
      } else if cond.writable {
        WriteOfListed(cfg, s, i, replies);
        SettleWindow(s, h, i, Write(c, SceneOf(cfg, s), replies));
      }
    }
  }

  lemma WriteOfListed(cfg: Config, s: SinkView, i: nat, replies: seq<Reply>)
    requires Inv(cfg, s) && i < |s.clients| && !s.clients[i].removing
    ensures CursorInside(s.clients[i], s.queue) && OffsetInside(s.clients[i])
    ensures var r := Write(s.clients[i], SceneOf(cfg, s), replies).client;
            !r.removing && r.handle == s.clients[i].handle
  {
    assert Fit(s.clients[i], s.queue, s.past.stream, cfg.resend);
    WriteSound(s.clients[i], SceneOf(cfg, s), replies, s.past.stream);
  }

  // ---- Flushing ----

  lemma {:induction false} NothingRefused(replies: seq<Reply>)
    requires OnlyAccepts(replies)
    ensures FirstRefusal(replies) == |replies| && replies[..FirstRefusal(replies)] == replies
  {
    if replies != [] {
      NothingRefused(replies[1..]);
    }
  }

  /** A client that can be flushed, written to a socket that goes on taking bytes. */
  lemma FlushEnds(c: ClientView, sc: Scene, replies: seq<Reply>)
    requires Writable(c, sc) && CanSend(c) && SceneSendable(sc) && CanBeFlushed(c)
    requires forall k :: 0 <= k < |replies| ==> replies[k].Accepts? && replies[k].bytes > 0
    requires |replies| >= Backlog(c, sc)
    ensures var before := Write(c, sc, replies[..FirstRefusal(replies)]).client;
            && before == Write(c, sc, replies).client && before.sending == []
            && EndOfWriting(before, replies) == Some(Removed)
  {
    NothingRefused(replies);
    DrainFlushesIff(c, sc, replies);
    WriteUnrefused(c, sc, replies);
  }

  /** A flush that has begun ends with the next write event whose socket goes on taking bytes: the client leaves as
      removed, with nothing left to send. */
  lemma FlushCompletes(cfg: Config, s: SinkView, h: Handle, i: int, incoming: seq<ReadReply>, replies: seq<Reply>)
    requires Inv(cfg, s) && Serves(s, h, i) && CanBeFlushed(s.clients[i])
    requires CanSend(s.clients[i]) && SceneSendable(SceneOf(cfg, s))
    requires CursorInside(s.clients[i], s.queue) && OffsetInside(s.clients[i])
    requires forall k :: 0 <= k < |replies| ==> replies[k].Accepts? && replies[k].bytes > 0
    requires |replies| >= Backlog(s.clients[i], SceneOf(cfg, s))
    ensures CursorsInside(s)
    ensures var r := SocketCondition(cfg, s, h, Condition(false, false, false, true), incoming, replies, false);
            var before := Write(s.clients[i], SceneOf(cfg, s), replies).client;
            LeavesAs(HasSent(s, i, before), r, i, Removed) && before.sending == []
  {
    ServedIsWritable(cfg, s, h, i);
    FlushEnds(s.clients[i], SceneOf(cfg, s), replies);
    WritableSocket(cfg, s, h, i, incoming, replies);
  }

  // ---- Who is listed after each event ----

  lemma AddHandles(s: SinkView, h: Handle, sync: SyncMethod, burst: BurstSpec)
    ensures AddFull(s, h, sync, burst).handles
            == if s.running && !WrongLimits(burst) then s.handles + {h} else s.handles
  {
    assert h in s.handles ==> s.handles + {h} == s.handles;
  }

  /** Over every run: adding lists a handle, if the element runs and the burst asked for is not refused. */
  lemma AddLists(cfg: Config, caps: Caps, es: seq<Event>, h: Handle)
    ensures var s := After(cfg, caps, es);
            After(cfg, caps, es + [AddE(h)]).handles == if s.running then s.handles + {h} else s.handles
  {
    AfterAdd(cfg, caps, es, h);
    AddHandles(After(cfg, caps, es), h, cfg.defSync,
               BurstSpec(cfg.defBurstFormat, cfg.defBurstValue, cfg.defBurstFormat, UNSET));
  }

  lemma AddFullLists(cfg: Config, caps: Caps, es: seq<Event>, h: Handle, sync: SyncMethod, burst: BurstSpec)
    ensures var s := After(cfg, caps, es);
            After(cfg, caps, es + [AddFullE(h, sync, burst)]).handles
            == if s.running && !WrongLimits(burst) then s.handles + {h} else s.handles
  {
    AfterOneMore(cfg, caps, es, AddFullE(h, sync, burst));
    AddHandles(After(cfg, caps, es), h, sync, burst);
  }

  lemma AfterRemove(cfg: Config, caps: Caps, es: seq<Event>, h: Handle, window: bool)
    ensures After(cfg, caps, es + [RemoveE(h, window)]) == Remove(After(cfg, caps, es), h, window)
  {
    AfterOneMore(cfg, caps, es, RemoveE(h, window));
  }

  lemma AfterEndRemoval(cfg: Config, caps: Caps, es: seq<Event>, h: Handle)
    ensures After(cfg, caps, es + [EndRemovalE(h)]) == EndRemoval(After(cfg, caps, es), h)
  {
    AfterOneMore(cfg, caps, es, EndRemovalE(h));
  }

  /** Removing takes a client that is served off the list exactly if it is not flushing. */
  lemma RemoveUnlists(cfg: Config, caps: Caps, es: seq<Event>, h: Handle, i: int)
    requires Serves(After(cfg, caps, es), h, i)
    ensures var s := After(cfg, caps, es);
            After(cfg, caps, es + [RemoveE(h, false)]).handles
            == if s.clients[i].status == Ok then s.handles - {h} else s.handles
  {
    AfterInv(cfg, caps, es);
    AfterRemove(cfg, caps, es, h, false);
    RemoveTakesOut(cfg, After(cfg, caps, es), h);
  }

  /** A flush takes nobody off, but begins for a client that is served. */
  lemma FlushKeepsListed(cfg: Config, caps: Caps, es: seq<Event>, h: Handle, i: int)
    requires Serves(After(cfg, caps, es), h, i)
    ensures var s, r := After(cfg, caps, es), After(cfg, caps, es + [RemoveFlushE(h)]);
            r.handles == s.handles && |r.clients| == |s.clients| && r.clients[i].status == Flushing
  {
    AfterInv(cfg, caps, es);
    AfterOneMore(cfg, caps, es, RemoveFlushE(h));
    ServedIsWritable(cfg, After(cfg, caps, es), h, i);
    FlushBegins(cfg, After(cfg, caps, es), h);
  }

  /** A removal that stops in the window and is taken up again comes to the same as one that does not. */
  lemma InterruptedRemoval(cfg: Config, caps: Caps, es: seq<Event>, h: Handle, i: int)
    requires Serves(After(cfg, caps, es), h, i) && After(cfg, caps, es).clients[i].status == Ok
    ensures After(cfg, caps, es + [RemoveE(h, true)] + [EndRemovalE(h)]) == After(cfg, caps, es + [RemoveE(h, false)])
  {
    AfterInv(cfg, caps, es);
    AfterRemove(cfg, caps, es, h, true);
    AfterRemove(cfg, caps, es, h, false);
    AfterEndRemoval(cfg, caps, es + [RemoveE(h, true)], h);
    WindowChangesNothing(cfg, After(cfg, caps, es), h, false);
  }

  /** Clearing takes everybody off but the clients whose removal is under way. */
  lemma ClearUnlists(cfg: Config, caps: Caps, es: seq<Event>)
    ensures var s, r := After(cfg, caps, es), After(cfg, caps, es + [ClearE]);
            r.clients == BeingRemoved(s.clients) && SameButList(s, r)
  {
    AfterInv(cfg, caps, es);
    AfterOneMore(cfg, caps, es, ClearE);
    ClearEmpties(cfg, After(cfg, caps, es));
  }
}

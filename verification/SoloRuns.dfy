/** Runs with one client, which show where the element does not do what is said about it. */
module SoloRuns {
  import opened Basics
  import opened Buffers
  import opened Limits
  import opened Vectors
  import opened Positions
  import opened Clients
  import opened Headers
  import opened WriteSafety
  import opened Sink
  import opened SinkSafety
  import opened QueueSafety
  import opened Restarts
  import opened Runs
  import opened RunFacts
  import opened Membership
  import opened Witnesses

  /** The element runs and has one client, in order. */
  ghost predicate Solo(s: SinkView, c: ClientView, caps: Caps, stream: seq<Buffer>) {
    && s.running && s.clients == [c] && s.handles == {0} && s.caps == caps && s.past.stream == stream
    && c.handle == 0 && c.status == Ok && !c.removing
  }

  const STARTED := [StartE] + [AddE(0)]

  lemma SoloStarts(cfg: Config, caps: Caps) returns (c: ClientView)
    ensures Solo(After(cfg, caps, STARTED), c, caps, [])
    ensures c == NewClient(0, cfg.defSync,
                           BurstSpec(cfg.defBurstFormat, cfg.defBurstValue, cfg.defBurstFormat, UNSET), 0)
  {
    Started(cfg, caps);
    AfterAdd(cfg, caps, [StartE], 0);
    c := NewClient(0, cfg.defSync, BurstSpec(cfg.defBurstFormat, cfg.defBurstValue, cfg.defBurstFormat, UNSET), 0);
    assert [c] + [] == [c] && {} + {0} == {0};
  }

  // ---- Stopping during a removal ----

  /** A stop while another thread is between the two halves of a removal: the client stays on the list, and the table
      does not have it any more. */
  lemma StopDuringRemoval(cfg: Config, caps: Caps)
    ensures var s := After(cfg, caps, STARTED + [RemoveE(0, true)]);
            && Inv(cfg, s) && !Enabled(s, StopE) && !Inv(cfg, Stop(s))
            && |Stop(s).clients| == 1 && Stop(s).handles == {}
  {
    var c := SoloStarts(cfg, caps);
    var s0, s := After(cfg, caps, STARTED), After(cfg, caps, STARTED + [RemoveE(0, true)]);
    AfterOneMore(cfg, caps, STARTED, RemoveE(0, true));
    AfterInv(cfg, caps, STARTED + [RemoveE(0, true)]);
    assert s == Remove(s0, 0, true) == RemoveAs(s0, 0, Removed, true);
    assert s.clients == [BeginRemoval(c.(status := Removed), 0)];
    StopEmptiesIff(cfg, s);
    BeingRemovedSplit(s.clients, 0);
  }

  // ---- Recovery to a keyframe ----

  /** Clients that lag by three buffers are resynced to a keyframe; there are no other limits. */
  const RECOVERING := Config(Format.Buffers, -1, 3, ResyncKeyframe, SyncMethod.Latest, Undefined, 0, UNSET,
                             UNSET, UNSET, true)

  /** The only client waits at index `p`. */
  ghost predicate WaitsAt(es: seq<Event>, caps: Caps, p: int, stream: seq<Buffer>) {
    var s := After(RECOVERING, caps, es);
    s.running && |s.clients| == 1 && s.clients[0].bufpos == p && s.past.stream == stream
  }

  /** The client after one more buffer. */
  lemma SoloAdvances(es: seq<Event>, caps: Caps, p: int, stream: seq<Buffer>, b: Buffer)
    requires WaitsAt(es, caps, p, stream) && !b.header
    ensures var s := After(RECOVERING, caps, es);
            var r := Advance(s.clients[0], LimitOf(RECOVERING, [b] + s.queue));
            WaitsAt(es + [RenderE(b)], caps, r.bufpos, stream + [b])
  {
    var s := After(RECOVERING, caps, es);
    AfterRender(RECOVERING, caps, es, b);
    BriskQueueBuffer(RECOVERING, Noted(s, b), b);
    QueueBufferFrame(RECOVERING, Noted(s, b), b);
  }

  lemma SoloWaits(es: seq<Event>, caps: Caps, p: int, stream: seq<Buffer>, b: Buffer)
    requires WaitsAt(es, caps, p, stream) && !b.header && p < 2
    ensures WaitsAt(es + [RenderE(b)], caps, p + 1, stream + [b])
  {
    SoloAdvances(es, caps, p, stream, b);
  }

  function FourQueued(k0: Buffer, k1: Buffer, k2: Buffer, k3: Buffer): seq<Event> {
    STARTED + [RenderE(k0)] + [RenderE(k1)] + [RenderE(k2)] + [RenderE(k3)]
  }

  lemma ThreeQueued(caps: Caps, k0: Buffer, k1: Buffer, k2: Buffer)
    requires k0.IsSync() && k1.IsSync() && k2.IsSync()
    ensures WaitsAt(STARTED + [RenderE(k0)] + [RenderE(k1)] + [RenderE(k2)], caps, 2, [k0, k1, k2])
  {
    var c := SoloStarts(RECOVERING, caps);
    SoloWaits(STARTED, caps, -1, [], k0);
    SoloWaits(STARTED + [RenderE(k0)], caps, 0, [] + [k0], k1);
    SoloWaits(STARTED + [RenderE(k0)] + [RenderE(k1)], caps, 1, [] + [k0] + [k1], k2);
    assert [] + [k0] + [k1] + [k2] == [k0, k1, k2];
  }

  /** Of four keyframes, number 3 is the most recent one and the soft limit allows going there; the client that the
      fourth one makes lag too much is moved to number 1. */
  lemma KeyframeRecoveryTakesTheOldest(caps: Caps, k0: Buffer, k1: Buffer, k2: Buffer, k3: Buffer)
    requires k0.IsSync() && k1.IsSync() && k2.IsSync() && k3.IsSync()
    ensures var s := After(RECOVERING, caps, FourQueued(k0, k1, k2, k3));
            && |s.clients| == 1 && s.clients[0].bufpos == 2 && Next(s.clients[0], Total(s)) == 1
            && |s.queue| > 2 && s.queue[2] == k1 && s.queue[0] == k3
  {
    ThreeQueued(caps, k0, k1, k2);
    var es := STARTED + [RenderE(k0)] + [RenderE(k1)] + [RenderE(k2)];
    var s := After(RECOVERING, caps, es);
    CursorsStayInside(RECOVERING, caps, es);
    var q := [k3] + s.queue;
    assert s.queue[1] == k1 && q[2] == k1 && Recover(ResyncKeyframe, q, 3, 3) == 2;
    SoloAdvances(es, caps, 2, [k0, k1, k2], k3);
    CursorsStayInside(RECOVERING, caps, FourQueued(k0, k1, k2, k3));
    assert [k0, k1, k2] + [k3] == [k0, k1, k2, k3];
  }

  // ---- Headers that are not sent again ----

  /** Changed headers are not sent again; there are no limits. */
  const HOLDING := Config(Format.Buffers, -1, -1, NoRecovery, SyncMethod.Latest, Undefined, 0, UNSET, UNSET,
                          UNSET, false)

  /** What matters of a client in order: its cursor, whether it has yet to start, its caps, and what was queued to
      it. */
  datatype Sight = Sight(bufpos: int, waiting: bool, caps: Option<Caps>, items: seq<Item>)

  /** A client with these on its sending list. */
  ghost predicate Seen(c: ClientView, v: Sight, sending: seq<Buffer>) {
    && c.bufpos == v.bufpos && c.newConnection == v.waiting && c.caps == v.caps && c.trail.items == v.items
    && c.sending == sending && c.bufoffset == 0
    && c.handle == 0 && c.status == Ok && !c.removing && c.flushcount == -1 && c.sync == SyncMethod.Latest
  }

  /** The only client has sent all it picked. */
  ghost predicate SoloSeen(es: seq<Event>, caps: Caps, v: Sight, now: Caps, stream: seq<Buffer>) {
    var s := After(HOLDING, caps, es);
    |s.clients| == 1 && Solo(s, s.clients[0], now, stream) && Seen(s.clients[0], v, [])
  }

  /** A buffer of one byte. */
  ghost predicate OneByte(b: Buffer) { b.Sendable() && b.Size() == 1 }

  ghost predicate AllOneByte(bs: seq<Buffer>) { forall k :: 0 <= k < |bs| ==> OneByte(bs[k]) }

  /** What a client has to send for `buf` under `caps`. */
  function ToSend(v: Sight, buf: Buffer, caps: Caps): (r: seq<Buffer>)
    ensures r != []
  {
    BuffersOf(NewItems(v.caps, buf, caps, false))
  }

  /** The client when it has taken `buf`. */
  function Taken(v: Sight, buf: Buffer, caps: Caps): Sight {
    Sight(v.bufpos - 1, false, Some(caps), v.items + NewItems(v.caps, buf, caps, false))
  }

  lemma PickSeen(c: ClientView, v: Sight, sc: Scene)
    requires Seen(c, v, []) && !v.waiting && 0 <= v.bufpos < |sc.queue| && !sc.resend
    ensures Seen(Pick(c, sc), Taken(v, sc.queue[c.bufpos], sc.caps), ToSend(v, sc.queue[c.bufpos], sc.caps))
  {
    PickFields(c, sc);
    assert Pick(c, sc).sending == [] + BuffersOf(NewItems(c.caps, sc.queue[c.bufpos], sc.caps, false));
  }

  lemma LoadSeen(c: ClientView, v: Sight, sc: Scene)
    requires Seen(c, v, []) && 0 <= v.bufpos < |sc.queue| && !sc.resend
    ensures CursorInside(c, sc.queue) && OffsetInside(c) && Load(c, sc).Loaded?
    ensures Seen(Load(c, sc).client, Taken(v, sc.queue[c.bufpos], sc.caps), ToSend(v, sc.queue[c.bufpos], sc.caps))
  {
    if v.waiting {
      var c1 := StartAt(c, c.bufpos, sc.total);
      assert NewPosition(sc.queue, c.bufpos, c.sync, c.burst) == Placement(c.bufpos, c.bufpos, c.sync);
      assert c.(bufpos := c.bufpos, sync := c.sync) == c;
      assert Load(c, sc) == Loaded(Pick(c1, sc));
      PickSeen(c1, v.(waiting := false), sc);
    } else {
      PickSeen(c, v, sc);
    }
  }

  lemma SendsHead(c: ClientView, v: Sight, sending: seq<Buffer>)
    requires Seen(c, v, sending) && sending != [] && OneByte(sending[0])
    ensures OffsetInside(c)
    ensures Answer(c, Accepts(1)).Goes? && Seen(Answer(c, Accepts(1)).client, v, sending[1..])
  {
    assert Offer(sending[0].mems, 0, MAX_VECTORS) != [];
    assert Accepted(c, 1) == 1;
  }

  /** A round that loads a buffer and sends the head of the list. */
  lemma WriteLoads(c: ClientView, v: Sight, sc: Scene, rest: seq<Reply>) returns (c1: ClientView)
    requires Seen(c, v, []) && 0 <= v.bufpos < |sc.queue| && !sc.resend
    requires OneByte(ToSend(v, sc.queue[v.bufpos], sc.caps)[0])
    ensures CursorInside(c, sc.queue) && OffsetInside(c) && CursorInside(c1, sc.queue) && OffsetInside(c1)
    ensures Seen(c1, Taken(v, sc.queue[v.bufpos], sc.caps), ToSend(v, sc.queue[v.bufpos], sc.caps)[1..])
    ensures Write(c, sc, [Accepts(1)] + rest) == Write(c1, sc, rest)
  {
    LoadSeen(c, v, sc);
    var c0 := Load(c, sc).client;
    SendsHead(c0, Taken(v, sc.queue[v.bufpos], sc.caps), ToSend(v, sc.queue[v.bufpos], sc.caps));
    c1 := Answer(c0, Accepts(1)).client;
    RoundIsSend(c, c0, sc, rest);
  }

  /** A round that only sends the head of the list. */
  lemma WriteSends(c: ClientView, v: Sight, sending: seq<Buffer>, sc: Scene, rest: seq<Reply>) returns (c1: ClientView)
    requires Seen(c, v, sending) && sending != [] && OneByte(sending[0]) && CursorInside(c, sc.queue)
    ensures OffsetInside(c) && CursorInside(c1, sc.queue) && OffsetInside(c1) && Seen(c1, v, sending[1..])
    ensures Write(c, sc, [Accepts(1)] + rest) == Write(c1, sc, rest)
  {
    SendsHead(c, v, sending);
    c1 := Answer(c, Accepts(1)).client;
    RoundIsSend(c, c, sc, rest);
  }

  /** The round of a client that loads as `c0`. */
  lemma RoundIsSend(c: ClientView, c0: ClientView, sc: Scene, rest: seq<Reply>)
    requires CursorInside(c, sc.queue) && OffsetInside(c) && Load(c, sc) == Loaded(c0) && Answer(c0, Accepts(1)).Goes?
    ensures var c1 := Answer(c0, Accepts(1)).client;
            && CursorInside(c1, sc.queue) && OffsetInside(c1)
            && Write(c, sc, [Accepts(1)] + rest) == Write(c1, sc, rest)
  {
    WriteStep(c, sc, [Accepts(1)] + rest);
    assert ([Accepts(1)] + rest)[1..] == rest;
  }

  /** With nothing ahead the write event ends. */
  lemma WriteEnds(c: ClientView, v: Sight, sc: Scene) returns (r: ClientView)
    requires Seen(c, v, []) && v.bufpos == -1
    ensures CursorInside(c, sc.queue) && OffsetInside(c)
    ensures Write(c, sc, []) == Written(r, true) && Seen(r, v, [])
  {
    WriteStep(c, sc, []);
    r := c.(source := false);
  }

  /** A socket that takes `n` bytes, one at a time. */
  function Bites(n: nat): seq<Reply> { if n == 0 then [] else [Accepts(1)] + Bites(n - 1) }

  /** One byte after the other. */
  lemma WritesNext(c: ClientView, v: Sight, sending: seq<Buffer>, sc: Scene) returns (c1: ClientView)
    requires Seen(c, v, sending) && AllOneByte(sending) && sending != [] && CursorInside(c, sc.queue)
    ensures OffsetInside(c) && CursorInside(c1, sc.queue) && OffsetInside(c1)
    ensures Seen(c1, v, sending[1..]) && AllOneByte(sending[1..])
    ensures Write(c, sc, Bites(|sending|)) == Write(c1, sc, Bites(|sending| - 1))
  {
    c1 := WriteSends(c, v, sending, sc, Bites(|sending| - 1));
    assert Bites(|sending|) == [Accepts(1)] + Bites(|sending| - 1);
  }

  lemma {:induction false} WritesList(c: ClientView, v: Sight, sending: seq<Buffer>, sc: Scene)
    returns (r: ClientView)
    requires Seen(c, v, sending) && AllOneByte(sending) && v.bufpos == -1
    ensures CursorInside(c, sc.queue) && OffsetInside(c)
    ensures Write(c, sc, Bites(|sending|)) == Written(r, true) && Seen(r, v, [])
    decreases |sending|
  {
    if sending == [] {
      r := WriteEnds(c, v, sc);
    } else {
      var c1 := WritesNext(c, v, sending, sc);
      var rest := sending[1..];
      assert |rest| == |sending| - 1;
      r := WritesList(c1, v, rest, sc);
    }
  }

  /** A write event in which the client takes the newest buffer and sends all that this puts on its list. */
  lemma WritesNewest(c: ClientView, v: Sight, buf: Buffer, sc: Scene, n: nat) returns (r: ClientView)
    requires Seen(c, v, []) && v.bufpos == 0 < |sc.queue| && sc.queue[0] == buf && !sc.resend
    requires AllOneByte(ToSend(v, buf, sc.caps)) && n == |ToSend(v, buf, sc.caps)|
    ensures CursorInside(c, sc.queue) && OffsetInside(c)
    ensures Write(c, sc, Bites(n)) == Written(r, true) && Seen(r, Taken(v, buf, sc.caps), [])
  {
    var c1 := WriteLoads(c, v, sc, Bites(n - 1));
    r := WritesList(c1, Taken(v, buf, sc.caps), ToSend(v, buf, sc.caps)[1..], sc);
  }

  function WritingBites(n: nat): Event { SocketE(0, WRITABLE, [], Bites(n), false) }

  lemma WriteEventIsServed(s: SinkView, c: ClientView, n: nat, r: ClientView)
    requires CursorsInside(s) && s.clients == [c] && s.handles == {0} && c.handle == 0 && c.status == Ok
    requires CursorInside(c, s.queue) && OffsetInside(c)
    requires Write(c, SceneOf(HOLDING, s), Bites(n)) == Written(r, true)
    ensures SocketCondition(HOLDING, s, 0, WRITABLE, [], Bites(n), false) == Served(s, 0, r)
  {
    assert IndexOf(s.clients, 0) == 0;
  }

  lemma SoloWrites(es: seq<Event>, caps: Caps, v: Sight, now: Caps, stream: seq<Buffer>, buf: Buffer, n: nat)
    requires SoloSeen(es, caps, v, now, stream) && v.bufpos == 0 && stream != [] && buf == stream[|stream| - 1]
    requires AllOneByte(ToSend(v, buf, now)) && n == |ToSend(v, buf, now)|
    ensures SoloSeen(es + [WritingBites(n)], caps, Taken(v, buf, now), now, stream)
  {
    var s := After(HOLDING, caps, es);
    AfterSocket(HOLDING, caps, es, 0, WRITABLE, [], Bites(n));
    CursorsStayInside(HOLDING, caps, es);
    var r := WritesNewest(s.clients[0], v, buf, SceneOf(HOLDING, s), n);
    WriteEventIsServed(s, s.clients[0], n, r);
    assert Served(s, 0, r).clients == [r];
  }

  lemma RendersSolo(s: SinkView, c: ClientView, caps: Caps, stream: seq<Buffer>, b: Buffer)
    requires Solo(s, c, caps, stream) && !b.header
    ensures var lim := LimitOf(HOLDING, [b] + s.queue);
            Solo(Render(HOLDING, s, b), Woken(Advance(c, lim)), caps, stream + [b])
  {
    BriskQueueBuffer(HOLDING, Noted(s, b), b);
    PassFrame(Walk(Prepend(Noted(s, b), b), 0, 0), LimitOf(HOLDING, [b] + s.queue));
  }

  lemma SoloRenders(es: seq<Event>, caps: Caps, v: Sight, now: Caps, stream: seq<Buffer>, b: Buffer)
    requires SoloSeen(es, caps, v, now, stream) && !b.header
    ensures SoloSeen(es + [RenderE(b)], caps, v.(bufpos := v.bufpos + 1), now, stream + [b])
  {
    var s := After(HOLDING, caps, es);
    AfterRender(HOLDING, caps, es, b);
    RendersSolo(s, s.clients[0], now, stream, b);
  }

  lemma SoloSetsCaps(es: seq<Event>, caps: Caps, v: Sight, now: Caps, stream: seq<Buffer>, next: Caps)
    requires SoloSeen(es, caps, v, now, stream)
    ensures SoloSeen(es + [CapsE(next)], caps, v, next, stream)
  {
    AfterOneMore(HOLDING, caps, es, CapsE(next));
  }

  function Headed(h: Buffer): Caps { Caps(0, Some([h])) }

  /** A client receives a buffer under the first caps, and then one under caps with other headers. */
  function CapsChange(h1: Buffer, h2: Buffer, b0: Buffer, b1: Buffer): seq<Event> {
    STARTED + [RenderE(b0)] + [WritingBites(2)] + [CapsE(Headed(h2))] + [RenderE(b1)] + [WritingBites(1)]
  }

  /** What is queued to a client that has nothing, or has the first buffer. */
  lemma QueuedFirst(h: Buffer, b: Buffer)
    ensures NewItems(None, b, Headed(h), false) == [Block([h]), Data(b, Headed(h))]
    ensures BuffersOf([Block([h]), Data(b, Headed(h))]) == [h, b]
  {
    assert [Block([h]), Data(b, Headed(h))][1..] == [Data(b, Headed(h))];
  }

  lemma QueuedNext(h1: Buffer, h2: Buffer, b: Buffer)
    requires h1 != h2
    ensures NewItems(Some(Headed(h1)), b, Headed(h2), false) == [Data(b, Headed(h2))]
    ensures BuffersOf([Data(b, Headed(h2))]) == [b]
  {
  }

  lemma FirstSeen(h1: Buffer, b0: Buffer)
    requires OneByte(h1) && OneByte(b0) && !b0.header
    ensures SoloSeen(STARTED + [RenderE(b0)] + [WritingBites(2)], Headed(h1),
                     Sight(-1, false, Some(Headed(h1)), [Block([h1]), Data(b0, Headed(h1))]), Headed(h1), [b0])
  {
    var caps := Headed(h1);
    var c := SoloStarts(HOLDING, caps);
    SoloRenders(STARTED, caps, Sight(-1, true, None, []), caps, [], b0);
    assert [] + [b0] == [b0];
    QueuedFirst(h1, b0);
    assert [] + [Block([h1]), Data(b0, caps)] == [Block([h1]), Data(b0, caps)];
    SoloWrites(STARTED + [RenderE(b0)], caps, Sight(0, true, None, []), caps, [b0], b0, 2);
  }

  /** What the client has sent after the caps have changed and the second buffer has come. */
  lemma SecondSeen(h1: Buffer, h2: Buffer, b0: Buffer, b1: Buffer)
    requires h1 != h2 && OneByte(b1) && !b1.header
    requires SoloSeen(STARTED + [RenderE(b0)] + [WritingBites(2)], Headed(h1),
                      Sight(-1, false, Some(Headed(h1)), [Block([h1]), Data(b0, Headed(h1))]), Headed(h1), [b0])
    ensures SoloSeen(CapsChange(h1, h2, b0, b1), Headed(h1),
                     Sight(-1, false, Some(Headed(h2)),
                           [Block([h1]), Data(b0, Headed(h1))] + [Data(b1, Headed(h2))]),
                     Headed(h2), [b0] + [b1])
  {
    var es, first := STARTED + [RenderE(b0)] + [WritingBites(2)], [Block([h1]), Data(b0, Headed(h1))];
    var v := Sight(-1, false, Some(Headed(h1)), first);
    SoloSetsCaps(es, Headed(h1), v, Headed(h1), [b0], Headed(h2));
    SoloRenders(es + [CapsE(Headed(h2))], Headed(h1), v, Headed(h2), [b0], b1);
    QueuedNext(h1, h2, b1);
    SoloWrites(es + [CapsE(Headed(h2))] + [RenderE(b1)], Headed(h1), v.(bufpos := 0), Headed(h2), [b0] + [b1], b1, 1);
  }

  /** With headers not sent again the second buffer is sent without the headers its caps carry. */
  lemma HeadersAreHeldBack(h1: Buffer, h2: Buffer, b0: Buffer, b1: Buffer)
    requires OneByte(h1) && h1 != h2 && OneByte(b0) && !b0.header && OneByte(b1) && !b1.header
    ensures var s := After(HOLDING, Headed(h1), CapsChange(h1, h2, b0, b1));
            && |s.clients| == 1 && s.clients[0].sending == []
            && s.clients[0].trail.items == [Block([h1]), Data(b0, Headed(h1)), Data(b1, Headed(h2))]
            && !HeadersInForce(s.clients[0].trail.items)
  {
    FirstSeen(h1, b0);
    SecondSeen(h1, h2, b0, b1);
    NotInForce(h1, h2, b0, b1);
  }

  lemma NotInForce(h1: Buffer, h2: Buffer, b0: Buffer, b1: Buffer)
    requires h1 != h2
    ensures !HeadersInForce([Block([h1]), Data(b0, Headed(h1))] + [Data(b1, Headed(h2))])
  {
    var items := [Block([h1]), Data(b0, Headed(h1))] + [Data(b1, Headed(h2))];
    assert items[..2] == [Block([h1]), Data(b0, Headed(h1))];
    assert items[..2][..1] == [Block([h1])];
    assert LastBlock(items[..2]) == Some([h1]);
  }
}

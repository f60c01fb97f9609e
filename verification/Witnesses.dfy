/** Runs that show where the element falls short of what is said about it. */
module Witnesses {
  import opened Basics
  import opened Buffers
  import opened Limits
  import opened Vectors
  import opened Positions
  import opened Clients
  import opened WriteSafety
  import opened Sink
  import opened SinkSafety
  import opened QueueSafety
  import opened Restarts
  import opened Runs
  import opened RunFacts
  import opened Retention
  import opened Bounds

  // ---- Without clients ----

  /** What the limits leave of a queue that no client uses. */
  function LeftOf(cfg: Config, q: seq<Buffer>): seq<Buffer>
    requires |q| > 0
  {
    q[..Min(|q|, LastKept(cfg, LimitOf(cfg, q), 0) + 1)]
  }

  /** The queue after some buffers. */
  function Alone(cfg: Config, bs: seq<Buffer>): seq<Buffer> {
    if bs == [] then [] else LeftOf(cfg, [bs[|bs| - 1]] + Alone(cfg, bs[..|bs| - 1]))
  }

  function Rendering(bs: seq<Buffer>): seq<Event> {
    if bs == [] then [StartE] else Rendering(bs[..|bs| - 1]) + [RenderE(bs[|bs| - 1])]
  }

  lemma RenderAlone(cfg: Config, s: SinkView, b: Buffer)
    requires s.running && s.clients == [] && !b.header
    ensures var r := Render(cfg, s, b);
            && r.running && r.clients == [] && r.queue == LeftOf(cfg, [b] + s.queue)
            && r.past.stream == s.past.stream + [b]
  {
    var s1 := Noted(s, b);
    QueueAfter(cfg, s1, b);
    assert Walked(cfg, s1, b) == Walk(Prepend(s1, b), 0, 0);
  }

  /** An element that has no clients and has queued `bs`. */
  ghost predicate IsAlone(cfg: Config, s: SinkView, bs: seq<Buffer>) {
    s.running && s.clients == [] && s.queue == Alone(cfg, bs) && s.past.stream == bs
  }

  lemma Started(cfg: Config, caps: Caps)
    ensures After(cfg, caps, [StartE]) == Sink.Start(Initial(caps))
  {
    AfterOneMore(cfg, caps, [], StartE);
    assert [] + [StartE] == [StartE];
  }

  lemma StartsAlone(cfg: Config, caps: Caps)
    ensures IsAlone(cfg, After(cfg, caps, Rendering([])), [])
  {
    Started(cfg, caps);
  }

  lemma AloneOneMore(cfg: Config, bs: seq<Buffer>, b: Buffer)
    ensures Alone(cfg, bs + [b]) == LeftOf(cfg, [b] + Alone(cfg, bs))
  {
    assert (bs + [b])[..|bs|] == bs;
  }

  lemma RenderStaysAlone(cfg: Config, s: SinkView, bs: seq<Buffer>, b: Buffer)
    requires IsAlone(cfg, s, bs) && !b.header
    ensures IsAlone(cfg, Render(cfg, s, b), bs + [b])
  {
    RenderAlone(cfg, s, b);
    AloneOneMore(cfg, bs, b);
  }

  lemma AloneSteps(cfg: Config, caps: Caps, es: seq<Event>, bs: seq<Buffer>, b: Buffer)
    requires IsAlone(cfg, After(cfg, caps, es), bs) && !b.header
    ensures IsAlone(cfg, After(cfg, caps, es + [RenderE(b)]), bs + [b])
  {
    AfterRender(cfg, caps, es, b);
    RenderStaysAlone(cfg, After(cfg, caps, es), bs, b);
  }

  /** An element that is started without clients and queues buffers. */
  lemma {:induction false} RunsAlone(cfg: Config, caps: Caps, bs: seq<Buffer>)
    requires forall b :: b in bs ==> !b.header
    ensures IsAlone(cfg, After(cfg, caps, Rendering(bs)), bs)
  {
    if bs == [] {
      StartsAlone(cfg, caps);
    } else {
      var before, b := bs[..|bs| - 1], bs[|bs| - 1];
      RunsAlone(cfg, caps, before);
      AloneSteps(cfg, caps, Rendering(before), before, b);
      assert bs == before + [b];
    }
  }

  const KEYFRAMES := PULSEVIDEO.(defSync := LatestKeyframe)

  lemma KeyframesLeft(q: seq<Buffer>)
    requires |q| > 0 && (|q| <= 2 || !q[0].IsSync())
    ensures LeftOf(KEYFRAMES, q) == q[..Min(|q|, 2)]
  {
    assert MinMet(q, 0, UNSET, UNSET);
    assert LimitRange(q, UNSET, UNSET, UNSET, UNSET, UNSET).min == 0;
  }

  lemma KeyframeAlone(key: Buffer, d1: Buffer, d2: Buffer)
    requires d1.delta && d2.delta
    ensures Alone(KEYFRAMES, [key, d1, d2]) == [d2, d1]
  {
    assert [key, d1, d2] == [key, d1] + [d2] && [key, d1] == [key] + [d1] && [key] == [] + [key];
    AloneOneMore(KEYFRAMES, [], key);
    KeyframesLeft([key]);
    AloneOneMore(KEYFRAMES, [key], d1);
    KeyframesLeft([d1, key]);
    AloneOneMore(KEYFRAMES, [key, d1], d2);
    KeyframesLeft([d2, d1, key]);
    assert [d2, d1, key][..2] == [d2, d1];
  }

  /** A soft limit of one buffer loses the only keyframe after two more frames. */
  lemma SoftLimitLosesKeyframe(caps: Caps, key: Buffer, d1: Buffer, d2: Buffer)
    requires key.IsSync() && d1.delta && !d1.header && d2.delta && !d2.header
    ensures After(KEYFRAMES, caps, Rendering([key, d1, d2])).queue == [d2, d1]
    ensures !HoldsKeyframe(After(KEYFRAMES, caps, Rendering([key, d1, d2])).queue)
  {
    RunsAlone(KEYFRAMES, caps, [key, d1, d2]);
    KeyframeAlone(key, d1, d2);
  }

  /** Nothing is set but a minimum of three buffers. */
  const THREE_KEPT := Config(Format.Buffers, -1, -1, NoRecovery, SyncMethod.Latest, Undefined, 0, UNSET, 3, UNSET, true)

  lemma ThreeKeptLeft(q: seq<Buffer>)
    requires 0 < |q| <= 3
    ensures LeftOf(THREE_KEPT, q) == q[..Min(|q|, 2)]
  {
    if |q| == 3 {
      assert MinMet(q, 0, UNSET, UNSET);
    }
  }

  lemma TwoKeptAlone(b0: Buffer, b1: Buffer)
    ensures Alone(THREE_KEPT, [b0, b1]) == [b1, b0]
  {
    assert [b0, b1] == [b0] + [b1] && [b0] == [] + [b0];
    AloneOneMore(THREE_KEPT, [], b0);
    ThreeKeptLeft([b0]);
    AloneOneMore(THREE_KEPT, [b0], b1);
    ThreeKeptLeft([b1, b0]);
  }

  lemma ThreeKeptAlone(b0: Buffer, b1: Buffer, b2: Buffer)
    ensures Alone(THREE_KEPT, [b0, b1, b2]) == [b2, b1]
  {
    TwoKeptAlone(b0, b1);
    assert [b0, b1, b2] == [b0, b1] + [b2] && [b2] + [b1, b0] == [b2, b1, b0];
    AloneOneMore(THREE_KEPT, [b0, b1], b2);
    ThreeKeptLeft([b2, b1, b0]);
    assert [b2, b1, b0][..2] == [b2, b1];
  }

  /** The minimum in buffers is documented as the number of buffers to queue. It keeps a queue that is shorter; the
      third buffer reaches it, and the oldest is dropped. */
  lemma BuffersMinDropsTooMuch(caps: Caps, b0: Buffer, b1: Buffer, b2: Buffer)
    requires !b0.header && !b1.header && !b2.header
    ensures After(THREE_KEPT, caps, Rendering([b0, b1, b2])).queue == [b2, b1]
  {
    RunsAlone(THREE_KEPT, caps, [b0, b1, b2]);
    ThreeKeptAlone(b0, b1, b2);
  }

  /** Nothing is set but an age of 100 to be kept. */
  const AGED := Config(Format.Buffers, -1, -1, NoRecovery, SyncMethod.Latest, Undefined, 0, UNSET, UNSET, 100, true)

  lemma YoungStep(bs: seq<Buffer>, b: Buffer, q: seq<Buffer>)
    requires Alone(AGED, bs) == q && b.ts != NO_TIME && forall k :: 0 <= k < |q| ==> b.ts - 100 < q[k].ts <= b.ts
    ensures Alone(AGED, bs + [b]) == [b] + q
  {
    AloneOneMore(AGED, bs, b);
    YoungQueueIsLeft([b] + q);
  }

  lemma YoungAlone(b0: Buffer, b1: Buffer, b2: Buffer)
    requires b0.ts == 980 && b1.ts == 990 && b2.ts == 1000
    ensures Alone(AGED, [b0, b1, b2]) == [b2, b1, b0]
  {
    YoungStep([], b0, []);
    assert [] + [b0] == [b0] && [b0] + [] == [b0];
    YoungStep([b0], b1, [b0]);
    assert [b0] + [b1] == [b0, b1] && [b1] + [b0] == [b1, b0];
    YoungStep([b0, b1], b2, [b1, b0]);
    assert [b0, b1] + [b2] == [b0, b1, b2] && [b2] + [b1, b0] == [b2, b1, b0];
  }

  lemma AgedAlone(b0: Buffer, b1: Buffer, b2: Buffer, b3: Buffer)
    requires b0.ts == 980 && b1.ts == 990 && b2.ts == 1000 && b3.ts == 950
    ensures Alone(AGED, [b0, b1, b2, b3]) == [b3, b2, b1]
  {
    assert [b0, b1, b2, b3] == [b0, b1, b2] + [b3];
    YoungAlone(b0, b1, b2);
    AloneOneMore(AGED, [b0, b1, b2], b3);
    WrappedAgeIsCut([b3, b2, b1, b0]);
    assert [b3] + [b2, b1, b0] == [b3, b2, b1, b0];
    assert [b3, b2, b1, b0][..3] == [b3, b2, b1];
  }

  /** A timestamp that goes back makes the unsigned age wrap around: of four buffers that together are not 100 apart
      the oldest is dropped, though 100 are to be kept. */
  lemma BackwardTimestampDropsTooMuch(caps: Caps, b0: Buffer, b1: Buffer, b2: Buffer, b3: Buffer)
    requires b0.ts == 980 && b1.ts == 990 && b2.ts == 1000 && b3.ts == 950
    requires !b0.header && !b1.header && !b2.header && !b3.header
    ensures After(AGED, caps, Rendering([b0, b1, b2, b3])).queue == [b3, b2, b1]
    ensures !Spans([b3, b2, b1, b0], 4, 100)
  {
    RunsAlone(AGED, caps, [b0, b1, b2, b3]);
    AgedAlone(b0, b1, b2, b3);
    FirstTsStable([b3, b2, b1, b0], 1, 4);
  }

  /** A queue whose age is not reached is left as it is. */
  lemma YoungQueueIsLeft(q: seq<Buffer>)
    requires |q| > 0 && q[0].ts != NO_TIME && forall k :: 0 <= k < |q| ==> q[0].ts - 100 < q[k].ts <= q[0].ts
    ensures LeftOf(AGED, q) == q
  {
    var last := |q| - 1;
    FirstTsStable(q, 1, |q|);
    SpanReachedIsReal(q, |q|, 100);
    if MinIndex(q, 0, last, UNSET, 100) < last {
      MinMetGrows(q, MinIndex(q, 0, last, UNSET, 100), last, UNSET, 100);
    }
  }

  lemma WrappedAgeIsCut(q: seq<Buffer>)
    requires |q| == 4 && q[0].ts == 950 && q[1].ts == 1000
    ensures LeftOf(AGED, q) == q[..3]
  {
    assert FirstTs(q, 1) == 950 && FirstTs(q, 2) == 950;
    assert !SpanReached(q, 1, 100) && SpanReached(q, 2, 100);
    assert !MinMet(q, 0, UNSET, 100) && MinMet(q, 1, UNSET, 100);
  }

  // ---- A slow client in the middle of the list ----

  /** Clients that lag by two buffers are removed; there is no soft limit, and clients start with the latest buffer. */
  const KICKING := Config(Format.Buffers, 2, -1, NoRecovery, SyncMethod.Latest, Undefined, 0, UNSET, UNSET, UNSET, true)

  const PLAIN := Caps(0, None)

  /** What one sees of a client: its handle, its cursor, whether it has yet to start, and the numbers it picked. */
  datatype Look = Look(handle: Handle, bufpos: int, waiting: bool, log: seq<int>)

  /** A client in order. */
  ghost predicate Appears(c: ClientView, l: Look) {
    && c.handle == l.handle && c.bufpos == l.bufpos && c.newConnection == l.waiting && c.trail.log == l.log
    && c.status == Ok && !c.removing && c.flushcount == -1 && c.bufoffset == 0
    && c.sync == SyncMethod.Latest && (c.caps == None || c.caps == Some(PLAIN))
  }

  /** A client in order that has sent all it picked. */
  ghost predicate Looks(c: ClientView, l: Look) { Appears(c, l) && c.sending == [] }

  ghost predicate SinkLooks(s: SinkView, ls: seq<Look>, stream: seq<Buffer>) {
    && s.running && s.caps == PLAIN && s.past.stream == stream && |s.clients| == |ls|
    && forall i :: 0 <= i < |ls| ==> Looks(s.clients[i], ls[i])
  }

  /** A buffer that one send call can take. */
  ghost predicate Small(b: Buffer) { b.Sendable() && b.Size() == 1 && !b.header }

  ghost predicate AllSmall(bs: seq<Buffer>) { forall k :: 0 <= k < |bs| ==> Small(bs[k]) }

  function Picked(l: Look, number: int): Look { Look(l.handle, l.bufpos - 1, false, l.log + [number]) }

  /** What one sees of a client that has just loaded a buffer. */
  ghost predicate HasLoaded(c: ClientView, l: Look, buf: Buffer) { c.sending == [buf] && Appears(c, l) }

  /** What one sees of a client `p` that came from `c` by taking `buf`. */
  lemma PickedAppears(c: ClientView, p: ClientView, l: Look, buf: Buffer, number: int)
    requires Looks(c, l) && !l.waiting
    requires p.sending == [buf] && p.bufoffset == 0 && p.bufpos == c.bufpos - 1 && p.caps == Some(PLAIN)
    requires p.trail.log == c.trail.log + [number] && p.flushcount == -1 && p.handle == c.handle
    requires p.status == c.status && p.removing == c.removing && p.sync == c.sync && p.newConnection == c.newConnection
    ensures HasLoaded(p, Picked(l, number), buf)
  {
  }

  lemma PlainPickSends(c: ClientView, sc: Scene)
    requires 0 <= c.bufpos < |sc.queue| && c.sending == [] && sc.caps == PLAIN
    ensures Pick(c, sc).sending == [sc.queue[c.bufpos]]
  {
    assert HeadersToSend(c.caps, PLAIN, sc.resend) == [];
    assert BuffersOf(NewItems(c.caps, sc.queue[c.bufpos], PLAIN, sc.resend)) == [sc.queue[c.bufpos]];
  }

  lemma PickShows(c: ClientView, l: Look, sc: Scene)
    requires Looks(c, l) && !l.waiting && 0 <= c.bufpos < |sc.queue| && sc.caps == PLAIN
    ensures HasLoaded(Pick(c, sc), Picked(l, Next(c, sc.total)), sc.queue[c.bufpos])
  {
    PickFields(c, sc);
    PlainPickSends(c, sc);
    PickedAppears(c, Pick(c, sc), l, sc.queue[c.bufpos], Next(c, sc.total));
  }

  lemma LoadStarts(c: ClientView, l: Look, sc: Scene)
    requires Looks(c, l) && l.waiting && 0 <= l.bufpos < |sc.queue|
    ensures CursorInside(c, sc.queue) && OffsetInside(c)
    ensures Load(c, sc) == Loaded(Pick(StartAt(c, c.bufpos, sc.total), sc))
  {
    assert NewPosition(sc.queue, c.bufpos, c.sync, c.burst) == Placement(c.bufpos, c.bufpos, c.sync);
    assert c.(bufpos := c.bufpos, sync := c.sync) == c;
  }

  lemma LoadGoesOn(c: ClientView, l: Look, sc: Scene)
    requires Looks(c, l) && !l.waiting && 0 <= l.bufpos < |sc.queue|
    ensures CursorInside(c, sc.queue) && OffsetInside(c)
    ensures Load(c, sc) == Loaded(Pick(c, sc))
  {
  }

  lemma StartShows(c: ClientView, l: Look, total: nat)
    requires Looks(c, l)
    ensures Looks(StartAt(c, c.bufpos, total), l.(waiting := false))
  {
  }

  lemma LoadShowsFrom(c: ClientView, c1: ClientView, l: Look, sc: Scene)
    requires CursorInside(c, sc.queue) && OffsetInside(c) && 0 <= c1.bufpos < |sc.queue| && sc.caps == PLAIN
    requires Looks(c1, l.(waiting := false)) && Load(c, sc) == Loaded(Pick(c1, sc))
    ensures Load(c, sc).Loaded? && HasLoaded(Load(c, sc).client, Picked(l, Next(c1, sc.total)), sc.queue[c1.bufpos])
  {
    PickShows(c1, l.(waiting := false), sc);
  }

  lemma LoadShows(c: ClientView, l: Look, sc: Scene)
    requires Looks(c, l) && 0 <= c.bufpos < |sc.queue| && sc.caps == PLAIN
    ensures CursorInside(c, sc.queue) && OffsetInside(c)
    ensures Load(c, sc).Loaded? && HasLoaded(Load(c, sc).client, Picked(l, Next(c, sc.total)), sc.queue[c.bufpos])
  {
    if l.waiting {
      LoadStarts(c, l, sc);
      StartShows(c, l, sc.total);
      assert Next(StartAt(c, c.bufpos, sc.total), sc.total) == Next(c, sc.total);
      LoadShowsFrom(c, StartAt(c, c.bufpos, sc.total), l, sc);
    } else {
      LoadGoesOn(c, l, sc);
      LoadShowsFrom(c, c, l, sc);
    }
  }

  lemma SendsOne(c: ClientView, l: Look, buf: Buffer)
    requires HasLoaded(c, l, buf) && Small(buf)
    ensures OffsetInside(c)
    ensures Answer(c, Accepts(1)).Goes? && Looks(Answer(c, Accepts(1)).client, l)
  {
    assert Offer(buf.mems, 0, MAX_VECTORS) != [];
    assert Accepted(c, 1) == 1;
  }

  /** One round for a client that has caught up with its sending list and has a buffer ahead. */
  lemma RoundPicks(c: ClientView, l: Look, sc: Scene)
    requires Looks(c, l) && 0 <= c.bufpos < |sc.queue| && sc.caps == PLAIN && Small(sc.queue[c.bufpos])
    ensures CursorInside(c, sc.queue) && OffsetInside(c)
    ensures var r := Round(c, sc, Some(Accepts(1))); r.Goes? && Looks(r.client, Picked(l, Next(c, sc.total)))
  {
    LoadShows(c, l, sc);
    var r := Load(c, sc);
    SendsOne(r.client, Picked(l, Next(c, sc.total)), sc.queue[c.bufpos]);
    assert Round(c, sc, Some(Accepts(1))) == Answer(r.client, Accepts(1));
  }

  lemma RoundGoesOn(c: ClientView, l: Look, sc: Scene, rest: seq<Reply>, number: int) returns (c1: ClientView)
    requires Looks(c, l) && 0 <= c.bufpos < |sc.queue| && sc.caps == PLAIN && AllSmall(sc.queue)
    requires number == Next(c, sc.total)
    ensures CursorInside(c, sc.queue) && OffsetInside(c) && CursorInside(c1, sc.queue) && OffsetInside(c1)
    ensures Looks(c1, Picked(l, number)) && c1.bufpos == c.bufpos - 1 && Next(c1, sc.total) == number + 1
    ensures Write(c, sc, [Accepts(1)] + rest) == Write(c1, sc, rest)
  {
    var replies := [Accepts(1)] + rest;
    RoundPicks(c, l, sc);
    c1 := Round(c, sc, FirstOf(replies)).client;
    WriteStep(c, sc, replies);
    assert replies[1..] == rest;
  }

  /** With nothing ahead the write event ends. */
  lemma WriteWaits(c: ClientView, l: Look, sc: Scene) returns (r: ClientView)
    requires Looks(c, l) && l.bufpos == -1
    ensures CursorInside(c, sc.queue) && OffsetInside(c)
    ensures Write(c, sc, []) == Written(r, true) && Looks(r, l)
  {
    WriteStep(c, sc, []);
    r := c.(source := false);
  }

  /** A socket that takes two bytes, one at a time. */
  const TWO_BITES := [Accepts(1)] + ([Accepts(1)] + [])

  lemma WritesTwo(c: ClientView, l: Look, sc: Scene, next: int) returns (r: ClientView)
    requires Looks(c, l) && c.bufpos == 1 < |sc.queue| && sc.caps == PLAIN && next == Next(c, sc.total)
    requires AllSmall(sc.queue)
    ensures CursorInside(c, sc.queue) && OffsetInside(c)
    ensures Write(c, sc, TWO_BITES) == Written(r, true) && Looks(r, Picked(Picked(l, next), next + 1))
  {
    var c1 := RoundGoesOn(c, l, sc, [Accepts(1)] + [], next);
    var c2 := RoundGoesOn(c1, Picked(l, next), sc, [], next + 1);
    r := WriteWaits(c2, Picked(Picked(l, next), next + 1), sc);
  }

  const WRITABLE := Condition(false, false, false, true)

  /** The event that lets client `h` write two buffers. */
  function Writing(h: Handle): Event { SocketE(h, WRITABLE, [], TWO_BITES, false) }

  lemma SettlesOne(s: SinkView, ls: seq<Look>, stream: seq<Buffer>, i: nat, w: Written, l: Look)
    requires SinkLooks(s, ls, stream) && i < |ls| && w.stays && Looks(w.client, l)
    ensures SinkLooks(Settle(s, i, w, false), ls[i := l], stream)
  {
  }

  /** Client `i` is found by its handle. */
  ghost predicate Found(s: SinkView, i: nat) {
    i < |s.clients| && s.clients[i].handle in s.handles && IndexOf(s.clients, s.clients[i].handle) == i
  }

  lemma ReadyToWrite(s: SinkView, i: nat)
    requires Inv(KICKING, s) && i < |s.clients| && AllSmall(s.past.stream)
    ensures Found(s, i) && AllSmall(s.queue)
  {
    IndexOfIs(s.clients, i);
  }

  lemma WriteEventIs(s: SinkView, i: nat)
    requires CursorsInside(s) && Found(s, i) && Active(s.clients[i])
    ensures SocketCondition(KICKING, s, s.clients[i].handle, WRITABLE, [], TWO_BITES, false)
            == Settle(s, i, Write(s.clients[i], SceneOf(KICKING, s), TWO_BITES), false)
  {
  }

  lemma WritesOne(s: SinkView, ls: seq<Look>, stream: seq<Buffer>, i: nat, next: int)
    requires CursorsInside(s) && Found(s, i) && SinkLooks(s, ls, stream) && ls[i].bufpos == 1
    requires next == |stream| - 2 && AllSmall(s.queue)
    ensures SinkLooks(SocketCondition(KICKING, s, ls[i].handle, WRITABLE, [], TWO_BITES, false),
                      ls[i := Picked(Picked(ls[i], next), next + 1)], stream)
  {
    assert CursorInside(s.clients[i], s.queue);
    var c := WritesTwo(s.clients[i], ls[i], SceneOf(KICKING, s), next);
    WriteEventIs(s, i);
    SettlesOne(s, ls, stream, i, Written(c, true), Picked(Picked(ls[i], next), next + 1));
  }

  lemma AddsOne(s: SinkView, ls: seq<Look>, stream: seq<Buffer>, h: Handle)
    requires SinkLooks(s, ls, stream) && h !in s.handles && CursorsInside(s)
    ensures SinkLooks(Add(KICKING, s, h), [Look(h, -1, true, [])] + ls, stream)
    ensures Add(KICKING, s, h).handles == s.handles + {h}
  {
  }

  function OneMore(ls: seq<Look>): seq<Look> {
    seq(|ls|, i requires 0 <= i < |ls| => ls[i].(bufpos := ls[i].bufpos + 1))
  }

  lemma RendersOne(s: SinkView, ls: seq<Look>, stream: seq<Buffer>, b: Buffer)
    requires SinkLooks(s, ls, stream) && !b.header && CursorsInside(s)
    requires forall i :: 0 <= i < |ls| ==> ls[i].bufpos <= 0
    ensures SinkLooks(Render(KICKING, s, b), OneMore(ls), stream + [b])
  {
    BriskQueueBuffer(KICKING, Noted(s, b), b);
    PassFrame(Walk(Prepend(Noted(s, b), b), 0, 0), LimitOf(KICKING, [b] + s.queue));
  }

  /** The walk removes the second client and starts over: the first one is advanced twice. */
  lemma RestartAdvancesTwice(s: SinkView, ls: seq<Look>, stream: seq<Buffer>, b: Buffer)
    requires SinkLooks(s, ls, stream) && !b.header && CursorsInside(s)
    requires |ls| == 3 && ls[0].bufpos == -1 && ls[1].bufpos == 1 && ls[2].bufpos == -1
    ensures SinkLooks(Render(KICKING, s, b), [ls[0].(bufpos := 1), ls[2].(bufpos := 0)], stream + [b])
  {
    var lim := LimitOf(KICKING, [b] + s.queue);
    var w := Walk(Prepend(Noted(s, b), b), 0, 0);
    PassFrame(w, lim);
    PassRestarts(w, lim, ls);
    assert Render(KICKING, s, b).clients == Pass(w, lim).sink.clients;
  }

  lemma AdvanceLooks(c: ClientView, lim: Limit, l: Look, next: Look)
    requires |lim.queue| > 0 && lim.soft == -1 && Looks(c, l)
    requires next == Look(l.handle, l.bufpos + 1, l.waiting, l.log)
    ensures Looks(Woken(Advance(c, lim)), next) && Advance(c, lim).bufpos == next.bufpos
  {
  }

  /** A visit that keeps its client, and advances it by one buffer. */
  lemma VisitLooks(w: Walk, lim: Limit, l: Look, next: Look) returns (r: Walk)
    requires |lim.queue| > 0 && lim.soft == -1 && lim.hard == 2 && w.i < |w.sink.clients|
    requires Looks(w.sink.clients[w.i], l) && l.bufpos < 1
    requires next == Look(l.handle, l.bufpos + 1, l.waiting, l.log)
    ensures r.i == w.i + 1 && |r.sink.clients| == |w.sink.clients| && Pass(w, lim) == Pass(r, lim)
    ensures Looks(r.sink.clients[w.i], next)
    ensures forall k :: 0 <= k < |w.sink.clients| && k != w.i ==> r.sink.clients[k] == w.sink.clients[k]
  {
    r := Visit(w, lim);
    PassStep(w, lim);
    AdvanceLooks(w.sink.clients[w.i], lim, l, next);
  }

  /** A visit that removes its client, which is not the last one: the walk starts over. */
  lemma VisitKicks(w: Walk, lim: Limit, l: Look) returns (r: Walk)
    requires |lim.queue| > 0 && lim.soft == -1 && lim.hard == 2 && w.i < |w.sink.clients| - 1
    requires Looks(w.sink.clients[w.i], l) && l.bufpos == 1
    ensures r.i == 0 && r.sink.clients == w.sink.clients[..w.i] + w.sink.clients[w.i + 1..]
    ensures Pass(w, lim) == Pass(r, lim)
  {
    r := Visit(w, lim);
    PassStep(w, lim);
    VisitMoves(w, lim);
  }

  lemma PassEnds(w: Walk, lim: Limit)
    requires |lim.queue| > 0 && w.i == |w.sink.clients|
    ensures Pass(w, lim) == w
  {
  }

  /** The first client is kept, and the second one removed. */
  lemma PassBegins(w: Walk, lim: Limit, l0: Look, l1: Look, next: Look) returns (r: Walk)
    requires |lim.queue| > 0 && lim.soft == -1 && lim.hard == 2 && w.i == 0 && |w.sink.clients| == 3
    requires Looks(w.sink.clients[0], l0) && Looks(w.sink.clients[1], l1) && l0.bufpos < 1 && l1.bufpos == 1
    requires next == Look(l0.handle, l0.bufpos + 1, l0.waiting, l0.log)
    ensures r.i == 0 && |r.sink.clients| == 2 && Pass(w, lim) == Pass(r, lim)
    ensures Looks(r.sink.clients[0], next) && r.sink.clients[1] == w.sink.clients[2]
  {
    var w1 := VisitLooks(w, lim, l0, next);
    r := VisitKicks(w1, lim, l1);
    assert r.sink.clients[0] == w1.sink.clients[0] && r.sink.clients[1] == w1.sink.clients[2];
  }

  /** Both clients are kept. */
  lemma PassGoesOn(w: Walk, lim: Limit, l0: Look, l1: Look, next0: Look, next1: Look)
    requires |lim.queue| > 0 && lim.soft == -1 && lim.hard == 2 && w.i == 0 && |w.sink.clients| == 2
    requires Looks(w.sink.clients[0], l0) && Looks(w.sink.clients[1], l1) && l0.bufpos < 1 && l1.bufpos < 1
    requires next0 == Look(l0.handle, l0.bufpos + 1, l0.waiting, l0.log)
    requires next1 == Look(l1.handle, l1.bufpos + 1, l1.waiting, l1.log)
    ensures var cs := Pass(w, lim).sink.clients; |cs| == 2 && Looks(cs[0], next0) && Looks(cs[1], next1)
  {
    var w1 := VisitLooks(w, lim, l0, next0);
    var w2 := VisitLooks(w1, lim, l1, next1);
    assert w2.sink.clients[0] == w1.sink.clients[0];
    PassEnds(w2, lim);
  }

  lemma PassRestarts(w: Walk, lim: Limit, ls: seq<Look>)
    requires |lim.queue| > 0 && lim.soft == -1 && lim.hard == 2 && w.i == 0
    requires |ls| == 3 && ls[0].bufpos == -1 && ls[1].bufpos == 1 && ls[2].bufpos == -1
    requires |w.sink.clients| == 3 && forall i :: 0 <= i < 3 ==> Looks(w.sink.clients[i], ls[i])
    ensures var cs := Pass(w, lim).sink.clients;
            |cs| == 2 && Looks(cs[0], ls[0].(bufpos := 1)) && Looks(cs[1], ls[2].(bufpos := 0))
  {
    var l0 := Look(ls[0].handle, 0, ls[0].waiting, ls[0].log);
    var w2 := PassBegins(w, lim, ls[0], ls[1], l0);
    PassGoesOn(w2, lim, l0, ls[2], ls[0].(bufpos := 1), ls[2].(bufpos := 0));
  }

  ghost predicate Shown(es: seq<Event>, ls: seq<Look>, stream: seq<Buffer>) {
    SinkLooks(After(KICKING, PLAIN, es), ls, stream)
  }

  lemma FirstStart()
    ensures Shown([StartE], [], [])
  {
    Started(KICKING, PLAIN);
  }

  lemma NotListed(s: SinkView, ls: seq<Look>, stream: seq<Buffer>, h: Handle)
    requires Inv(KICKING, s) && SinkLooks(s, ls, stream) && forall i :: 0 <= i < |ls| ==> ls[i].handle != h
    ensures h !in s.handles
  {
    var i := IndexOf(s.clients, h);
    assert i != -1 ==> Looks(s.clients[i], ls[i]);
  }

  lemma ThenAdd(es: seq<Event>, ls: seq<Look>, stream: seq<Buffer>, h: Handle)
    requires Shown(es, ls, stream) && forall i :: 0 <= i < |ls| ==> ls[i].handle != h
    ensures Shown(es + [AddE(h)], [Look(h, -1, true, [])] + ls, stream)
  {
    AfterAdd(KICKING, PLAIN, es, h);
    NotListed(After(KICKING, PLAIN, es), ls, stream, h);
    AddsOne(After(KICKING, PLAIN, es), ls, stream, h);
  }

  lemma ThenRender(es: seq<Event>, ls: seq<Look>, stream: seq<Buffer>, b: Buffer)
    requires Shown(es, ls, stream) && !b.header && forall i :: 0 <= i < |ls| ==> ls[i].bufpos <= 0
    ensures Shown(es + [RenderE(b)], OneMore(ls), stream + [b])
  {
    AfterRender(KICKING, PLAIN, es, b);
    RendersOne(After(KICKING, PLAIN, es), ls, stream, b);
  }

  lemma ThenWrite(es: seq<Event>, ls: seq<Look>, stream: seq<Buffer>, i: nat, next: int)
    requires Shown(es, ls, stream) && i < |ls| && ls[i].bufpos == 1 && next == |stream| - 2
    requires AllSmall(stream)
    ensures Shown(es + [Writing(ls[i].handle)], ls[i := Picked(Picked(ls[i], next), next + 1)], stream)
  {
    AfterSocket(KICKING, PLAIN, es, ls[i].handle, WRITABLE, [], TWO_BITES);
    ReadyToWrite(After(KICKING, PLAIN, es), i);
    WritesOne(After(KICKING, PLAIN, es), ls, stream, i, next);
  }

  lemma ThenRestart(es: seq<Event>, ls: seq<Look>, stream: seq<Buffer>, b: Buffer)
    requires Shown(es, ls, stream) && !b.header
    requires |ls| == 3 && ls[0].bufpos == -1 && ls[1].bufpos == 1 && ls[2].bufpos == -1
    ensures Shown(es + [RenderE(b)], [ls[0].(bufpos := 1), ls[2].(bufpos := 0)], stream + [b])
  {
    AfterRender(KICKING, PLAIN, es, b);
    RestartAdvancesTwice(After(KICKING, PLAIN, es), ls, stream, b);
  }

  /** Three clients are added, and two buffers queued. */
  function ThreeWait(b0: Buffer, b1: Buffer): seq<Event> {
    [StartE] + [AddE(2)] + [AddE(1)] + [AddE(0)] + [RenderE(b0)] + [RenderE(b1)]
  }

  /** The first and the last client write. */
  function TwoOfThreeWrite(b0: Buffer, b1: Buffer): seq<Event> {
    ThreeWait(b0, b1) + [Writing(0)] + [Writing(2)]
  }

  /** Then a third buffer makes the second client too slow, and the first one writes again. */
  function Repeating(b0: Buffer, b1: Buffer, b2: Buffer): seq<Event> {
    TwoOfThreeWrite(b0, b1) + [RenderE(b2)] + [Writing(0)]
  }

  lemma ThreeAreAdded()
    ensures Shown([StartE] + [AddE(2)] + [AddE(1)] + [AddE(0)],
                  [Look(0, -1, true, []), Look(1, -1, true, []), Look(2, -1, true, [])], [])
  {
    FirstStart();
    var l1 := [Look(2, -1, true, [])];
    assert l1 == [Look(2, -1, true, [])] + [];
    ThenAdd([StartE], [], [], 2);
    var l2 := [Look(1, -1, true, [])] + l1;
    ThenAdd([StartE] + [AddE(2)], l1, [], 1);
    ThenAdd([StartE] + [AddE(2)] + [AddE(1)], l2, [], 0);
    assert [Look(0, -1, true, [])] + l2 == [Look(0, -1, true, []), Look(1, -1, true, []), Look(2, -1, true, [])];
  }

  lemma OneMoreTwice()
    ensures OneMore([Look(0, -1, true, []), Look(1, -1, true, []), Look(2, -1, true, [])])
            == [Look(0, 0, true, []), Look(1, 0, true, []), Look(2, 0, true, [])]
    ensures OneMore([Look(0, 0, true, []), Look(1, 0, true, []), Look(2, 0, true, [])])
            == [Look(0, 1, true, []), Look(1, 1, true, []), Look(2, 1, true, [])]
  {
  }

  lemma ThreeAreWaiting(b0: Buffer, b1: Buffer)
    requires Small(b0) && Small(b1)
    ensures Shown(ThreeWait(b0, b1), [Look(0, 1, true, []), Look(1, 1, true, []), Look(2, 1, true, [])], [b0, b1])
  {
    ThreeAreAdded();
    var es := [StartE] + [AddE(2)] + [AddE(1)] + [AddE(0)];
    var ls := [Look(0, -1, true, []), Look(1, -1, true, []), Look(2, -1, true, [])];
    assert [] + [b0] == [b0] && [b0] + [b1] == [b0, b1];
    ThenRender(es, ls, [], b0);
    ThenRender(es + [RenderE(b0)], OneMore(ls), [b0], b1);
    OneMoreTwice();
  }

  lemma TwoHaveWritten(b0: Buffer, b1: Buffer)
    requires Small(b0) && Small(b1)
    ensures Shown(TwoOfThreeWrite(b0, b1),
                  [Look(0, -1, false, [0, 1]), Look(1, 1, true, []), Look(2, -1, false, [0, 1])], [b0, b1])
  {
    ThreeAreWaiting(b0, b1);
    var es, ls := ThreeWait(b0, b1), [Look(0, 1, true, []), Look(1, 1, true, []), Look(2, 1, true, [])];
    assert Picked(Picked(ls[0], 0), 1) == Look(0, -1, false, [0, 1]);
    assert Picked(Picked(ls[2], 0), 1) == Look(2, -1, false, [0, 1]);
    ThenWrite(es, ls, [b0, b1], 0, 0);
    var ls1 := ls[0 := Look(0, -1, false, [0, 1])];
    ThenWrite(es + [Writing(0)], ls1, [b0, b1], 2, 0);
    assert ls1[2 := Look(2, -1, false, [0, 1])]
           == [Look(0, -1, false, [0, 1]), Look(1, 1, true, []), Look(2, -1, false, [0, 1])];
  }

  /** A client may be given a buffer twice: here the first one picks number 1 again. */
  lemma RestartRepeatsANumber(b0: Buffer, b1: Buffer, b2: Buffer)
    requires Small(b0) && Small(b1) && Small(b2)
    ensures var s := After(KICKING, PLAIN, Repeating(b0, b1, b2));
            |s.clients| == 2 && s.clients[0].handle == 0 && s.clients[0].trail.log == [0, 1, 1, 2]
    ensures !UndisturbedAfter(KICKING, PLAIN, Repeating(b0, b1, b2))
  {
    TwoHaveWritten(b0, b1);
    var es := TwoOfThreeWrite(b0, b1);
    ThenRestart(es, [Look(0, -1, false, [0, 1]), Look(1, 1, true, []), Look(2, -1, false, [0, 1])], [b0, b1], b2);
    assert [b0, b1] + [b2] == [b0, b1, b2];
    var ls := [Look(0, 1, false, [0, 1]), Look(2, 0, false, [0, 1])];
    assert Picked(Picked(ls[0], 1), 2).log == [0, 1, 1, 2];
    ThenWrite(es + [RenderE(b2)], ls, [b0, b1, b2], 0, 1);
    RepeatingIsDisturbed(Repeating(b0, b1, b2));
  }

  lemma RepeatingIsDisturbed(es: seq<Event>)
    requires var s := After(KICKING, PLAIN, es); |s.clients| > 0 && s.clients[0].trail.log == [0, 1, 1, 2]
    ensures !UndisturbedAfter(KICKING, PLAIN, es)
  {
    var c := After(KICKING, PLAIN, es).clients[0];
    assert c.trail.log[1] == c.trail.log[2];
    if UndisturbedAfter(KICKING, PLAIN, es) {
      EveryGapIsCounted(KICKING, PLAIN, es, c);
    }
  }
}

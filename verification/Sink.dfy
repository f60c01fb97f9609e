/**
The sink: one queue of buffers, a list of clients with cursors into it, and a table of their handles.
Each operation is a function from the state before to the state after. Removing a client is one step, except that
a removal may stop in the window in which the lock is released for the signal handlers (`window`); the client
then stays listed, marked as being removed, until `EndRemoval`.
*/
module Sink {
  import opened Basics
  import opened Buffers
  import opened Limits
  import opened Positions
  import opened Clients

  /** The properties of the element; they stay fixed while it runs. */
  datatype Config = Config(
    unitFormat: Format, unitsMax: int, unitsSoftMax: int, policy: Policy, defSync: SyncMethod,
    defBurstFormat: Format, defBurstValue: int, bytesMin: int, buffersMin: int, timeMin: int, resend: bool)

  /** What happened so far; no step depends on it. */
  datatype Past = Past(
    stream: seq<Buffer>,         // every data buffer queued, oldest first
    epoch: nat,                  // buffers queued before the last start
    taken: multiset<Buffer>,     // references taken for the queue and the stream headers
    released: multiset<Buffer>,  // references given back
    gone: seq<ClientView>,       // clients that left the list
    goneBefore: nat)             // clients that left before the last start

  datatype SinkView = SinkView(
    running: bool, clients: seq<ClientView>, handles: set<Handle>, queue: seq<Buffer>, streamheader: seq<Buffer>,
    prevHeader: bool, caps: Caps, bytesToServe: nat, bytesServed: int, buffersQueued: int, past: Past)

  function Total(s: SinkView): nat { |s.past.stream| }

  function SceneOf(cfg: Config, s: SinkView): Scene { Scene(s.queue, Total(s), s.caps, cfg.resend) }

  /** The position of a handle in the client list, or -1. */
  function IndexOf(cs: seq<ClientView>, h: Handle): (i: int)
    ensures -1 <= i < |cs| && (i != -1 ==> cs[i].handle == h)
    ensures i == -1 ==> forall k :: 0 <= k < |cs| ==> cs[k].handle != h
  {
    if cs == [] then -1
    else if cs[0].handle == h then 0
    else var i := IndexOf(cs[1..], h); if i == -1 then -1 else i + 1
  }

  function SetClient(s: SinkView, i: nat, c: ClientView): SinkView
    requires i < |s.clients|
  {
    s.(clients := s.clients[i := c])
  }

  // ---- Removing ----

  /** The client leaves the list and the table. */
  function Detach(s: SinkView, i: nat): SinkView
    requires i < |s.clients|
  {
    s.(clients := s.clients[..i] + s.clients[i + 1..], handles := s.handles - {s.clients[i].handle},
       past := s.past.(gone := s.past.gone + [s.clients[i]]))
  }

  /** Removes client `i`, unless its removal has begun already. */
  function RemoveLink(s: SinkView, i: nat, window: bool): SinkView
    requires i < |s.clients|
  {
    if s.clients[i].removing then s
    else
      var s1 := SetClient(s, i, BeginRemoval(s.clients[i], Total(s)));
      if window then s1 else Detach(s1, i)
  }

  /** Client `i` leaves with a status that says why. */
  function RemoveAs(s: SinkView, i: nat, status: Status, window: bool): SinkView
    requires i < |s.clients|
  {
    RemoveLink(SetClient(s, i, s.clients[i].(status := status)), i, window)
  }

  function Remove(s: SinkView, h: Handle, window: bool): SinkView {
    var i := IndexOf(s.clients, h);
    if h !in s.handles || i == -1 || s.clients[i].status != Ok then s else RemoveAs(s, i, Removed, window)
  }

  /** The end of the window: the client whose removal had begun leaves. */
  function EndRemoval(s: SinkView, h: Handle): SinkView {
    var i := IndexOf(s.clients, h);
    if i == -1 || !s.clients[i].removing then s else Detach(s, i)
  }

  function RemoveFlush(s: SinkView, h: Handle): SinkView {
    var i := IndexOf(s.clients, h);
    if h !in s.handles || i == -1 || s.clients[i].status != Ok then s
    else SetClient(s, i, BeginFlush(s.clients[i], Total(s)))
  }

  /** Removes the clients from position `i` on; the walk starts over whenever the list has changed under it. */
  function ClearFrom(s: SinkView, i: nat): SinkView
    requires i <= |s.clients|
    decreases |s.clients|, |s.clients| - i
  {
    if i == |s.clients| then s
    else
      var s1 := RemoveAs(s, i, Removed, false);
      if s.clients[i].removing then ClearFrom(s1, i + 1)
      else if i == |s1.clients| then s1
      else ClearFrom(s1, 0)
  }

  // ---- Adding ----

  /** A minimum above the maximum in the same unit. */
  predicate WrongLimits(b: BurstSpec) {
    b.minFormat == b.maxFormat && b.maxValue != UNSET && b.minValue != UNSET && b.maxValue < b.minValue
  }

  /** A client in front of the list. */
  function Insert(s: SinkView, c: ClientView): SinkView {
    s.(clients := [c] + s.clients, handles := s.handles + {c.handle})
  }

  function AddFull(s: SinkView, h: Handle, sync: SyncMethod, burst: BurstSpec): SinkView {
    if !s.running || WrongLimits(burst) || h in s.handles then s
    else Insert(s, NewClient(h, sync, burst, Total(s)))
  }

  function Add(cfg: Config, s: SinkView, h: Handle): SinkView {
    AddFull(s, h, cfg.defSync, BurstSpec(cfg.defBurstFormat, cfg.defBurstValue, cfg.defBurstFormat, UNSET))
  }

  // ---- Queueing a buffer ----

  function LimitOf(cfg: Config, q: seq<Buffer>): Limit {
    Limit(q, if cfg.unitsSoftMax > 0 then BuffersMax(cfg.unitFormat, q, cfg.unitsSoftMax) else -1,
          if cfg.unitsMax > 0 then BuffersMax(cfg.unitFormat, q, cfg.unitsMax) else -1, cfg.policy)
  }

  /** A walk over the clients: the next one to visit, and the furthest cursor seen. */
  datatype Walk = Walk(sink: SinkView, i: nat, usage: int)

  /** Removes client `i`, which is too slow; the walk starts over unless that was the last client. */
  function GiveUp(s: SinkView, i: nat, usage: int): Walk
    requires i < |s.clients|
  {
    var r := RemoveLink(s, i, false);
    Walk(r, if s.clients[i].removing then i + 1 else if i == |r.clients| then i else 0, usage)
  }

  /** Visits one client: its cursor is advanced, and it is kept or given up. */
  function Visit(w: Walk, lim: Limit): Walk
    requires |lim.queue| > 0 && w.i < |w.sink.clients|
  {
    var c := Advance(w.sink.clients[w.i], lim);
    if TooSlow(c, lim) then GiveUp(SetClient(w.sink, w.i, Evicted(c, Total(w.sink))), w.i, w.usage)
    else Walk(SetClient(w.sink, w.i, Woken(c)), w.i + 1, Max(w.usage, Woken(c).bufpos))
  }

  /** The whole walk. Starting over advances cursors that were advanced already once more. */
  function Pass(w: Walk, lim: Limit): Walk
    requires |lim.queue| > 0 && w.i <= |w.sink.clients|
    decreases |w.sink.clients|, |w.sink.clients| - w.i
  {
    if w.i == |w.sink.clients| then w else Pass(Visit(w, lim), lim)
  }

  /** The last index to keep: what the clients use, what the minima ask for, and a sync point if clients start on
      one. */
  function LastKept(cfg: Config, lim: Limit, usage: int): (last: int)
    requires |lim.queue| > 0
    ensures last >= usage && last >= 1
  {
    var minima := LimitRange(lim.queue, cfg.bytesMin, cfg.buffersMin, cfg.timeMin, UNSET, UNSET).min;
    var extended := Max(usage, minima + 1);
    if cfg.defSync == LatestKeyframe || cfg.defSync == BurstKeyframe then
      var limit := if lim.soft > 0 then Min(|lim.queue|, lim.soft) else |lim.queue|;
      var sync := NextSync(lim.queue, 0);
      if sync != -1 && sync < limit then Max(extended, sync) else extended
    else extended
  }

  /** The queue loses what lies behind index `last`. */
  function Trim(s: SinkView, last: int): SinkView
    requires last >= 0
  {
    var n := Min(|s.queue|, last + 1);
    s.(queue := s.queue[..n], buffersQueued := last,
       past := s.past.(released := s.past.released + multiset(s.queue[n..])))
  }

  /** The new buffer in front of the queue. */
  function Prepend(s: SinkView, b: Buffer): SinkView {
    s.(queue := [b] + s.queue, past := s.past.(stream := s.past.stream + [b]))
  }

  function QueueBuffer(cfg: Config, s: SinkView, b: Buffer): SinkView {
    var s1 := Prepend(s, b);
    var lim := LimitOf(cfg, s1.queue);
    var w := Pass(Walk(s1, 0, 0), lim);
    Trim(w.sink, LastKept(cfg, lim, w.usage))
  }

  /** The stream headers kept so far are given back. */
  function HeadersDropped(s: SinkView): SinkView {
    s.(streamheader := [], past := s.past.(released := s.past.released + multiset(s.streamheader)))
  }

  function Referenced(s: SinkView, b: Buffer): SinkView {
    s.(past := s.past.(taken := s.past.taken + multiset{b}))
  }

  /** The reference to `b` is taken; at the first header after data the stream headers kept so far are dropped. */
  function Noted(s: SinkView, b: Buffer): SinkView {
    var s1 := Referenced(s, b);
    (if b.header && !s.prevHeader then HeadersDropped(s1) else s1).(prevHeader := b.header)
  }

  function CountToServe(s: SinkView, n: nat): SinkView { s.(bytesToServe := s.bytesToServe + n) }

  function RenderData(cfg: Config, s: SinkView, b: Buffer): SinkView {
    CountToServe(QueueBuffer(cfg, s, b), b.Size())
  }

  function Render(cfg: Config, s: SinkView, b: Buffer): SinkView {
    if !s.running then s
    else
      var s1 := Noted(s, b);
      if b.header then s1.(streamheader := s1.streamheader + [b])
      else RenderData(cfg, s1, b)
  }

  // ---- Socket events ----

  datatype Condition = Condition(err: bool, hup: bool, readable: bool, writable: bool)

  ghost predicate CursorsInside(s: SinkView) {
    forall i :: 0 <= i < |s.clients| ==>
      && CursorInside(s.clients[i], s.queue)
      && (Active(s.clients[i]) ==> OffsetInside(s.clients[i]))
  }

  /** What an event leaves of a client; the bytes it sent are served. */
  function Served(s: SinkView, i: nat, c: ClientView): SinkView
    requires i < |s.clients|
  {
    SetClient(s, i, c).(bytesServed := s.bytesServed + c.bytesSent - s.clients[i].bytesSent)
  }

  /** The client after an event, kept or removed. */
  function Settle(s: SinkView, i: nat, w: Written, window: bool): SinkView
    requires i < |s.clients|
  {
    if w.stays then Served(s, i, w.client) else RemoveLink(Served(s, i, w.client), i, window)
  }

  function SocketCondition(cfg: Config, s: SinkView, h: Handle, cond: Condition, incoming: seq<ReadReply>,
                           replies: seq<Reply>, window: bool): SinkView
    requires CursorsInside(s)
  {
    var i := IndexOf(s.clients, h);
    if h !in s.handles || i == -1 then s
    else
      var c := s.clients[i];
      if !Active(c) then RemoveLink(s, i, window)
      else if cond.err then RemoveAs(s, i, Failed, window)
      else if cond.hup then RemoveAs(s, i, Closed, window)
      else if cond.readable then Settle(s, i, Read(c, incoming, true), window)
      else if cond.writable then Settle(s, i, Write(c, SceneOf(cfg, s), replies), window)
      else s
  }

  // ---- Start and stop ----

  function WatchedAll(cs: seq<ClientView>): seq<ClientView> {
    seq(|cs|, i requires 0 <= i < |cs| => cs[i].(source := true))
  }

  function CountersReset(s: SinkView): SinkView {
    s.(streamheader := [], bytesToServe := 0, bytesServed := 0,
       past := s.past.(epoch := Total(s), goneBefore := |s.past.gone|))
  }

  function Start(s: SinkView): SinkView {
    if s.running then s else CountersReset(s.(clients := WatchedAll(s.clients))).(running := true)
  }

  /** The stream headers, the queue and the table are given up. */
  function ReleaseAll(s: SinkView): SinkView {
    s.(streamheader := [], handles := {}, queue := [],
       past := s.past.(released := s.past.released + multiset(s.streamheader) + multiset(s.queue)))
  }

  function Stop(s: SinkView): SinkView {
    if !s.running then s else ReleaseAll(ClearFrom(s, 0).(running := false))
  }

  // ---- Runs ----

  datatype Event =
    | AddE(h: Handle)
    | AddFullE(h: Handle, sync: SyncMethod, burst: BurstSpec)
    | RemoveE(h: Handle, window: bool)
    | EndRemovalE(h: Handle)
    | RemoveFlushE(h: Handle)
    | ClearE
    | CapsE(caps: Caps)
    | RenderE(buf: Buffer)
    | SocketE(h: Handle, cond: Condition, incoming: seq<ReadReply>, replies: seq<Reply>, window: bool)
    | StartE
    | StopE

  /** The element is not stopped while a removal is between its two halves. */
  predicate Enabled(s: SinkView, e: Event) {
    e == StopE ==> forall i :: 0 <= i < |s.clients| ==> !s.clients[i].removing
  }

  function Step(cfg: Config, s: SinkView, e: Event): SinkView
    requires CursorsInside(s)
  {
    match e
    case AddE(h) => Add(cfg, s, h)
    case AddFullE(h, sync, burst) => AddFull(s, h, sync, burst)
    case RemoveE(h, window) => Remove(s, h, window)
    case EndRemovalE(h) => EndRemoval(s, h)
    case RemoveFlushE(h) => RemoveFlush(s, h)
    case ClearE => ClearFrom(s, 0)
    case CapsE(caps) => s.(caps := caps)
    case RenderE(buf) => Render(cfg, s, buf)
    case SocketE(h, cond, incoming, replies, window) => SocketCondition(cfg, s, h, cond, incoming, replies, window)
    case StartE => Start(s)
    case StopE => Stop(s)
  }

  /** The element before its first start. */
  function Initial(caps: Caps): SinkView {
    SinkView(false, [], {}, [], [], false, caps, 0, 0, 0, Past([], 0, multiset{}, multiset{}, [], 0))
  }
}

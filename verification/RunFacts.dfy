/** What holds after every run under further conditions on the properties or on the run. */
module RunFacts {
  import opened Basics
  import opened Buffers
  import opened Limits
  import opened Positions
  import opened Clients
  import opened ClientSafety
  import opened WriteSafety
  import opened Sink
  import opened SinkSafety
  import opened QueueSafety
  import opened Restarts
  import opened Repeats
  import opened Runs

  // ---- What steps other than a queued buffer do ----

  /** Each listed client has been advanced exactly once for every buffer since it was added, and so had each one that
      was given up. */
  ghost predicate Even(s: SinkView) { InStep(s.clients, |s.clients|, Total(s)) && EndsEven(s) }

  /** Nobody was ever found too slow. */
  ghost predicate NobodySlow(s: SinkView) {
    && (forall i :: 0 <= i < |s.clients| ==> s.clients[i].status != Slow)
    && (forall i :: 0 <= i < |s.past.gone| ==> s.past.gone[i].status != Slow)
  }

  ghost predicate SameQueue(s: SinkView, r: SinkView) {
    r.queue == s.queue && r.past.stream == s.past.stream && r.past.epoch == s.past.epoch && r.running == s.running
  }

  /** A step that leaves the queue alone, advances no cursor and finds nobody too slow. */
  ghost predicate Mild(s: SinkView, r: SinkView) {
    && SameQueue(s, r) && r.bytesToServe == s.bytesToServe
    && (Even(s) ==> Even(r)) && (NobodySlow(s) ==> NobodySlow(r)) && (Repeated(s) ==> Repeated(r))
  }

  /** A client after a step that does not advance its cursor; if it is given up now, it is noted where it was. */
  ghost predicate SameVisits(c: ClientView, r: ClientView, total: nat) {
    && r.trail.visits == c.trail.visits && r.trail.joined == c.trail.joined && (c.status != Slow ==> r.status != Slow)
    && (r.removing ==> if c.removing then r.trail.end == c.trail.end else r.trail.end.extra == Extra(c, total))
  }

  lemma SetClientMild(s: SinkView, i: nat, c: ClientView)
    requires i < |s.clients| && SameVisits(s.clients[i], c, Total(s))
    ensures Mild(s, SetClient(s, i, c))
  {
  }

  lemma DetachRepeats(s: SinkView, i: nat)
    requires i < |s.clients| && s.clients[i].removing && Repeated(s)
    ensures Repeated(Detach(s, i))
  {
    SlowedMore(s.past.gone, s.clients[i]);
    var r := Detach(s, i);
    assert forall k :: 0 <= k < |r.clients| ==> r.clients[k] == s.clients[if k < i then k else k + 1];
  }

  lemma DetachMild(s: SinkView, i: nat)
    requires i < |s.clients| && s.clients[i].removing
    ensures Mild(s, Detach(s, i))
  {
    var r := Detach(s, i);
    assert forall k :: 0 <= k < |r.clients| ==> r.clients[k] == s.clients[if k < i then k else k + 1];
    if Repeated(s) {
      DetachRepeats(s, i);
    }
  }

  lemma RemoveLinkMild(s: SinkView, i: nat, window: bool)
    requires i < |s.clients| && (s.clients[i].removing || s.clients[i].status != Slow)
    ensures Mild(s, RemoveLink(s, i, window))
  {
    if !s.clients[i].removing {
      var c := BeginRemoval(s.clients[i], Total(s));
      SetClientMild(s, i, c);
      DetachMild(SetClient(s, i, c), i);
    }
  }

  lemma RemoveAsMild(s: SinkView, i: nat, status: Status, window: bool)
    requires i < |s.clients| && status != Slow
    ensures Mild(s, RemoveAs(s, i, status, window))
  {
    SetClientMild(s, i, s.clients[i].(status := status));
    RemoveLinkMild(SetClient(s, i, s.clients[i].(status := status)), i, window);
  }

  lemma ClearMild(s: SinkView, i: nat)
    requires i <= |s.clients|
    ensures Mild(s, ClearFrom(s, i))
  {
    forall t: SinkView, j: nat | Mild(s, t) && j < |t.clients|
      ensures Mild(s, RemoveAs(t, j, Removed, false))
    {
      RemoveAsMild(t, j, Removed, false);
    }
    ClearInduction(s, i, (t: SinkView) => Mild(s, t));
  }

  lemma SettleMild(s: SinkView, i: nat, w: Written, window: bool)
    requires i < |s.clients| && SameVisits(s.clients[i], w.client, Total(s))
    requires w.client.removing || w.client.status != Slow
    ensures Mild(s, Settle(s, i, w, window))
  {
    SetClientMild(s, i, w.client);
    assert Mild(s, Served(s, i, w.client));
    if !w.stays {
      RemoveLinkMild(Served(s, i, w.client), i, window);
    }
  }

  lemma WriteMild(cfg: Config, s: SinkView, i: nat, replies: seq<Reply>, window: bool)
    requires Inv(cfg, s) && s.running && i < |s.clients| && Active(s.clients[i])
    ensures OffsetInside(s.clients[i]) && CursorInside(s.clients[i], s.queue)
    ensures Mild(s, Settle(s, i, Write(s.clients[i], SceneOf(cfg, s), replies), window))
  {
    assert Fit(s.clients[i], s.queue, s.past.stream, cfg.resend);
    WriteSound(s.clients[i], SceneOf(cfg, s), replies, s.past.stream);
    WriteHistory(s.clients[i], SceneOf(cfg, s), replies);
    SettleMild(s, i, Write(s.clients[i], SceneOf(cfg, s), replies), window);
  }

  lemma SocketMild(cfg: Config, s: SinkView, h: Handle, cond: Condition,
                   incoming: seq<ReadReply>, replies: seq<Reply>, window: bool)
    requires Inv(cfg, s) && CursorsInside(s)
    ensures Mild(s, SocketCondition(cfg, s, h, cond, incoming, replies, window))
  {
    var i := IndexOf(s.clients, h);
    if h in s.handles && i != -1 {
      var c := s.clients[i];
      assert Fit(c, s.queue, s.past.stream, cfg.resend);
      if !Active(c) {
        RemoveLinkMild(s, i, window);
      } else if cond.err {
        RemoveAsMild(s, i, Failed, window);
      } else if cond.hup {
        RemoveAsMild(s, i, Closed, window);
      } else if cond.readable {
        ReadSound(c, incoming, true);
        SettleMild(s, i, Read(c, incoming, true), window);
      } else if cond.writable {
        WriteMild(cfg, s, i, replies, window);
      }
    }
  }

  lemma AddMild(s: SinkView, h: Handle, sync: SyncMethod, burst: BurstSpec)
    ensures Mild(s, AddFull(s, h, sync, burst))
  {
    var r := AddFull(s, h, sync, burst);
    assert r != s ==> forall k :: 0 < k < |r.clients| ==> r.clients[k] == s.clients[k - 1];
  }

  lemma RemoveMild(s: SinkView, h: Handle, window: bool)
    ensures Mild(s, Remove(s, h, window))
  {
    var i := IndexOf(s.clients, h);
    if i != -1 {
      RemoveAsMild(s, i, Removed, window);
    }
  }

  lemma EndRemovalMild(s: SinkView, h: Handle)
    ensures Mild(s, EndRemoval(s, h))
  {
    var i := IndexOf(s.clients, h);
    if i != -1 && s.clients[i].removing {
      DetachMild(s, i);
    }
  }

  lemma RemoveFlushMild(s: SinkView, h: Handle)
    ensures Mild(s, RemoveFlush(s, h))
  {
    var i := IndexOf(s.clients, h);
    if i != -1 {
      SetClientMild(s, i, BeginFlush(s.clients[i], Total(s)));
    }
  }

  lemma CapsMild(s: SinkView, caps: Caps)
    ensures Mild(s, s.(caps := caps))
  {
  }

  lemma ClientsStepMild(cfg: Config, s: SinkView, e: Event)
    requires CursorsInside(s) && IsAboutClients(e)
    ensures Mild(s, Step(cfg, s, e))
  {
    match e {
      case AddE(h) =>
        AddMild(s, h, cfg.defSync, BurstSpec(cfg.defBurstFormat, cfg.defBurstValue, cfg.defBurstFormat, UNSET));
      case AddFullE(h, sync, burst) => AddMild(s, h, sync, burst);
      case RemoveE(h, window) => RemoveMild(s, h, window);
      case EndRemovalE(h) => EndRemovalMild(s, h);
      case RemoveFlushE(h) => RemoveFlushMild(s, h);
      case ClearE => ClearMild(s, 0);
    }
    ByEvent(cfg, s, e, (t: SinkView) => Mild(s, t));
  }

  /** Every step but starting, stopping and rendering. */
  lemma StepMild(cfg: Config, s: SinkView, e: Event)
    requires Inv(cfg, s) && CursorsInside(s) && !e.RenderE? && e != StartE && e != StopE
    ensures Mild(s, Step(cfg, s, e))
  {
    if IsAboutClients(e) {
      ClientsStepMild(cfg, s, e);
    } else {
      match e {
        case CapsE(caps) => CapsMild(s, caps);
        case SocketE(h, cond, incoming, replies, window) => SocketMild(cfg, s, h, cond, incoming, replies, window);
      }
      ByEvent(cfg, s, e, (t: SinkView) => Mild(s, t));
    }
  }

  /** What rendering, starting and stopping bring about, and every step that is mild, holds after any step. */
  lemma AnyStep(cfg: Config, s: SinkView, e: Event, holds: SinkView -> bool)
    requires Inv(cfg, s) && CursorsInside(s)
    requires e.RenderE? ==> holds(Render(cfg, s, e.buf))
    requires e == StartE ==> holds(Sink.Start(s))
    requires e == StopE ==> holds(Stop(s))
    requires forall t :: Mild(s, t) ==> holds(t)
    ensures holds(Step(cfg, s, e))
  {
    if e.RenderE? || e == StartE || e == StopE {
      ByEvent(cfg, s, e, holds);
    } else {
      StepMild(cfg, s, e);
    }
  }

  /** What is told apart by the clients, by those that have left and by the length of the stream. */
  lemma SameClients(s: SinkView, r: SinkView)
    requires r.clients == s.clients && r.past.gone == s.past.gone && r.past.stream == s.past.stream
    ensures Even(s) ==> Even(r)
    ensures NobodySlow(s) ==> NobodySlow(r)
    ensures Repeated(s) ==> Repeated(r)
  {
  }

  lemma StartKeeps(cfg: Config, s: SinkView)
    requires IdleIsEmpty(s)
    ensures Even(s) ==> Even(Sink.Start(s))
    ensures NobodySlow(s) ==> NobodySlow(Sink.Start(s))
    ensures Repeated(s) ==> Repeated(Sink.Start(s))
    ensures Sink.Start(s) == s || (Sink.Start(s).queue == [] && Sink.Start(s).past.epoch == Total(s))
    ensures Sink.Start(s).past.stream == s.past.stream
  {
    assert !s.running ==> WatchedAll(s.clients) == [];
    SameClients(s, Sink.Start(s));
  }

  lemma StopKeeps(s: SinkView)
    ensures Even(s) ==> Even(Stop(s))
    ensures NobodySlow(s) ==> NobodySlow(Stop(s))
    ensures Repeated(s) ==> Repeated(Stop(s))
    ensures Stop(s) == s || (Stop(s).queue == [] && !Stop(s).running && Stop(s).past.epoch == s.past.epoch)
    ensures Stop(s).past.stream == s.past.stream
  {
    ClearMild(s, 0);
    if s.running {
      SameClients(ClearFrom(s, 0), Stop(s));
    }
  }

  // ---- Numbers, and how often clients are advanced again ----

  lemma RenderRepeats(cfg: Config, s: SinkView, b: Buffer)
    requires Repeated(s)
    ensures Repeated(Render(cfg, s, b))
  {
    if s.running {
      SameClients(s, Noted(s, b));
      if b.header {
        SameClients(s, Render(cfg, s, b));
      } else {
        QueueBufferRepeats(cfg, Noted(s, b), b);
        SameClients(QueueBuffer(cfg, Noted(s, b), b), Render(cfg, s, b));
      }
    }
  }

  lemma StepRepeats(cfg: Config, s: SinkView, e: Event)
    requires Inv(cfg, s) && Repeated(s)
    ensures CursorsInside(s) && Repeated(Step(cfg, s, e))
  {
    InvCursors(cfg, s);
    if e.RenderE? {
      RenderRepeats(cfg, s, e.buf);
    }
    StartKeeps(cfg, s);
    StopKeeps(s);
    AnyStep(cfg, s, e, Repeated);
  }

  lemma RepeatedLatest(s: SinkView, c: ClientView)
    requires Repeated(s) && Known(s, c) && (c in s.past.gone ==> c.removing)
    ensures LastMark(c, Total(s)).extra <= Slowed(s.past.gone)
  {
    if c in s.past.gone {
      var k :| 0 <= k < |s.past.gone| && s.past.gone[k] == c;
    } else {
      var k :| 0 <= k < |s.clients| && s.clients[k] == c;
    }
  }

  /** For a client that is listed or has left: its next number (for one that has left, when it was given up) is where
      it started, plus what it picked, plus what it dropped, less the visits in excess of one for each buffer, of which
      there are no more than clients were removed as slow; without excess visits its numbers strictly increase. */
  lemma NumbersAreAccounted(cfg: Config, caps: Caps, es: seq<Event>, c: ClientView)
    requires Known(After(cfg, caps, es), c)
    ensures var s := After(cfg, caps, es);
            var m, now := c.trail.start, LastMark(c, Total(s));
            && 0 <= m.extra <= now.extra <= Slowed(s.past.gone)
            && (!c.newConnection ==>
                  && c.trail.log != []
                  && now.next == m.next + |c.trail.log| + (now.dropped - m.dropped) - (now.extra - m.extra))
            && (now.extra == m.extra ==>
                  && (forall j, k :: 0 <= j < k < |c.trail.log| ==> c.trail.log[j] < c.trail.log[k])
                  && (c.trail.log != [] ==> c.trail.log[|c.trail.log| - 1] < now.next))
  {
    InitialInv(cfg, caps);
    forall s: SinkView, e: Event | Inv(cfg, s) && Enabled(s, e) && Repeated(s)
      ensures CursorsInside(s) && Repeated(Step(cfg, s, e))
    {
      StepRepeats(cfg, s, e);
    }
    RunInduction(cfg, Initial(caps), es, Repeated);
    AfterInv(cfg, caps, es);
    EverybodyIsRecorded(cfg, After(cfg, caps, es), c);
    NumbersOfEverybody(cfg, After(cfg, caps, es), c);
    RepeatedLatest(After(cfg, caps, es), c);
  }

  // ---- Runs in which nobody is advanced twice ----

  /** Rendering `b` advances everybody at most once. */
  ghost predicate RendersUndisturbed(cfg: Config, s: SinkView, b: Buffer) {
    s.running && !b.header ==> !Disturbed(s.clients, 0, LimitOf(cfg, [b] + s.queue))
  }

  lemma QueueBufferEven(cfg: Config, s: SinkView, b: Buffer)
    requires Even(s) && !Disturbed(s.clients, 0, LimitOf(cfg, [b] + s.queue))
    ensures Even(QueueBuffer(cfg, s, b))
  {
    var w, lim := Walk(Prepend(s, b), 0, 0), LimitOf(cfg, [b] + s.queue);
    UndisturbedInStep(w, lim);
  }

  lemma RenderEven(cfg: Config, s: SinkView, b: Buffer)
    requires Even(s) && RendersUndisturbed(cfg, s, b)
    ensures Even(Render(cfg, s, b))
  {
    if s.running {
      if !b.header {
        QueueBufferEven(cfg, Noted(s, b), b);
      }
    }
  }

  /** No buffer rendered during the run makes a pass start over behind clients it has advanced. */
  ghost predicate UndisturbedRun(cfg: Config, s: SinkView, es: seq<Event>)
    requires Inv(cfg, s)
    decreases |es|
  {
    if es == [] then true
    else if !Enabled(s, es[0]) then UndisturbedRun(cfg, s, es[1..])
    else
      StepInv(cfg, s, es[0]);
      && (es[0].RenderE? ==> RendersUndisturbed(cfg, s, es[0].buf))
      && UndisturbedRun(cfg, Step(cfg, s, es[0]), es[1..])
  }

  lemma StepEven(cfg: Config, s: SinkView, e: Event)
    requires Inv(cfg, s) && Even(s) && CursorsInside(s)
    requires e.RenderE? ==> RendersUndisturbed(cfg, s, e.buf)
    ensures Even(Step(cfg, s, e))
  {
    if e.RenderE? {
      RenderEven(cfg, s, e.buf);
    }
    StartKeeps(cfg, s);
    StopKeeps(s);
    AnyStep(cfg, s, e, Even);
  }

  lemma {:induction false} RunEven(cfg: Config, s: SinkView, es: seq<Event>)
    requires Inv(cfg, s) && Even(s) && UndisturbedRun(cfg, s, es)
    ensures Even(Run(cfg, s, es))
    decreases |es|
  {
    if es != [] {
      if Enabled(s, es[0]) {
        StepInv(cfg, s, es[0]);
        StepEven(cfg, s, es[0]);
        RunEven(cfg, Step(cfg, s, es[0]), es[1..]);
      } else {
        RunEven(cfg, s, es[1..]);
      }
    }
  }

  ghost predicate UndisturbedAfter(cfg: Config, caps: Caps, es: seq<Event>) {
    InitialInv(cfg, caps);
    UndisturbedRun(cfg, Initial(caps), es)
  }

  lemma EvenLatest(s: SinkView, c: ClientView)
    requires Even(s) && Known(s, c) && (c in s.past.gone ==> c.removing)
    ensures LastMark(c, Total(s)).extra == 0
  {
    if c in s.past.gone {
      var k :| 0 <= k < |s.past.gone| && s.past.gone[k] == c;
    } else {
      var k :| 0 <= k < |s.clients| && s.clients[k] == c;
    }
  }

  /** Over a run in which no pass advances anybody twice, each client, listed or gone, received strictly increasing
      numbers, and once it has started every number it did not receive is counted as dropped. */
  lemma EveryGapIsCounted(cfg: Config, caps: Caps, es: seq<Event>, c: ClientView)
    requires UndisturbedAfter(cfg, caps, es) && Known(After(cfg, caps, es), c)
    ensures var now := LastMark(c, Total(After(cfg, caps, es)));
            && Increasing(c.trail.log)
            && (c.trail.log != [] ==> c.trail.log[|c.trail.log| - 1] < now.next)
            && (!c.newConnection ==>
                  && c.trail.log != []
                  && now.next == c.trail.start.next + |c.trail.log| + (now.dropped - c.trail.start.dropped))
  {
    InitialInv(cfg, caps);
    RunEven(cfg, Initial(caps), es);
    AfterInv(cfg, caps, es);
    EverybodyIsRecorded(cfg, After(cfg, caps, es), c);
    EvenLatest(After(cfg, caps, es), c);
    NumbersOfEverybody(cfg, After(cfg, caps, es), c);
  }

  // ---- Policies under which nobody is ever too slow ----

  /** No client from position `i` on is too slow after it has been advanced, and recovered if need be. */
  ghost predicate Brisk(cs: seq<ClientView>, i: nat, lim: Limit)
    requires |lim.queue| > 0
  {
    forall k :: i <= k < |cs| ==> !TooSlow(Advance(cs[k], lim), lim)
  }

  /** Then the walk visits everybody once and removes nobody. */
  lemma {:induction false} BriskPass(w: Walk, lim: Limit)
    requires |lim.queue| > 0 && w.i <= |w.sink.clients| && Brisk(w.sink.clients, w.i, lim)
    ensures var r := Pass(w, lim).sink;
            && |r.clients| == |w.sink.clients| && r == w.sink.(clients := r.clients)
            && (forall k :: 0 <= k < w.i ==> r.clients[k] == w.sink.clients[k])
            && (forall k :: w.i <= k < |r.clients| ==> r.clients[k] == Woken(Advance(w.sink.clients[k], lim)))
    decreases |w.sink.clients| - w.i
  {
    if w.i < |w.sink.clients| {
      BriskPass(Visit(w, lim), lim);
    }
  }

  lemma BriskQueueBuffer(cfg: Config, s: SinkView, b: Buffer)
    requires Brisk(s.clients, 0, LimitOf(cfg, [b] + s.queue))
    ensures var r := QueueBuffer(cfg, s, b);
            && |r.clients| == |s.clients| && r.handles == s.handles && r.past.gone == s.past.gone
            && (forall k :: 0 <= k < |r.clients| ==>
                  r.clients[k] == Woken(Advance(s.clients[k], LimitOf(cfg, [b] + s.queue))))
            && r.past.stream == s.past.stream + [b]
  {
    BriskPass(Walk(Prepend(s, b), 0, 0), LimitOf(cfg, [b] + s.queue));
  }

  /** Recovery puts a client behind the soft limit, which is no larger than the hard one. */
  predicate NeverKicks(cfg: Config) {
    && cfg.unitsSoftMax > 0
    && (cfg.unitsMax <= 0 || cfg.unitsSoftMax <= cfg.unitsMax)
    && (cfg.policy == ResyncLatest || cfg.policy == ResyncKeyframe)
  }

  lemma NeverKicksIsBrisk(cfg: Config, q: seq<Buffer>, c: ClientView)
    requires NeverKicks(cfg) && |q| > 0
    ensures !TooSlow(Advance(c, LimitOf(cfg, q)), LimitOf(cfg, q))
    ensures Advance(c, LimitOf(cfg, q)).bufpos < LimitOf(cfg, q).soft
  {
    LagTestIsExact(cfg.unitFormat, q, cfg.unitsSoftMax, 0);
    if cfg.unitsMax > 0 {
      BuffersMaxMonotone(cfg.unitFormat, q, cfg.unitsSoftMax, cfg.unitsMax);
    }
  }

  lemma NeverKicksRender(cfg: Config, s: SinkView, b: Buffer)
    requires NeverKicks(cfg)
    ensures RendersUndisturbed(cfg, s, b)
    ensures NobodySlow(s) ==> NobodySlow(Render(cfg, s, b))
  {
    var q := [b] + s.queue;
    forall k | 0 <= k < |s.clients|
      ensures !TooSlow(Advance(s.clients[k], LimitOf(cfg, q)), LimitOf(cfg, q))
    {
      NeverKicksIsBrisk(cfg, q, s.clients[k]);
    }
    if s.running && !b.header {
      BriskQueueBuffer(cfg, Noted(s, b), b);
    }
  }

  lemma NeverKicksStep(cfg: Config, s: SinkView, e: Event)
    requires NeverKicks(cfg) && Inv(cfg, s) && CursorsInside(s) && NobodySlow(s)
    ensures e.RenderE? ==> RendersUndisturbed(cfg, s, e.buf)
    ensures NobodySlow(Step(cfg, s, e))
  {
    if e.RenderE? {
      NeverKicksRender(cfg, s, e.buf);
    }
    StartKeeps(cfg, s);
    StopKeeps(s);
    AnyStep(cfg, s, e, NobodySlow);
  }

  lemma {:induction false} NeverKicksRun(cfg: Config, s: SinkView, es: seq<Event>)
    requires NeverKicks(cfg) && Inv(cfg, s) && NobodySlow(s)
    ensures UndisturbedRun(cfg, s, es) && NobodySlow(Run(cfg, s, es))
    decreases |es|
  {
    if es != [] {
      if Enabled(s, es[0]) {
        StepInv(cfg, s, es[0]);
        NeverKicksStep(cfg, s, es[0]);
        NeverKicksRun(cfg, Step(cfg, s, es[0]), es[1..]);
      } else {
        NeverKicksRun(cfg, s, es[1..]);
      }
    }
  }

  /** With such a policy no client is ever removed as too slow, and nobody is ever advanced twice. */
  lemma NobodyIsKicked(cfg: Config, caps: Caps, es: seq<Event>)
    requires NeverKicks(cfg)
    ensures var s := After(cfg, caps, es);
            && (forall c :: c in s.clients || c in s.past.gone ==> c.status != Slow)
            && (forall c :: c in s.clients ==> Extra(c, Total(s)) == 0)
    ensures UndisturbedAfter(cfg, caps, es)
  {
    InitialInv(cfg, caps);
    NeverKicksRun(cfg, Initial(caps), es);
    RunEven(cfg, Initial(caps), es);
  }

  // ---- The bytes there are to serve ----

  function SizeOf(bs: seq<Buffer>): nat {
    if bs == [] then 0 else SizeOf(bs[..|bs| - 1]) + bs[|bs| - 1].Size()
  }

  /** Every data buffer queued since the start, and nothing else, is counted as to be served. */
  ghost predicate CountsToServe(s: SinkView) {
    s.running ==> s.past.epoch <= Total(s) && s.bytesToServe == SizeOf(s.past.stream[s.past.epoch..])
  }

  lemma SizeOfMore(bs: seq<Buffer>, b: Buffer)
    ensures SizeOf(bs + [b]) == SizeOf(bs) + b.Size()
  {
    assert (bs + [b])[..|bs|] == bs;
  }

  lemma RenderCounts(cfg: Config, s: SinkView, b: Buffer)
    requires CountsToServe(s)
    ensures CountsToServe(Render(cfg, s, b))
  {
    if s.running && !b.header {
      QueueBufferFrame(cfg, Noted(s, b), b);
      SizeOfMore(s.past.stream[s.past.epoch..], b);
      assert (s.past.stream + [b])[s.past.epoch..] == s.past.stream[s.past.epoch..] + [b];
    }
  }

  lemma StartStopCount(s: SinkView)
    requires CountsToServe(s)
    ensures CountsToServe(Sink.Start(s)) && CountsToServe(Stop(s))
  {
    StopKeeps(s);
  }

  lemma StepCounts(cfg: Config, s: SinkView, e: Event)
    requires Inv(cfg, s) && CountsToServe(s)
    ensures CursorsInside(s) && CountsToServe(Step(cfg, s, e))
  {
    InvCursors(cfg, s);
    if e.RenderE? {
      RenderCounts(cfg, s, e.buf);
    }
    StartStopCount(s);
    AnyStep(cfg, s, e, CountsToServe);
  }

  /** While the element runs, the bytes to serve are those of the data buffers queued since it was started. */
  lemma ToServeIsQueued(cfg: Config, caps: Caps, es: seq<Event>)
    requires After(cfg, caps, es).running
    ensures var s := After(cfg, caps, es);
            s.past.epoch <= Total(s) && s.bytesToServe == SizeOf(s.past.stream[s.past.epoch..])
  {
    InitialInv(cfg, caps);
    forall s: SinkView, e: Event | Inv(cfg, s) && Enabled(s, e) && CountsToServe(s)
      ensures CursorsInside(s) && CountsToServe(Step(cfg, s, e))
    {
      StepCounts(cfg, s, e);
    }
    RunInduction(cfg, Initial(caps), es, CountsToServe);
  }
}

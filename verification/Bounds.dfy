/** How long the queue gets, what completes a flush, and where the element falls short of its documentation. */
module Bounds {
  import opened Basics
  import opened Buffers
  import opened Limits
  import opened Positions
  import opened Clients
  import opened ClientSafety
  import opened WriteSafety
  import opened Sink
  import opened SinkSafety
  import opened QueueSafety
  import opened Restarts
  import opened Runs
  import opened RunFacts
  import opened Retention

  // ---- The length of the queue ----

  /** No client that a walk keeps has its cursor at `cap` or beyond. */
  ghost predicate CapsCursors(lim: Limit, cap: int) {
    && cap > 0
    && ((0 < lim.soft <= cap && (lim.policy == ResyncLatest || lim.policy == ResyncKeyframe)) || 0 < lim.hard <= cap)
  }

  lemma UsageIsCapped(w: Walk, lim: Limit, cap: int)
    requires |lim.queue| > 0 && w.i <= |w.sink.clients| && CapsCursors(lim, cap)
    ensures Pass(w, lim).usage <= Max(w.usage, cap - 1)
  {
    PassInduction(w, lim, (v: Walk) => v.usage <= Max(w.usage, cap - 1));
  }

  /** Nothing but the clients asks for buffers to be kept. */
  predicate KeepsNoReserve(cfg: Config) {
    && cfg.bytesMin == UNSET && cfg.buffersMin == UNSET && cfg.timeMin == UNSET
    && cfg.defSync != LatestKeyframe && cfg.defSync != BurstKeyframe
  }

  /** A limit, in the unit of the element, behind which no client is kept. */
  predicate CapsLag(cfg: Config, max: int) {
    && max > 0
    && ((0 < cfg.unitsSoftMax <= max && (cfg.policy == ResyncLatest || cfg.policy == ResyncKeyframe))
        || 0 < cfg.unitsMax <= max)
  }

  /** The queue without its oldest buffer is no more than the limit, or it holds at most two buffers. */
  predicate Short(cfg: Config, q: seq<Buffer>, max: int) {
    |q| <= 2 || !Exceeds(cfg.unitFormat, q, |q| - 1, max)
  }

  lemma LimitCapsCursors(cfg: Config, q: seq<Buffer>, max: int)
    requires CapsLag(cfg, max) && |q| > 0
    ensures CapsCursors(LimitOf(cfg, q), BuffersMax(cfg.unitFormat, q, max))
  {
    LagTestIsExact(cfg.unitFormat, q, max, 0);
    if 0 < cfg.unitsSoftMax <= max {
      LagTestIsExact(cfg.unitFormat, q, cfg.unitsSoftMax, 0);
      BuffersMaxMonotone(cfg.unitFormat, q, cfg.unitsSoftMax, max);
    }
    if 0 < cfg.unitsMax <= max {
      LagTestIsExact(cfg.unitFormat, q, cfg.unitsMax, 0);
      BuffersMaxMonotone(cfg.unitFormat, q, cfg.unitsMax, max);
    }
  }

  lemma QueueBufferIsShort(cfg: Config, s: SinkView, b: Buffer, max: int)
    requires KeepsNoReserve(cfg) && CapsLag(cfg, max)
    ensures Short(cfg, QueueBuffer(cfg, s, b).queue, max)
  {
    var q, r, lim := [b] + s.queue, QueueBuffer(cfg, s, b).queue, LimitOf(cfg, [b] + s.queue);
    QueueAfter(cfg, s, b);
    LimitCapsCursors(cfg, q, max);
    UsageIsCapped(Walk(Prepend(s, b), 0, 0), lim, BuffersMax(cfg.unitFormat, q, max));
    assert MinMet(q, 0, UNSET, UNSET);
    if |r| > 2 {
      LagTestIsExact(cfg.unitFormat, q, max, |r| - 1);
      ExceedsOfPrefix(cfg.unitFormat, q, r, |r| - 1, max);
    }
  }

  lemma RenderIsShort(cfg: Config, s: SinkView, b: Buffer, max: int)
    requires KeepsNoReserve(cfg) && CapsLag(cfg, max) && Short(cfg, s.queue, max)
    ensures Short(cfg, Render(cfg, s, b).queue, max)
  {
    QueueBufferIsShort(cfg, Noted(s, b), b, max);
  }

  lemma StepIsShort(cfg: Config, s: SinkView, e: Event, max: int)
    requires Inv(cfg, s) && KeepsNoReserve(cfg) && CapsLag(cfg, max) && Short(cfg, s.queue, max)
    ensures CursorsInside(s) && Short(cfg, Step(cfg, s, e).queue, max)
  {
    InvCursors(cfg, s);
    if e.RenderE? {
      RenderIsShort(cfg, s, e.buf, max);
    }
    StartKeeps(cfg, s);
    StopKeeps(s);
    AnyStep(cfg, s, e, (t: SinkView) => Short(cfg, t.queue, max));
  }

  /** Whatever happens, and in whatever unit the limit is set: the queue without its oldest buffer never exceeds the
      limit, unless it holds two buffers or fewer. */
  lemma QueueIsBounded(cfg: Config, caps: Caps, es: seq<Event>, max: int)
    requires KeepsNoReserve(cfg) && CapsLag(cfg, max)
    ensures Short(cfg, After(cfg, caps, es).queue, max)
  {
    InitialInv(cfg, caps);
    forall s: SinkView, e: Event | Inv(cfg, s) && Enabled(s, e) && Short(cfg, s.queue, max)
      ensures CursorsInside(s) && Short(cfg, Step(cfg, s, e).queue, max)
    {
      StepIsShort(cfg, s, e, max);
    }
    RunInduction(cfg, Initial(caps), es, (s: SinkView) => Short(cfg, s.queue, max));
  }

  /** In buffers: the queue never holds more than the limit, or two. */
  lemma QueueHoldsNoMore(cfg: Config, caps: Caps, es: seq<Event>, max: int)
    requires KeepsNoReserve(cfg) && CapsLag(cfg, max) && cfg.unitFormat != Time && cfg.unitFormat != Bytes
    ensures |After(cfg, caps, es).queue| <= Max(max, 2)
  {
    QueueIsBounded(cfg, caps, es, max);
  }

  /** The settings of the video sink: at most two buffers, recovery after one, start with the latest. */
  const PULSEVIDEO := Config(Format.Buffers, 2, 1, ResyncLatest, SyncMethod.Latest, Undefined, 0, UNSET, UNSET, UNSET,
                            true)

  /** With these the queue holds at most two buffers, no client is removed as slow, and every gap is counted. */
  lemma PulseVideoSettings(caps: Caps, es: seq<Event>)
    ensures |After(PULSEVIDEO, caps, es).queue| <= 2
    ensures forall c :: c in After(PULSEVIDEO, caps, es).clients || c in After(PULSEVIDEO, caps, es).past.gone
                        ==> c.status != Slow
    ensures UndisturbedAfter(PULSEVIDEO, caps, es)
  {
    QueueHoldsNoMore(PULSEVIDEO, caps, es, 1);
    NobodyIsKicked(PULSEVIDEO, caps, es);
  }

  // ---- Flushing ----

  lemma FlushedHasSentAll(c: ClientView, total: nat, stream: seq<Buffer>, resend: bool)
    requires Leaving(c, total, stream, resend) && c.trail.flushed && c.status == Removed
    ensures c.trail.wire == Queued(c) && |c.trail.log| - c.trail.flush.picked == c.trail.flushTo - c.trail.flush.next
    ensures c.dropped == c.trail.flush.dropped && Extra(c, total) == c.trail.flush.extra ==>
              forall k :: c.trail.flush.picked <= k < |c.trail.log| ==>
                c.trail.log[k] == c.trail.flush.next + (k - c.trail.flush.picked)
  {
  }

  /** When a flush ends, all bytes queued to the client are on its wire, it has picked as many buffers as were counted
      when the flush began, and, if no recovery and no excess visit intervened, exactly those, in order. */
  lemma FlushIsComplete(c: ClientView, sc: Scene, replies: seq<Reply>, stream: seq<Buffer>)
    requires !c.removing && CursorInside(c, sc.queue) && SceneMatches(sc, stream)
    requires Sound(c, sc.total, stream, sc.resend) && c.status == Flushing
    requires OffsetInside(c) && Write(c, sc, replies).client.status == Removed
    ensures var r := Write(c, sc, replies).client;
            var m := c.trail.flush;
            && r.trail.wire == BytesOf(BuffersOf(r.trail.items))
            && |r.trail.log| - m.picked == c.trail.flushTo - m.next
            && (c.dropped == m.dropped && Extra(c, sc.total) == m.extra ==>
                  forall k :: m.picked <= k < |r.trail.log| ==> r.trail.log[k] == m.next + (k - m.picked))
  {
    WriteSound(c, sc, replies, stream);
    WriteHistory(c, sc, replies);
    var w := Write(c, sc, replies);
    assert !w.stays;
    FlushedHasSentAll(w.client, sc.total, stream, sc.resend);
  }

  // ---- Where the documentation promises more ----

  /** `recover-policy=latest` is documented to send the most recently received buffer next. The cursor is set to -1
      instead: next comes the first buffer that has not arrived yet. */
  lemma ResyncLatestWaits(c: ClientView, lim: Limit, total: nat)
    requires |lim.queue| > 0 && lim.policy == ResyncLatest && 0 < lim.soft <= c.bufpos + 1
    ensures Next(Advance(c, lim), total) == total
    ensures Advance(c, lim).dropped == c.dropped + c.bufpos + 2
  {
  }

  /** `recover-policy=keyframe` is documented to move to the most recent keyframe. The code takes the one closest to
      what the client has received, which is the most recent one exactly if no other lies before the soft limit. */
  lemma ResyncKeyframeIsNewestIff(q: seq<Buffer>, soft: int, bufpos: int)
    requires |q| > 0 && 0 < soft <= bufpos
    ensures var r, newest := Recover(ResyncKeyframe, q, soft, bufpos), NextSync(q, 0);
            && (forall k :: r < k < soft && k < |q| ==> !q[k].IsSync())
            && (r == newest <==>
                  newest == -1 || (newest < soft && forall k :: newest < k < soft && k < |q| ==> !q[k].IsSync()))
  {
    var r, newest := Recover(ResyncKeyframe, q, soft, bufpos), NextSync(q, 0);
    if newest != -1 && newest < soft {
      assert q[newest].IsSync() && newest <= Min(|q| - 1, soft - 1);
      assert r >= newest;
    }
  }

  /** What the minima alone keep. */
  function Reserve(cfg: Config, q: seq<Buffer>): int
    requires |q| > 0
  {
    LimitRange(q, cfg.bytesMin, cfg.buffersMin, cfg.timeMin, UNSET, UNSET).min + 1
  }

  predicate StartsLateClientsOnKeyframe(cfg: Config) { cfg.defSync == LatestKeyframe || cfg.defSync == BurstKeyframe }

  ghost predicate HoldsKeyframe(q: seq<Buffer>) { exists p :: 0 <= p < |q| && q[p].IsSync() }

  /** In terms of what the walk reports as used. */
  lemma KeyframeKeptAfterWalk(cfg: Config, s: SinkView, b: Buffer)
    requires StartsLateClientsOnKeyframe(cfg)
    ensures var q, lim := [b] + s.queue, LimitOf(cfg, [b] + s.queue);
            var k := NextSync(q, 0);
            HoldsKeyframe(QueueBuffer(cfg, s, b).queue)
            <==> k != -1 && (lim.soft <= 0 || k < lim.soft || k <= Max(Walked(cfg, s, b).usage, Reserve(cfg, q)))
  {
    QueueAfter(cfg, s, b);
    var q, r := [b] + s.queue, QueueBuffer(cfg, s, b);
    var k := NextSync(q, 0);
    if k != -1 && k < |r.queue| {
      assert r.queue[k].IsSync();
    }
    assert forall p :: 0 <= p < |r.queue| ==> r.queue[p] == q[p];
  }

  /** With a default method that starts on a keyframe the element is documented to keep at least one keyframe. It does
      so when there is one and the newest lies before the soft limit, or where a client that stays, or a minimum,
      reaches; and in no other case if nobody is advanced twice. In any case a hard limit bounds where clients reach. */
  lemma KeyframeKeptIff(cfg: Config, s: SinkView, b: Buffer)
    requires StartsLateClientsOnKeyframe(cfg)
    ensures var q, lim := [b] + s.queue, LimitOf(cfg, [b] + s.queue);
            var k := NextSync(q, 0);
            var before := lim.soft <= 0 || k < lim.soft;
            var holds := HoldsKeyframe(QueueBuffer(cfg, s, b).queue);
            && (k != -1 && (before || k <= Max(Furthest(s.clients, lim), Reserve(cfg, q))) ==> holds)
            && (holds && !Disturbed(s.clients, 0, lim) ==>
                  k != -1 && (before || k <= Max(Furthest(s.clients, lim), Reserve(cfg, q))))
            && (holds && cfg.unitsMax > 0 ==> k != -1 && (before || k <= Max(lim.hard - 1, Reserve(cfg, q))))
  {
    var q, lim := [b] + s.queue, LimitOf(cfg, [b] + s.queue);
    KeyframeKeptAfterWalk(cfg, s, b);
    UsageOfPass(cfg, s, b);
    if cfg.unitsMax > 0 {
      LagTestIsExact(cfg.unitFormat, q, cfg.unitsMax, 0);
      UsageIsCapped(Walk(Prepend(s, b), 0, 0), lim, lim.hard);
    }
  }

  /** If lagging clients are resynced to the latest buffer or to a keyframe, the clients do not matter. */
  lemma KeyframeKeptUnderRecoveryIff(cfg: Config, s: SinkView, b: Buffer)
    requires StartsLateClientsOnKeyframe(cfg)
    requires cfg.unitsSoftMax > 0 && (cfg.policy == ResyncLatest || cfg.policy == ResyncKeyframe)
    ensures var q, lim := [b] + s.queue, LimitOf(cfg, [b] + s.queue);
            var k := NextSync(q, 0);
            HoldsKeyframe(QueueBuffer(cfg, s, b).queue) <==> k != -1 && (k < lim.soft || k <= Reserve(cfg, q))
  {
    var q, lim := [b] + s.queue, LimitOf(cfg, [b] + s.queue);
    KeyframeKeptAfterWalk(cfg, s, b);
    LagTestIsExact(cfg.unitFormat, q, cfg.unitsSoftMax, 0);
    UsageIsCapped(Walk(Prepend(s, b), 0, 0), lim, lim.soft);
  }
}

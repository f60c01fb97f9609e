/** How far the clients lag behind once a buffer has been queued. */
module Lag {
  import opened Basics
  import opened Buffers
  import opened Limits
  import opened Positions
  import opened Clients
  import opened ClientSafety
  import opened Sink
  import opened SinkSafety
  import opened QueueSafety
  import opened Retention

  /** What a visit leaves of a cursor: it lies before the hard limit, and where the policy puts it. */
  ghost predicate Within(c: ClientView, lim: Limit) {
    && (lim.hard > 0 ==> c.bufpos < lim.hard)
    && (lim.soft > 0 && (lim.policy == ResyncLatest || lim.policy == ResyncKeyframe) ==> c.bufpos < lim.soft)
    && (lim.soft > 0 && lim.policy == ResyncSoftLimit ==> c.bufpos <= lim.soft)
  }

  ghost predicate VisitedWithin(w: Walk, lim: Limit) {
    w.i <= |w.sink.clients| && forall k :: 0 <= k < w.i ==> Within(w.sink.clients[k], lim)
  }

  lemma VisitWithin(w: Walk, lim: Limit)
    requires |lim.queue| > 0 && VisitedWithin(w, lim) && w.i < |w.sink.clients|
    ensures VisitedWithin(Visit(w, lim), lim)
  {
    var r := Visit(w, lim);
    var c := Advance(w.sink.clients[w.i], lim);
    if TooSlow(c, lim) && !c.removing && r.i > 0 {
      assert forall k :: 0 <= k < w.i ==> r.sink.clients[k] == w.sink.clients[k];
    }
  }

  lemma PassWithin(w: Walk, lim: Limit)
    requires |lim.queue| > 0 && VisitedWithin(w, lim)
    ensures VisitedWithin(Pass(w, lim), lim) && Pass(w, lim).i == |Pass(w, lim).sink.clients|
  {
    forall v: Walk | VisitedWithin(v, lim) && v.i < |v.sink.clients|
      ensures VisitedWithin(Visit(v, lim), lim)
    {
      VisitWithin(v, lim);
    }
    PassInduction(w, lim, (v: Walk) => VisitedWithin(v, lim));
  }

  lemma QueueBufferWithin(cfg: Config, s: SinkView, b: Buffer, i: nat)
    requires i < |QueueBuffer(cfg, s, b).clients|
    ensures Within(QueueBuffer(cfg, s, b).clients[i], LimitOf(cfg, [b] + s.queue))
    ensures QueueBuffer(cfg, s, b).queue <= [b] + s.queue
  {
    QueueAfter(cfg, s, b);
    var lim := LimitOf(cfg, [b] + s.queue);
    PassWithin(Walk(Prepend(s, b), 0, 0), lim);
    assert VisitedWithin(Walked(cfg, s, b), lim);
  }

  /** The buffers in front of a client are more than `max` units. */
  ghost predicate LagsMore(cfg: Config, s: SinkView, c: ClientView, max: int) {
    0 <= c.bufpos <= |s.queue| && Exceeds(cfg.unitFormat, s.queue, c.bufpos, max)
  }

  /** Whatever the clients did before: once a data buffer is queued, no listed client lags by more than the hard limit,
      and, if lagging clients are resynced to the latest buffer or to a keyframe, none by more than the soft limit.
      If they are resynced to the soft limit itself, all but the oldest of the buffers before them lie within it. */
  lemma LagIsBounded(cfg: Config, s: SinkView, b: Buffer, i: nat)
    requires s.running && !b.header && i < |Render(cfg, s, b).clients|
    ensures var r := Render(cfg, s, b);
            var c := r.clients[i];
            && (cfg.unitsMax > 0 ==> !LagsMore(cfg, r, c, cfg.unitsMax))
            && (cfg.unitsSoftMax > 0 && (cfg.policy == ResyncLatest || cfg.policy == ResyncKeyframe) ==>
                  !LagsMore(cfg, r, c, cfg.unitsSoftMax))
            && (cfg.unitsSoftMax > 0 && cfg.policy == ResyncSoftLimit && 0 < c.bufpos ==>
                  !LagsMore(cfg, r, c.(bufpos := c.bufpos - 1), cfg.unitsSoftMax))
  {
    var q, r := [b] + s.queue, QueueBuffer(cfg, Noted(s, b), b);
    var lim, c := LimitOf(cfg, q), r.clients[i];
    QueueBufferWithin(cfg, Noted(s, b), b, i);
    CursorBoundsLag(cfg, q, r.queue, c.bufpos, cfg.unitsMax, lim.hard);
    CursorBoundsLag(cfg, q, r.queue, c.bufpos, cfg.unitsSoftMax, lim.soft);
    CursorBoundsLag(cfg, q, r.queue, c.bufpos - 1, cfg.unitsSoftMax, lim.soft);
  }

  lemma CursorBoundsLag(cfg: Config, q: seq<Buffer>, p: seq<Buffer>, pos: int, max: int, limit: int)
    requires p <= q && (max > 0 ==> limit == BuffersMax(cfg.unitFormat, q, max))
    ensures max > 0 && 0 <= pos <= |p| && pos < limit ==> !Exceeds(cfg.unitFormat, p, pos, max)
  {
    if max > 0 && 0 <= pos <= |p| && pos < limit {
      LagTestIsExact(cfg.unitFormat, q, max, pos);
      ExceedsOfPrefix(cfg.unitFormat, q, p, pos, max);
    }
  }

  // ---- Who is moved, who is too slow, and who is woken ----

  /** The data in front of index `p` is more than a limit that is set. */
  ghost predicate Over(cfg: Config, q: seq<Buffer>, p: int, max: int) {
    max > 0 && 0 <= p <= |q| && Exceeds(cfg.unitFormat, q, p, max)
  }

  /** A visit moves a cursor back by one buffer; only if the data in front is then more than the soft limit, the policy
      moves it elsewhere, and every buffer skipped counts as dropped. */
  lemma VisitMovesOnlyLaggards(cfg: Config, q: seq<Buffer>, c: ClientView)
    requires |q| > 0 && -1 <= c.bufpos < |q|
    ensures var lim, p := LimitOf(cfg, q), c.bufpos + 1;
            var r := Advance(c, lim);
            && r.dropped == c.dropped + (p - r.bufpos) && r.discont == (c.discont || r.bufpos != p)
            && (!Over(cfg, q, p, cfg.unitsSoftMax) ==> r.bufpos == p)
            && (Over(cfg, q, p, cfg.unitsSoftMax) ==>
                  match cfg.policy
                  case NoRecovery => r.bufpos == p
                  case ResyncLatest => r.bufpos == -1
                  case ResyncSoftLimit => Over(cfg, q, r.bufpos, cfg.unitsSoftMax)
                                          && !Over(cfg, q, r.bufpos - 1, cfg.unitsSoftMax)
                  case ResyncKeyframe => LastUpTo(q, Min(|q| - 1, lim.soft - 1), r.bufpos)
                                         || (r.bufpos == -1 && NoSync(q, 0, lim.soft)))
  {
    var lim, p := LimitOf(cfg, q), c.bufpos + 1;
    if cfg.unitsSoftMax > 0 {
      LagTestIsExact(cfg.unitFormat, q, cfg.unitsSoftMax, p);
      if lim.soft <= p {
        RecoversTo(cfg.policy, q, lim.soft, p);
        LagTestIsExact(cfg.unitFormat, q, cfg.unitsSoftMax, lim.soft);
        LagTestIsExact(cfg.unitFormat, q, cfg.unitsSoftMax, lim.soft - 1);
      }
    }
  }

  /** A client is too slow exactly if the data in front of it, after any recovery, is more than the hard limit. */
  lemma TooSlowIff(cfg: Config, q: seq<Buffer>, c: ClientView)
    requires |q| > 0 && -1 <= c.bufpos < |q|
    ensures var r := Advance(c, LimitOf(cfg, q)); TooSlow(r, LimitOf(cfg, q)) <==> Over(cfg, q, r.bufpos, cfg.unitsMax)
  {
    var r := Advance(c, LimitOf(cfg, q));
    if cfg.unitsMax > 0 && 0 <= r.bufpos {
      LagTestIsExact(cfg.unitFormat, q, cfg.unitsMax, r.bufpos);
    } else if cfg.unitsMax > 0 {
      LagTestIsExact(cfg.unitFormat, q, cfg.unitsMax, 0);
    }
  }

  /** A visit leaves every client watched that is served: one that was not had nothing to send and waited, and now has a
      buffer to take. */
  lemma VisitWatches(c: ClientView, lim: Limit)
    requires |lim.queue| > 0 && -1 <= c.bufpos && Watched(c)
    ensures Woken(Advance(c, lim)).source
  {
  }

  /** Those who left by a walk, from the `n`-th departure on, were removed as slow, with the hard limit in front of
      them. */
  ghost predicate LeftLagging(s: SinkView, n: nat, hard: int) {
    n <= |s.past.gone|
    && forall k :: n <= k < |s.past.gone| ==>
         var c := s.past.gone[k];
         c.status == Slow && c.bufpos == -1 && 0 < hard <= Total(s) - 1 - c.trail.end.next
  }

  lemma VisitLeavesLagging(w: Walk, lim: Limit, n: nat)
    requires |lim.queue| > 0 && w.i < |w.sink.clients| && LeftLagging(w.sink, n, lim.hard)
    ensures LeftLagging(Visit(w, lim).sink, n, lim.hard)
  {
  }

  lemma PassLeavesLagging(w: Walk, lim: Limit)
    requires |lim.queue| > 0 && w.i <= |w.sink.clients|
    ensures LeftLagging(Pass(w, lim).sink, |w.sink.past.gone|, lim.hard)
  {
    var n := |w.sink.past.gone|;
    forall v: Walk | LeftLagging(v.sink, n, lim.hard) && v.i < |v.sink.clients|
      ensures LeftLagging(Visit(v, lim).sink, n, lim.hard)
    {
      VisitLeavesLagging(v, lim, n);
    }
    PassInduction(w, lim, (v: Walk) => LeftLagging(v.sink, n, lim.hard));
  }

  lemma OverAt(cfg: Config, q: seq<Buffer>, lag: int)
    requires 0 < LimitOf(cfg, q).hard <= lag <= |q|
    ensures Over(cfg, q, lag, cfg.unitsMax)
  {
    LagTestIsExact(cfg.unitFormat, q, cfg.unitsMax, lag);
  }

  /** Whoever an enqueue removes is removed as slow, and had more than the hard limit in front of it. */
  lemma WhoLeavesLagged(cfg: Config, s: SinkView, b: Buffer, k: nat)
    requires |s.past.gone| <= k < |QueueBuffer(cfg, s, b).past.gone|
    ensures var q, r := [b] + s.queue, QueueBuffer(cfg, s, b);
            var lag := Total(r) - 1 - r.past.gone[k].trail.end.next;
            && r.past.gone[k].status == Slow && r.past.gone[k].bufpos == -1
            && 0 < cfg.unitsMax && (lag <= |q| ==> Over(cfg, q, lag, cfg.unitsMax))
  {
    var q, r := [b] + s.queue, QueueBuffer(cfg, s, b);
    PassLeavesLagging(Walk(Prepend(s, b), 0, 0), LimitOf(cfg, q));
    var lag := Total(r) - 1 - r.past.gone[k].trail.end.next;
    if lag <= |q| {
      OverAt(cfg, q, lag);
    }
  }
}

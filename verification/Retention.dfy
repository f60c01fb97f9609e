/** How much of the stream the queue keeps: at least the minima, a sync frame to start on, and not too much. */
module Retention {
  import opened Basics
  import opened Buffers
  import opened Limits
  import opened Positions
  import opened Clients
  import opened ClientSafety
  import opened WriteSafety
  import opened Sink
  import opened SinkSafety
  import opened QueueSafety
  import opened Restarts
  import opened Runs
  import opened RunFacts

  // ---- A property of the queue over a run ----

  lemma RenderQueues(cfg: Config, s: SinkView, b: Buffer)
    requires s.running && !b.header
    ensures SameQueue(QueueBuffer(cfg, Noted(s, b), b), Render(cfg, s, b))
  {
  }

  /** What the queue is after a buffer: a prefix of the old queue with the buffer in front. */
  lemma QueueAfter(cfg: Config, s: SinkView, b: Buffer)
    ensures var r := QueueBuffer(cfg, s, b);
            var q, lim := [b] + s.queue, LimitOf(cfg, [b] + s.queue);
            var w := Walked(cfg, s, b);
            && 0 <= w.usage
            && r.queue == q[..Min(|q|, LastKept(cfg, lim, w.usage) + 1)]
            && r.past.stream == s.past.stream + [b] && r.past.epoch == s.past.epoch && r.running == s.running
  {
    PassFrame(Walk(Prepend(s, b), 0, 0), LimitOf(cfg, [b] + s.queue));
  }

  /** The usage the walk reports, told from the clients as they are before. */
  lemma UsageOfPass(cfg: Config, s: SinkView, b: Buffer)
    ensures var lim := LimitOf(cfg, [b] + s.queue);
            && Walked(cfg, s, b).usage >= Furthest(s.clients, lim) >= 0
            && (!Disturbed(s.clients, 0, lim) ==> Walked(cfg, s, b).usage == Furthest(s.clients, lim))
  {
    var w, lim := Walk(Prepend(s, b), 0, 0), LimitOf(cfg, [b] + s.queue);
    assert s.clients[0..] == s.clients;
    FurthestNatural(s.clients, lim);
    UsageReaches(w, lim);
    if !Disturbed(s.clients, 0, lim) {
      UndisturbedUsage(w, lim);
    }
  }

  // ---- The minima ----

  /** Valid timestamps do not decrease in the stream from number `from` on. */
  ghost predicate Chronological(stream: seq<Buffer>, from: nat) {
    forall i, j :: from <= i <= j < |stream| && stream[i].ts != NO_TIME && stream[j].ts != NO_TIME
                   ==> stream[i].ts <= stream[j].ts
  }

  /** Nothing has been trimmed since the start, or the queue meets the minima that are set. */
  ghost predicate Retains(cfg: Config, s: SinkView) {
    s.running && Chronological(s.past.stream, s.past.epoch) ==>
      || |s.queue| + s.past.epoch == Total(s)
      || (|s.queue| > 0 && MinMet(s.queue, |s.queue| - 1, cfg.bytesMin, cfg.timeMin))
  }

  lemma QueueIsSorted(q: seq<Buffer>, stream: seq<Buffer>, from: nat)
    requires QueueMatches(q, stream) && |q| + from <= |stream| && Chronological(stream, from)
    ensures TimeSorted(q)
  {
  }

  /** What is cut off lies behind the index at which the minima are met. */
  lemma TrimmedMeetsMinima(cfg: Config, lim: Limit, usage: int)
    requires |lim.queue| > 0 && LastKept(cfg, lim, usage) + 1 < |lim.queue|
    ensures var n := LastKept(cfg, lim, usage) + 1;
            MinMet(lim.queue[..n], n - 1, cfg.bytesMin, cfg.timeMin)
  {
    var q := lim.queue;
    var n := LastKept(cfg, lim, usage) + 1;
    var minima := LimitRange(q, cfg.bytesMin, cfg.buffersMin, cfg.timeMin, UNSET, UNSET).min;
    assert minima + 1 < n;
    assert MinMet(q, minima, cfg.bytesMin, cfg.timeMin);
    MinMetGrows(q, minima, n - 1, cfg.bytesMin, cfg.timeMin);
    MinMetOfPrefix(q, q[..n], n - 1, cfg.bytesMin, cfg.timeMin);
  }

  /** With a newer buffer in front, and nothing trimmed, what was retained still is. */
  lemma PrependRetains(cfg: Config, s: SinkView, b: Buffer)
    requires QueueFits(s) && Retains(cfg, s)
    ensures Retains(cfg, Prepend(s, b))
  {
    var r := Prepend(s, b);
    if r.running && Chronological(r.past.stream, s.past.epoch) && |s.queue| + s.past.epoch != Total(s) {
      PrependFits(s, b);
      QueueIsSorted(r.queue, r.past.stream, s.past.epoch);
      assert forall i :: 0 <= i < Total(s) ==> r.past.stream[i] == s.past.stream[i];
      assert Chronological(s.past.stream, s.past.epoch);
      MinMetPrepend(b, s.queue, cfg.bytesMin, cfg.timeMin);
    }
  }

  lemma QueueBufferRetains(cfg: Config, s: SinkView, b: Buffer)
    requires QueueFits(s) && Retains(cfg, s)
    ensures Retains(cfg, QueueBuffer(cfg, s, b))
  {
    var r, lim := QueueBuffer(cfg, s, b), LimitOf(cfg, [b] + s.queue);
    QueueAfter(cfg, s, b);
    if |r.queue| < |lim.queue| {
      TrimmedMeetsMinima(cfg, lim, Walked(cfg, s, b).usage);
    } else {
      PrependRetains(cfg, s, b);
      assert r.queue == lim.queue;
    }
  }

  // ---- Which buffers are kept ----

  /** The first sync frame of the queue lies at index `p` or behind it, and the soft limit allows for looking there. */
  ghost predicate ReachesForSync(cfg: Config, q: seq<Buffer>, p: nat) {
    && (cfg.defSync == LatestKeyframe || cfg.defSync == BurstKeyframe)
    && exists k :: p <= k < |q| && q[k].IsSync() && (forall j :: 0 <= j < k ==> !q[j].IsSync())
                   && (cfg.unitsSoftMax <= 0 || !Exceeds(cfg.unitFormat, q, k, cfg.unitsSoftMax))
  }

  /** The minima are not met by the buffers in front of the one before index `p`, or the queue is too short. */
  predicate ReachesForMinima(cfg: Config, q: seq<Buffer>, p: nat)
    requires p <= |q|
  {
    || p <= 1
    || (cfg.buffersMin != UNSET && |q| < cfg.buffersMin)
    || !MinMet(q, p - 2, cfg.bytesMin, cfg.timeMin)
  }

  lemma MinimaReachIff(cfg: Config, q: seq<Buffer>, p: nat)
    requires |q| > 0 && p <= |q|
    ensures p <= LimitRange(q, cfg.bytesMin, cfg.buffersMin, cfg.timeMin, UNSET, UNSET).min + 1
            <==> ReachesForMinima(cfg, q, p)
  {
    var r := LimitRange(q, cfg.bytesMin, cfg.buffersMin, cfg.timeMin, UNSET, UNSET);
    assert forall k :: 0 <= k < |q| ==> !MaxHit(q, k, UNSET, UNSET);
    if p > 1 && r.min <= p - 2 && MinMet(q, r.min, cfg.bytesMin, cfg.timeMin) {
      MinMetGrows(q, r.min, p - 2, cfg.bytesMin, cfg.timeMin);
    }
  }

  lemma SyncReachIff(cfg: Config, q: seq<Buffer>, p: nat)
    requires |q| > 0 && (cfg.defSync == LatestKeyframe || cfg.defSync == BurstKeyframe)
    ensures var soft, k := LimitOf(cfg, q).soft, NextSync(q, 0);
            p <= k && k != -1 && k < (if soft > 0 then Min(|q|, soft) else |q|) <==> ReachesForSync(cfg, q, p)
  {
    var k := NextSync(q, 0);
    if k != -1 && cfg.unitsSoftMax > 0 {
      LagTestIsExact(cfg.unitFormat, q, cfg.unitsSoftMax, k);
    }
  }

  lemma LastKeptIff(cfg: Config, q: seq<Buffer>, usage: int, p: nat)
    requires |q| > 0 && p <= |q|
    ensures p <= LastKept(cfg, LimitOf(cfg, q), usage)
            <==> p <= usage || ReachesForMinima(cfg, q, p) || ReachesForSync(cfg, q, p)
  {
    MinimaReachIff(cfg, q, p);
    if cfg.defSync == LatestKeyframe || cfg.defSync == BurstKeyframe {
      SyncReachIff(cfg, q, p);
    }
  }

  /** An enqueue keeps the buffers up to index `buffersQueued` and gives up the others. A buffer is kept exactly if a
      client uses it or one behind it, if the minima are not met in front of it, or if the first sync frame lies there
      and clients are to start on one. */
  lemma BufferIsKeptIff(cfg: Config, s: SinkView, b: Buffer, p: nat)
    requires p <= |s.queue| + 1
    ensures var q, r := [b] + s.queue, QueueBuffer(cfg, s, b);
            && r.queue == q[..Min(|q|, r.buffersQueued + 1)]
            && (p <= r.buffersQueued
                <==> p <= Walked(cfg, s, b).usage || ReachesForMinima(cfg, q, p) || ReachesForSync(cfg, q, p))
  {
    QueueAfter(cfg, s, b);
    LastKeptIff(cfg, [b] + s.queue, Walked(cfg, s, b).usage, p);
  }

  /** A queue shorter than `buffersMin` is not trimmed. */
  lemma ShortQueueIsKept(cfg: Config, s: SinkView, b: Buffer)
    requires cfg.buffersMin != UNSET && |s.queue| + 1 < cfg.buffersMin
    ensures QueueBuffer(cfg, s, b).queue == [b] + s.queue
  {
    BufferIsKeptIff(cfg, s, b, |s.queue| + 1);
  }

  /** From `buffersMin` buffers on that minimum has no effect: the queue may be trimmed below it. */
  lemma LongQueueIgnoresBuffersMin(cfg: Config, s: SinkView, b: Buffer)
    requires cfg.buffersMin == UNSET || |s.queue| + 1 >= cfg.buffersMin
    ensures QueueBuffer(cfg, s, b) == QueueBuffer(cfg.(buffersMin := UNSET), s, b)
  {
    var q := [b] + s.queue;
    assert LimitOf(cfg, q) == LimitOf(cfg.(buffersMin := UNSET), q);
  }

  /** What is left is all of the queue, or as many buffers as `buffersMin`, exactly if the queue is shorter than that,
      or the last of these buffers is kept for another reason. */
  lemma BuffersMinIsKeptIff(cfg: Config, s: SinkView, b: Buffer)
    requires cfg.buffersMin > 0
    ensures var q, r, n := [b] + s.queue, QueueBuffer(cfg, s, b).queue, cfg.buffersMin;
            r == q || |r| >= n
            <==> |q| < n || n - 1 <= Walked(cfg, s, b).usage
                 || ReachesForMinima(cfg.(buffersMin := UNSET), q, n - 1) || ReachesForSync(cfg, q, n - 1)
  {
    if |s.queue| + 1 < cfg.buffersMin {
      ShortQueueIsKept(cfg, s, b);
    } else {
      BufferIsKeptIff(cfg, s, b, cfg.buffersMin - 1);
    }
  }

  // ---- The age of what is left ----

  /** Index `k` is kept for other reasons than the minimum in time, or no buffer before the one in front of it has a
      timestamp that misleads. */
  predicate NotMisled(cfg: Config, lim: Limit, k: int, usage: int)
    requires |lim.queue| > 0
  {
    k <= Misleading(lim.queue, 0, cfg.timeMin) + 1 || k <= LastKept(cfg.(timeMin := UNSET), lim, usage)
  }

  /** The first buffer that is old enough, or the last one if there is none. */
  function LastNeeded(q: seq<Buffer>, limit: int): int
    requires |q| > 0
  {
    Min(OldEnough(q, 0, limit), |q| - 1)
  }

  /** What the minimum in time adds to what is kept ends behind the first buffer that is old enough or misleads. */
  lemma LastKeptSplits(cfg: Config, lim: Limit, k: int, usage: int)
    requires |lim.queue| > 0 && cfg.timeMin != UNSET && k <= LastNeeded(lim.queue, cfg.timeMin)
    ensures k <= LastKept(cfg, lim, usage) <==> NotMisled(cfg, lim, k, usage)
  {
    MinIndexSplits(lim.queue, cfg.bytesMin, cfg.timeMin);
    assert forall j :: 0 <= j < |lim.queue| ==> !MaxHit(lim.queue, j, UNSET, UNSET);
  }

  /** What is left of queue `q` is all of it, or spans the limit. */
  ghost predicate KeepsAge(q: seq<Buffer>, r: seq<Buffer>, limit: int) { r == q || Spans(r, |r|, limit) }

  lemma PrefixKeepsAgeIff(q: seq<Buffer>, n: nat, limit: int)
    requires 0 < n <= |q|
    ensures KeepsAge(q, q[..n], limit) <==> LastNeeded(q, limit) < n
  {
    PrefixSpansIff(q, n, limit);
    assert n == |q| ==> q[..n] == q;
  }

  /** An enqueue leaves everything, or an age of `timeMin`, exactly if no timestamp misleads the test before the first
      buffer that is old enough, or all up to that buffer is kept for other reasons. */
  lemma TimeMinIsKeptAfterWalk(cfg: Config, s: SinkView, b: Buffer)
    requires cfg.timeMin != UNSET
    ensures var q, lim := [b] + s.queue, LimitOf(cfg, [b] + s.queue);
            KeepsAge(q, QueueBuffer(cfg, s, b).queue, cfg.timeMin)
            <==> NotMisled(cfg, lim, LastNeeded(q, cfg.timeMin), Walked(cfg, s, b).usage)
  {
    var q, lim := [b] + s.queue, LimitOf(cfg, [b] + s.queue);
    QueueAfter(cfg, s, b);
    PrefixKeepsAgeIff(q, |QueueBuffer(cfg, s, b).queue|, cfg.timeMin);
    LastKeptSplits(cfg, lim, LastNeeded(q, cfg.timeMin), Walked(cfg, s, b).usage);
  }

  /** The same, told from the clients as they are before: they keep what lies where their first visit leaves them, and
      no more than that if nobody is advanced twice. */
  lemma TimeMinIsKeptIff(cfg: Config, s: SinkView, b: Buffer)
    requires cfg.timeMin != UNSET
    ensures var q, lim := [b] + s.queue, LimitOf(cfg, [b] + s.queue);
            var right := NotMisled(cfg, lim, LastNeeded(q, cfg.timeMin), Furthest(s.clients, lim));
            var kept := KeepsAge(q, QueueBuffer(cfg, s, b).queue, cfg.timeMin);
            (right ==> kept) && (!Disturbed(s.clients, 0, lim) ==> (kept <==> right))
  {
    TimeMinIsKeptAfterWalk(cfg, s, b);
    UsageOfPass(cfg, s, b);
  }

  /** Whatever the clients do: an enqueue that cuts off more than it should has met a timestamp later than the first. */
  lemma OnlyLaterTimestampsMislead(cfg: Config, s: SinkView, b: Buffer)
    requires cfg.timeMin != UNSET && |QueueBuffer(cfg, s, b).queue| <= |s.queue|
    ensures var r := QueueBuffer(cfg, s, b).queue;
            Spans(r, |r|, cfg.timeMin) || exists k :: 0 <= k < |r| && r[k].ts > FirstTs(r, |r|)
  {
    var r := QueueBuffer(cfg, s, b).queue;
    QueueAfter(cfg, s, b);
    TrimmedMeetsMinima(cfg, LimitOf(cfg, [b] + s.queue), Walked(cfg, s, b).usage);
    if forall k :: 0 <= k < |r| ==> r[k].ts <= FirstTs(r, |r|) {
      SpanReachedIsReal(r, |r|, cfg.timeMin);
    }
  }

  // ---- A sync frame to start on ----

  /** Clients start on a sync frame, and no soft limit cuts the search for one short. */
  predicate SearchesWholeQueue(cfg: Config) {
    (cfg.defSync == LatestKeyframe || cfg.defSync == BurstKeyframe) && cfg.unitsSoftMax <= 0
  }

  /** Number `k` is the newest sync frame since the start. */
  ghost predicate NewestSync(s: SinkView, k: int) {
    && s.past.epoch <= k < Total(s) && s.past.stream[k].IsSync()
    && forall j :: k < j < Total(s) ==> !s.past.stream[j].IsSync()
  }

  ghost predicate KeepsSync(cfg: Config, s: SinkView) {
    s.running && SearchesWholeQueue(cfg) ==> forall k :: NewestSync(s, k) ==> Total(s) - 1 - k < |s.queue|
  }

  /** The newest sync frame, if it is queued, is queued where its number says, and the search finds it. */
  lemma SyncAtItsIndex(s: SinkView, k: int)
    requires QueueFits(s) && NewestSync(s, k) && Total(s) - 1 - k < |s.queue|
    ensures var p := Total(s) - 1 - k; s.queue[p] == s.past.stream[k] && NextSync(s.queue, 0) == p
  {
    var p := Total(s) - 1 - k;
    forall j | 0 <= j < p
      ensures !s.queue[j].IsSync()
    {
      assert s.queue[j] == s.past.stream[Total(s) - 1 - j];
    }
  }

  /** With a buffer in front the newest sync frame is still in the queue, before it is trimmed. */
  lemma PrependKeepsSync(cfg: Config, s: SinkView, b: Buffer, k: int)
    requires s.running && SearchesWholeQueue(cfg) && KeepsSync(cfg, s) && NewestSync(Prepend(s, b), k)
    ensures Total(s) - k < |s.queue| + 1
  {
    var r := Prepend(s, b);
    assert forall j :: 0 <= j < Total(s) ==> r.past.stream[j] == s.past.stream[j];
    assert k < Total(s) ==> NewestSync(s, k);
  }

  lemma QueueBufferKeepsSync(cfg: Config, s: SinkView, b: Buffer)
    requires QueueFits(s) && KeepsSync(cfg, s)
    ensures KeepsSync(cfg, QueueBuffer(cfg, s, b))
  {
    var r := QueueBuffer(cfg, s, b);
    QueueAfter(cfg, s, b);
    if r.running && SearchesWholeQueue(cfg) {
      forall k | NewestSync(r, k)
        ensures Total(r) - 1 - k < |r.queue|
      {
        PrependFits(s, b);
        assert NewestSync(Prepend(s, b), k);
        PrependKeepsSync(cfg, s, b, k);
        SyncAtItsIndex(Prepend(s, b), k);
      }
    }
  }

  // ---- Whole runs ----

  ghost predicate Kept(cfg: Config, s: SinkView) { Retains(cfg, s) && KeepsSync(cfg, s) }

  lemma SameQueueKept(cfg: Config, s: SinkView, r: SinkView)
    requires Kept(cfg, s) && SameQueue(s, r)
    ensures Kept(cfg, r)
  {
    assert forall k :: NewestSync(r, k) ==> NewestSync(s, k);
  }

  lemma RenderKept(cfg: Config, s: SinkView, b: Buffer)
    requires QueueFits(s) && Kept(cfg, s)
    ensures Kept(cfg, Render(cfg, s, b))
  {
    if s.running && !b.header {
      var s1 := Noted(s, b);
      SameQueueKept(cfg, s, s1);
      QueueBufferRetains(cfg, s1, b);
      QueueBufferKeepsSync(cfg, s1, b);
      RenderQueues(cfg, s, b);
      SameQueueKept(cfg, QueueBuffer(cfg, s1, b), Render(cfg, s, b));
    } else {
      SameQueueKept(cfg, s, Render(cfg, s, b));
    }
  }

  /** With an empty queue and nothing queued since the start, or without running, there is nothing to keep. */
  lemma NothingToKeep(cfg: Config, s: SinkView)
    requires s.queue == [] && (s.running ==> s.past.epoch == Total(s))
    ensures Kept(cfg, s)
  {
  }

  lemma StartStopKept(cfg: Config, s: SinkView)
    requires IdleIsEmpty(s) && Kept(cfg, s)
    ensures Kept(cfg, Sink.Start(s)) && Kept(cfg, Stop(s))
  {
    StartKeeps(cfg, s);
    StopKeeps(s);
    if Sink.Start(s) != s {
      NothingToKeep(cfg, Sink.Start(s));
    }
    if Stop(s) != s {
      NothingToKeep(cfg, Stop(s));
    }
  }

  lemma StepKept(cfg: Config, s: SinkView, e: Event)
    requires Inv(cfg, s) && Kept(cfg, s)
    ensures CursorsInside(s) && Kept(cfg, Step(cfg, s, e))
  {
    InvCursors(cfg, s);
    if e.RenderE? {
      RenderKept(cfg, s, e.buf);
    }
    StartStopKept(cfg, s);
    forall t | Mild(s, t)
      ensures Kept(cfg, t)
    {
      SameQueueKept(cfg, s, t);
    }
    AnyStep(cfg, s, e, (t: SinkView) => Kept(cfg, t));
  }

  lemma AfterKept(cfg: Config, caps: Caps, es: seq<Event>)
    ensures Kept(cfg, After(cfg, caps, es))
  {
    InitialInv(cfg, caps);
    forall s: SinkView, e: Event | Inv(cfg, s) && Enabled(s, e) && Kept(cfg, s)
      ensures CursorsInside(s) && Kept(cfg, Step(cfg, s, e))
    {
      StepKept(cfg, s, e);
    }
    RunInduction(cfg, Initial(caps), es, (s: SinkView) => Kept(cfg, s));
  }

  /** Whatever the clients do: while the element runs and timestamps do not go back, either nothing has been trimmed
      since the start, or the queue holds at least `bytesMin` bytes and an age of at least `timeMin`. */
  lemma MinimaAreRetained(cfg: Config, caps: Caps, es: seq<Event>)
    requires var s := After(cfg, caps, es); s.running && Chronological(s.past.stream, s.past.epoch)
    ensures var s := After(cfg, caps, es);
            || |s.queue| + s.past.epoch == Total(s)
            || (|s.queue| > 0
                && (cfg.bytesMin != UNSET ==> ByteSum(s.queue, |s.queue|) >= cfg.bytesMin)
                && (cfg.timeMin != UNSET ==>
                      exists k :: 0 <= k < |s.queue| && s.queue[k].ts != NO_TIME
                                  && FirstTs(s.queue, |s.queue|) - s.queue[k].ts >= cfg.timeMin))
  {
    AfterKept(cfg, caps, es);
    AfterInv(cfg, caps, es);
    var s := After(cfg, caps, es);
    QueueIsSorted(s.queue, s.past.stream, s.past.epoch);
    SpanReachedMeansOlder(s.queue, |s.queue|, cfg.timeMin);
  }

  /** With no soft limit and a default method that starts on the latest or a burst keyframe, the newest sync frame
      since the start is always queued, at the index its number says. */
  lemma NewestSyncIsQueued(cfg: Config, caps: Caps, es: seq<Event>, k: int)
    requires SearchesWholeQueue(cfg) && After(cfg, caps, es).running && NewestSync(After(cfg, caps, es), k)
    ensures var s := After(cfg, caps, es);
            var p := Total(s) - 1 - k;
            0 <= p < |s.queue| && s.queue[p] == s.past.stream[k] && NextSync(s.queue, 0) == p
  {
    AfterKept(cfg, caps, es);
    AfterInv(cfg, caps, es);
    SyncAtItsIndex(After(cfg, caps, es), k);
  }

  /** A client that starts with the latest keyframe first picks the newest sync frame in the queue. */
  lemma LoadsLatestKeyframe(c: ClientView, sc: Scene)
    requires c.newConnection && c.status == Ok && c.flushcount == -1 && c.sync == LatestKeyframe
    requires c.sending == [] && OffsetInside(c) && 0 <= c.bufpos < |sc.queue| && NextSync(sc.queue, 0) != -1
    ensures Load(c, sc).Loaded?
    ensures Load(c, sc).client.trail.log == c.trail.log + [sc.total - 1 - NextSync(sc.queue, 0)]
  {
    var p := NewPosition(sc.queue, c.bufpos, c.sync, c.burst);
    assert p.position == NextSync(sc.queue, 0);
    var c1 := StartAt(c.(bufpos := p.bufpos, sync := p.sync), p.position, sc.total);
    assert Load(c, sc) == Loaded(Pick(c1, sc));
  }

  /** A client that is about to start with the latest keyframe. */
  ghost predicate StartsOnLatest(c: ClientView) {
    !c.removing && c.newConnection && c.status == Ok && c.sync == LatestKeyframe && c.bufpos != -1
  }

  /** What a write event to such a client first picks. */
  ghost predicate PicksFirst(cfg: Config, s: SinkView, c: ClientView, k: int) {
    && CursorInside(c, s.queue) && OffsetInside(c)
    && Load(c, SceneOf(cfg, s)).Loaded?
    && Load(c, SceneOf(cfg, s)).client.trail.log == [k]
  }

  lemma StartsWithNothingQueued(cfg: Config, s: SinkView, i: nat)
    requires Inv(cfg, s) && i < |s.clients| && StartsOnLatest(s.clients[i])
    ensures var c := s.clients[i];
            && CursorInside(c, s.queue) && OffsetInside(c) && c.sending == [] && c.flushcount == -1
            && c.trail.log == []
  {
    assert Fit(s.clients[i], s.queue, s.past.stream, cfg.resend);
  }

  lemma PicksNewestSync(cfg: Config, s: SinkView, c: ClientView, k: int)
    requires StartsOnLatest(c) && CursorInside(c, s.queue) && OffsetInside(c)
    requires c.sending == [] && c.flushcount == -1 && c.trail.log == []
    requires 0 <= k < Total(s) && NextSync(s.queue, 0) == Total(s) - 1 - k
    ensures PicksFirst(cfg, s, c, k)
  {
    LoadsLatestKeyframe(c, SceneOf(cfg, s));
  }

  /** Then a client that starts with the latest keyframe is given the newest sync frame first. */
  lemma StartsOnNewestSync(cfg: Config, caps: Caps, es: seq<Event>, i: nat, k: int)
    requires SearchesWholeQueue(cfg) && After(cfg, caps, es).running && NewestSync(After(cfg, caps, es), k)
    requires i < |After(cfg, caps, es).clients| && StartsOnLatest(After(cfg, caps, es).clients[i])
    ensures var s := After(cfg, caps, es); PicksFirst(cfg, s, s.clients[i], k)
  {
    NewestSyncIsQueued(cfg, caps, es, k);
    AfterInv(cfg, caps, es);
    var s := After(cfg, caps, es);
    StartsWithNothingQueued(cfg, s, i);
    PicksNewestSync(cfg, s, s.clients[i], k);
  }
}

/** Queueing a buffer keeps the invariant of the sink, including passes that remove slow clients and start over. */
module QueueSafety {
  import opened Basics
  import opened Buffers
  import opened Limits
  import opened Positions
  import opened Clients
  import opened ClientSafety
  import opened WriteSafety
  import opened Sink
  import opened SinkSafety

  /** A client the current walk has visited. */
  ghost predicate Done(c: ClientView, lim: Limit, stream: seq<Buffer>, resend: bool) {
    Sound(c, |stream|, stream, resend) && CursorInside(c, lim.queue)
  }

  /** A client the current walk has not visited: either its cursor still waits for the new buffer, or the walk has
      started over, which happens only when the hard limit lies inside the queue. */
  ghost predicate Due(c: ClientView, lim: Limit, stream: seq<Buffer>, resend: bool)
    requires stream != []
  {
    || FirstVisit(c, lim, stream, resend)
    || (0 < lim.hard < |lim.queue| && Done(c, lim, stream, resend))
  }

  /** The first visit for the new buffer, or a repeated one. */
  ghost predicate FirstVisit(c: ClientView, lim: Limit, stream: seq<Buffer>, resend: bool)
    requires stream != []
  {
    Sound(c, |stream| - 1, stream, resend) && -1 <= c.bufpos < |lim.queue| - 1
  }

  lemma VisitInside(c: ClientView, lim: Limit, stream: seq<Buffer>, resend: bool)
    requires stream != [] && |lim.queue| > 0 && Due(c, lim, stream, resend)
    ensures -1 <= c.bufpos
    ensures !TooSlow(Advance(c, lim), lim) ==> CursorInside(Woken(Advance(c, lim)), lim.queue)
  {
  }

  lemma VisitDone(c: ClientView, lim: Limit, stream: seq<Buffer>, resend: bool)
    requires stream != [] && |lim.queue| > 0 && Due(c, lim, stream, resend)
    ensures !TooSlow(Advance(c, lim), lim) ==> Done(Woken(Advance(c, lim)), lim, stream, resend)
  {
    VisitInside(c, lim, stream, resend);
    VisitSound(c, lim, FirstVisit(c, lim, stream, resend), |stream|, stream, resend);
  }

  /** Only a hard limit inside the queue makes anybody too slow. */
  lemma TooSlowInside(c: ClientView, lim: Limit, stream: seq<Buffer>, resend: bool)
    requires stream != [] && |lim.queue| > 0 && Due(c, lim, stream, resend) && TooSlow(Advance(c, lim), lim)
    ensures 0 < lim.hard < |lim.queue|
  {
  }

  lemma EvictDone(c: ClientView, lim: Limit, stream: seq<Buffer>, resend: bool)
    requires stream != [] && |lim.queue| > 0 && Due(c, lim, stream, resend)
    ensures c.removing ==> Done(Evicted(Advance(c, lim), |stream|), lim, stream, resend)
    ensures !c.removing ==> Leaving(Evicted(Advance(c, lim), |stream|), |stream|, stream, resend)
  {
    if c.removing {
      EvictedSettled(c, |stream|, stream, resend, lim);
    } else {
      EvictedLeaves(c, lim, FirstVisit(c, lim, stream, resend), |stream|, stream, resend);
    }
  }

  /** The clients before position `i` have been visited, those from it on have not. */
  ghost predicate Visited(cs: seq<ClientView>, lim: Limit, i: nat, stream: seq<Buffer>, resend: bool) {
    && i <= |cs| && stream != []
    && (forall k :: 0 <= k < i ==> Done(cs[k], lim, stream, resend))
    && (forall k :: i <= k < |cs| ==> Due(cs[k], lim, stream, resend))
  }

  ghost predicate Walking(w: Walk, lim: Limit, resend: bool) {
    && |lim.queue| > 0 && Books(w.sink, resend)
    && Visited(w.sink.clients, lim, w.i, w.sink.past.stream, resend)
    && UsageCovers(w.sink.clients, w.i, w.usage)
  }

  ghost predicate UsageCovers(cs: seq<ClientView>, i: nat, usage: int)
    requires i <= |cs|
  {
    0 <= usage && forall k :: 0 <= k < i ==> cs[k].bufpos <= usage
  }

  lemma KeepVisited(cs: seq<ClientView>, lim: Limit, i: nat, c: ClientView, stream: seq<Buffer>, resend: bool)
    requires Visited(cs, lim, i, stream, resend) && i < |cs| && Done(c, lim, stream, resend)
    ensures Visited(cs[i := c], lim, i + 1, stream, resend)
  {
  }

  lemma EvictVisited(cs: seq<ClientView>, lim: Limit, i: nat, stream: seq<Buffer>, resend: bool)
    requires Visited(cs, lim, i, stream, resend) && i < |cs|
    ensures Visited(cs[..i] + cs[i + 1..], lim, i, stream, resend)
  {
    TakeOut(cs, i, c => Done(c, lim, stream, resend), c => Due(c, lim, stream, resend));
  }

  /** The walk can start over when the hard limit lies inside the queue. */
  lemma RestartVisited(cs: seq<ClientView>, lim: Limit, i: nat, stream: seq<Buffer>, resend: bool)
    requires Visited(cs, lim, i, stream, resend) && 0 < lim.hard < |lim.queue|
    ensures Visited(cs, lim, 0, stream, resend)
  {
    forall k | 0 <= k < |cs|
      ensures Due(cs[k], lim, stream, resend)
    {
      assert k < i ==> Done(cs[k], lim, stream, resend);
    }
  }

  lemma EvictBooks(s: SinkView, lim: Limit, i: nat, resend: bool)
    requires i < |s.clients| && |lim.queue| > 0 && Books(s, resend) && !s.clients[i].removing
    requires Leaving(Evicted(Advance(s.clients[i], lim), Total(s)), Total(s), s.past.stream, resend)
    ensures var r := RemoveLink(SetClient(s, i, Evicted(Advance(s.clients[i], lim), Total(s))), i, false);
            r.clients == s.clients[..i] + s.clients[i + 1..] && r.past.stream == s.past.stream && Books(r, resend)
  {
    var e := Evicted(Advance(s.clients[i], lim), Total(s));
    ReplaceBooks(s, i, e, resend);
    RemoveLinkBooks(SetClient(s, i, e), i, false, resend);
  }

  lemma KeptWalking(w: Walk, lim: Limit, c: ClientView, usage: int, resend: bool)
    requires Walking(w, lim, resend) && w.i < |w.sink.clients|
    requires c.handle == w.sink.clients[w.i].handle && c.bytesSent == w.sink.clients[w.i].bytesSent
    requires Done(c, lim, w.sink.past.stream, resend) && w.usage <= usage && c.bufpos <= usage
    ensures Walking(Walk(SetClient(w.sink, w.i, c), w.i + 1, usage), lim, resend)
  {
    ReplaceBooks(w.sink, w.i, c, resend);
    KeepVisited(w.sink.clients, lim, w.i, c, w.sink.past.stream, resend);
  }

  /** What is left of the list when a client that can be removed is taken out of it. */
  lemma GoneWalking(w: Walk, lim: Limit, r: SinkView, next: nat, resend: bool)
    requires Walking(w, lim, resend) && w.i < |w.sink.clients| && 0 < lim.hard < |lim.queue|
    requires r.clients == w.sink.clients[..w.i] + w.sink.clients[w.i + 1..]
    requires r.past.stream == w.sink.past.stream && Books(r, resend)
    requires next == 0 || next == w.i == |r.clients|
    ensures Walking(Walk(r, next, w.usage), lim, resend)
  {
    EvictVisited(w.sink.clients, lim, w.i, w.sink.past.stream, resend);
    RestartVisited(r.clients, lim, w.i, w.sink.past.stream, resend);
  }

  lemma VisitEvicts(w: Walk, lim: Limit, resend: bool)
    requires Walking(w, lim, resend) && w.i < |w.sink.clients|
    requires TooSlow(Advance(w.sink.clients[w.i], lim), lim) && !w.sink.clients[w.i].removing
    ensures Walking(Visit(w, lim), lim, resend)
  {
    EvictDone(w.sink.clients[w.i], lim, w.sink.past.stream, resend);
    TooSlowInside(w.sink.clients[w.i], lim, w.sink.past.stream, resend);
    EvictBooks(w.sink, lim, w.i, resend);
    var r := Visit(w, lim);
    GoneWalking(w, lim, r.sink, r.i, resend);
  }

  lemma VisitKeeps(w: Walk, lim: Limit, resend: bool)
    requires Walking(w, lim, resend) && w.i < |w.sink.clients|
    ensures Walking(Visit(w, lim), lim, resend)
  {
    var c := Advance(w.sink.clients[w.i], lim);
    if !TooSlow(c, lim) {
      VisitDone(w.sink.clients[w.i], lim, w.sink.past.stream, resend);
      KeptWalking(w, lim, Woken(c), Max(w.usage, Woken(c).bufpos), resend);
    } else if c.removing {
      EvictDone(w.sink.clients[w.i], lim, w.sink.past.stream, resend);
      KeptWalking(w, lim, Evicted(c, Total(w.sink)), w.usage, resend);
    } else {
      VisitEvicts(w, lim, resend);
    }
  }

  /** One iteration of the queueing walk. */
  lemma PassStep(w: Walk, lim: Limit)
    requires |lim.queue| > 0 && w.i < |w.sink.clients|
    ensures Pass(w, lim) == Pass(Visit(w, lim), lim)
  {
  }

  /** What every visit keeps, the whole walk keeps. */
  lemma {:induction false} PassInduction(w: Walk, lim: Limit, keeps: Walk -> bool)
    requires |lim.queue| > 0 && w.i <= |w.sink.clients| && keeps(w)
    requires forall v: Walk :: keeps(v) && v.i < |v.sink.clients| ==> keeps(Visit(v, lim))
    ensures keeps(Pass(w, lim)) && Pass(w, lim).i == |Pass(w, lim).sink.clients|
    decreases |w.sink.clients|, |w.sink.clients| - w.i
  {
    if w.i < |w.sink.clients| {
      PassInduction(Visit(w, lim), lim, keeps);
    }
  }

  /** Every client left by the walk has been visited, and lies within the usage reported. */
  lemma PassKeeps(w: Walk, lim: Limit, resend: bool)
    requires Walking(w, lim, resend)
    ensures Walking(Pass(w, lim), lim, resend) && Pass(w, lim).i == |Pass(w, lim).sink.clients|
  {
    forall v: Walk | Walking(v, lim, resend) && v.i < |v.sink.clients|
      ensures Walking(Visit(v, lim), lim, resend)
    {
      VisitKeeps(v, lim, resend);
    }
    PassInduction(w, lim, (v: Walk) => Walking(v, lim, resend));
  }

  /** The walk changes nothing but the list, the table and the history of departures. */
  lemma PassFrame(w: Walk, lim: Limit)
    requires |lim.queue| > 0 && w.i <= |w.sink.clients|
    ensures SameButList(w.sink, Pass(w, lim).sink) && Pass(w, lim).usage >= w.usage
  {
    PassInduction(w, lim, (v: Walk) => SameButList(w.sink, v.sink) && v.usage >= w.usage);
  }

  // ---- Queueing and rendering ----

  lemma PrependFits(s: SinkView, b: Buffer)
    requires QueueFits(s)
    ensures QueueFits(Prepend(s, b))
  {
  }

  lemma PrependWalking(cfg: Config, s: SinkView, b: Buffer)
    requires Books(s, cfg.resend) && ClientsSound(s, cfg.resend)
    ensures var s1 := Prepend(s, b); Walking(Walk(s1, 0, 0), LimitOf(cfg, s1.queue), cfg.resend)
  {
    var s1 := Prepend(s, b);
    forall k | 0 <= k < |s.clients|
      ensures Due(s1.clients[k], LimitOf(cfg, s1.queue), s1.past.stream, cfg.resend)
    {
      StreamGrows(s.clients[k], Total(s), s.past.stream, cfg.resend, b);
    }
    forall k | 0 <= k < |s.past.gone|
      ensures Settled(s.past.gone[k], s1.past.stream, cfg.resend)
    {
      SettledGrows(s.past.gone[k], s.past.stream, cfg.resend, b);
    }
  }

  lemma TrimBalanced(s: SinkView, last: nat)
    ensures Trim(s, last).past.released + multiset(Trim(s, last).queue) == s.past.released + multiset(s.queue)
    ensures QueueFits(s) ==> QueueFits(Trim(s, last))
  {
    var n := Min(|s.queue|, last + 1);
    assert s.queue == s.queue[..n] + s.queue[n..];
  }

  /** A walk over all clients of a state whose queue has a new buffer in front. */
  function WalkAll(cfg: Config, s: SinkView): Walk
    requires |s.queue| > 0
  {
    Pass(Walk(s, 0, 0), LimitOf(cfg, s.queue))
  }

  /** The state after the walk, before the queue is trimmed. */
  function Walked(cfg: Config, s: SinkView, b: Buffer): Walk { WalkAll(cfg, Prepend(s, b)) }

  lemma WalkedIs(cfg: Config, s: SinkView, b: Buffer, s1: SinkView)
    requires s1 == Prepend(s, b)
    ensures |s1.queue| > 0 && WalkAll(cfg, s1) == Walked(cfg, s, b)
  {
  }

  /** Queueing a buffer adds it to the stream, and leaves what is counted from it alone. */
  lemma QueueBufferFrame(cfg: Config, s: SinkView, b: Buffer)
    ensures var r := QueueBuffer(cfg, s, b);
            && r.past.stream == s.past.stream + [b] && r.past.epoch == s.past.epoch
            && r.running == s.running && r.bytesToServe == s.bytesToServe
  {
    PassFrame(Walk(Prepend(s, b), 0, 0), LimitOf(cfg, [b] + s.queue));
  }

  lemma QueueBufferInv(cfg: Config, s: SinkView, b: Buffer)
    requires s.running && Books(s, cfg.resend) && QueueFits(s) && ClientsSound(s, cfg.resend)
    requires s.past.taken == s.past.released + multiset(s.queue) + multiset(s.streamheader) + multiset{b}
    ensures Inv(cfg, QueueBuffer(cfg, s, b))
  {
    var s1 := Prepend(s, b);
    var lim := LimitOf(cfg, s1.queue);
    PrependFits(s, b);
    PrependWalking(cfg, s, b);
    PassKeeps(Walk(s1, 0, 0), lim, cfg.resend);
    PassFrame(Walk(s1, 0, 0), lim);
    var w := Pass(Walk(s1, 0, 0), lim);
    var last := LastKept(cfg, lim, w.usage);
    TrimBalanced(w.sink, last);
    TrimInv(cfg, w, lim, last);
    assert multiset(s1.queue) == multiset{b} + multiset(s.queue);
  }

  /** Trimming behind the usage of the walk cuts off nothing a client still has to send. */
  lemma TrimInv(cfg: Config, w: Walk, lim: Limit, last: nat)
    requires Walking(w, lim, cfg.resend) && w.i == |w.sink.clients| && lim.queue == w.sink.queue && w.usage <= last
    ensures Books(Trim(w.sink, last), cfg.resend) && ClientsSound(Trim(w.sink, last), cfg.resend)
  {
    forall k | 0 <= k < |w.sink.clients|
      ensures Sound(w.sink.clients[k], Total(w.sink), w.sink.past.stream, cfg.resend)
      ensures CursorInside(w.sink.clients[k], Trim(w.sink, last).queue)
    {
      assert Done(w.sink.clients[k], lim, w.sink.past.stream, cfg.resend);
    }
  }

  /** What the invariant depends on, but for the references. */
  lemma SameStateInv(cfg: Config, s: SinkView, r: SinkView)
    requires Inv(cfg, s) && Balanced(r) && (!r.running ==> r.streamheader == [])
    requires r.running == s.running && r.clients == s.clients && r.handles == s.handles && r.queue == s.queue
    requires r.bytesServed == s.bytesServed && r.past.goneBefore == s.past.goneBefore
    requires r.past.stream == s.past.stream && r.past.epoch == s.past.epoch && r.past.gone == s.past.gone
    ensures Inv(cfg, r)
  {
  }

  lemma HeaderBalanced(cfg: Config, s: SinkView, b: Buffer)
    requires Balanced(s) && s.running && b.header
    ensures Balanced(Render(cfg, s, b))
  {
    var s1 := Noted(s, b);
    assert multiset(s1.streamheader + [b]) == multiset(s1.streamheader) + multiset{b};
  }

  lemma RenderHeaderInv(cfg: Config, s: SinkView, b: Buffer)
    requires Inv(cfg, s) && s.running && b.header
    ensures Inv(cfg, Render(cfg, s, b))
  {
    HeaderBalanced(cfg, s, b);
    SameStateInv(cfg, s, Render(cfg, s, b));
  }

  lemma RenderDataInv(cfg: Config, s: SinkView, b: Buffer)
    requires Inv(cfg, s) && s.running && !b.header
    ensures Inv(cfg, Render(cfg, s, b))
  {
    QueueBufferInv(cfg, Noted(s, b), b);
    CountedInv(cfg, QueueBuffer(cfg, Noted(s, b), b), b.Size());
  }

  lemma CountedInv(cfg: Config, s: SinkView, n: nat)
    requires Inv(cfg, s)
    ensures Inv(cfg, CountToServe(s, n))
  {
    SameStateInv(cfg, s, CountToServe(s, n));
  }

  lemma RenderInv(cfg: Config, s: SinkView, b: Buffer)
    requires Inv(cfg, s)
    ensures Inv(cfg, Render(cfg, s, b))
  {
    if s.running {
      if b.header {
        RenderHeaderInv(cfg, s, b);
      } else {
        RenderDataInv(cfg, s, b);
      }
    }
  }
}

/** How often the restarts of queueing passes advance clients again: no more often than clients were removed as slow. */
module Repeats {
  import opened Basics
  import opened Buffers
  import opened Clients
  import opened Sink
  import opened SinkSafety
  import opened QueueSafety
  import opened Restarts

  /** Clients that left because they were too slow. */
  function Slowed(gone: seq<ClientView>): nat {
    if gone == [] then 0
    else Slowed(gone[..|gone| - 1]) + if gone[|gone| - 1].status == Slow then 1 else 0
  }

  lemma SlowedMore(gone: seq<ClientView>, c: ClientView)
    ensures Slowed(gone + [c]) == Slowed(gone) + if c.status == Slow then 1 else 0
  {
    assert (gone + [c])[..|gone|] == gone;
  }

  /** Of the buffers queued since each client was added, the first `i` clients have been advanced at most `n` times more
      than once for each, the others at most once less. */
  ghost predicate ListRepeats(cs: seq<ClientView>, i: nat, total: nat, n: int) {
    forall k :: 0 <= k < |cs| ==> Extra(cs[k], total) <= if k < i then n else n - 1
  }

  /** So were clients that were given up. */
  ghost predicate EndsRepeat(cs: seq<ClientView>, gone: seq<ClientView>, n: int) {
    && (forall k :: 0 <= k < |cs| && cs[k].removing ==> cs[k].trail.end.extra <= n)
    && (forall k :: 0 <= k < |gone| ==> gone[k].trail.end.extra <= n)
  }

  /** Nobody has been advanced again more often than clients were removed as slow. */
  ghost predicate Repeated(s: SinkView) {
    && ListRepeats(s.clients, |s.clients|, Total(s), Slowed(s.past.gone))
    && EndsRepeat(s.clients, s.past.gone, Slowed(s.past.gone))
  }

  ghost predicate WalkRepeats(w: Walk) {
    && ListRepeats(w.sink.clients, w.i, Total(w.sink), Slowed(w.sink.past.gone))
    && EndsRepeat(w.sink.clients, w.sink.past.gone, Slowed(w.sink.past.gone))
  }

  /** A visit that keeps its client. */
  lemma KeptRepeats(w: Walk, lim: Limit)
    requires |lim.queue| > 0 && w.i < |w.sink.clients| && WalkRepeats(w) && !Leaves(w.sink.clients[w.i], lim)
    ensures WalkRepeats(Visit(w, lim))
  {
    VisitMoves(w, lim);
    assert Visit(w, lim).sink.past == w.sink.past;
  }

  /** What is left of a list that one client is taken out of. */
  lemma RestRepeats(cs: seq<ClientView>, i: nat, next: nat, total: nat, n: int)
    requires i < |cs| && ListRepeats(cs, i, total, n) && (next == 0 || (next == i && i == |cs| - 1))
    ensures ListRepeats(cs[..i] + cs[i + 1..], next, total, n + 1)
  {
    var rest := cs[..i] + cs[i + 1..];
    assert forall k :: 0 <= k < |rest| ==> rest[k] == cs[if k < i then k else k + 1];
  }

  lemma RestEnds(cs: seq<ClientView>, i: nat, gone: seq<ClientView>, c: ClientView, n: int)
    requires i < |cs| && EndsRepeat(cs, gone, n) && c.trail.end.extra <= n
    ensures EndsRepeat(cs[..i] + cs[i + 1..], gone + [c], n + 1)
  {
    var rest := cs[..i] + cs[i + 1..];
    assert forall k :: 0 <= k < |rest| ==> rest[k] == cs[if k < i then k else k + 1];
  }

  /** Who leaves by a visit, where it was noted, and why. */
  lemma VisitGives(w: Walk, lim: Limit) returns (c: ClientView)
    requires |lim.queue| > 0 && w.i < |w.sink.clients| && Leaves(w.sink.clients[w.i], lim)
    ensures Visit(w, lim).sink.past.gone == w.sink.past.gone + [c] && Total(Visit(w, lim).sink) == Total(w.sink)
    ensures c.status == Slow && c.trail.end.extra == Extra(w.sink.clients[w.i], Total(w.sink)) + 1
  {
    var r := Visit(w, lim);
    c := BeginRemoval(Evicted(Advance(w.sink.clients[w.i], lim), Total(w.sink)), Total(w.sink));
  }

  /** A visit that removes its client, after which the walk ends or starts over. */
  lemma GoneRepeats(w: Walk, lim: Limit)
    requires |lim.queue| > 0 && w.i < |w.sink.clients| && WalkRepeats(w) && Leaves(w.sink.clients[w.i], lim)
    ensures WalkRepeats(Visit(w, lim))
  {
    var cs, past, r := w.sink.clients, w.sink.past, Visit(w, lim);
    var n := Slowed(past.gone);
    VisitMoves(w, lim);
    var c := VisitGives(w, lim);
    SlowedMore(past.gone, c);
    RestRepeats(cs, w.i, r.i, Total(w.sink), n);
    RestEnds(cs, w.i, past.gone, c, n);
  }

  /** Whatever restarts a walk goes through, it repeats no more visits than it removes clients. */
  lemma PassRepeats(w: Walk, lim: Limit)
    requires |lim.queue| > 0 && w.i <= |w.sink.clients| && WalkRepeats(w)
    ensures Repeated(Pass(w, lim).sink)
  {
    forall v: Walk | WalkRepeats(v) && v.i < |v.sink.clients|
      ensures WalkRepeats(Visit(v, lim))
    {
      if Leaves(v.sink.clients[v.i], lim) {
        GoneRepeats(v, lim);
      } else {
        KeptRepeats(v, lim);
      }
    }
    PassInduction(w, lim, WalkRepeats);
  }

  lemma QueueBufferRepeats(cfg: Config, s: SinkView, b: Buffer)
    requires Repeated(s)
    ensures Repeated(QueueBuffer(cfg, s, b))
  {
    PassRepeats(Walk(Prepend(s, b), 0, 0), LimitOf(cfg, [b] + s.queue));
  }
}

/** When a queueing pass that removes slow clients advances somebody twice. */
module Restarts {
  import opened Basics
  import opened Buffers
  import opened Clients
  import opened Sink
  import opened SinkSafety
  import opened QueueSafety

  /** The pass removes this client when it visits it for the first time. */
  predicate Leaves(c: ClientView, lim: Limit)
    requires |lim.queue| > 0
  {
    !c.removing && TooSlow(Advance(c, lim), lim)
  }

  ghost predicate StaysBefore(cs: seq<ClientView>, k: nat, lim: Limit)
    requires |lim.queue| > 0 && k <= |cs|
  {
    exists j :: 0 <= j < k && !Leaves(cs[j], lim)
  }

  /** From position `i` on, a client leaves that is not the last one, behind one that has been visited and stays. */
  ghost predicate Disturbed(cs: seq<ClientView>, i: nat, lim: Limit)
    requires |lim.queue| > 0
  {
    exists k :: i <= k < |cs| - 1 && Leaves(cs[k], lim) && (i > 0 || StaysBefore(cs, k, lim))
  }

  // ---- Visits, counted for each client ----

  /** How often a client with handle `h` is listed. */
  function Count(cs: seq<ClientView>, h: Handle): nat {
    if cs == [] then 0 else (if cs[0].handle == h then 1 else 0) + Count(cs[1..], h)
  }

  /** Visits to the clients of a list that have handle `h`. */
  function Visits(cs: seq<ClientView>, h: Handle): nat {
    if cs == [] then 0 else (if cs[0].handle == h then cs[0].trail.visits else 0) + Visits(cs[1..], h)
  }

  /** All visits so far to clients with handle `h`, listed or gone. */
  function VisitsTo(s: SinkView, h: Handle): nat { Visits(s.clients, h) + Visits(s.past.gone, h) }

  lemma {:induction false} CountAppend(a: seq<ClientView>, b: seq<ClientView>, h: Handle)
    ensures Count(a + b, h) == Count(a, h) + Count(b, h)
    ensures Visits(a + b, h) == Visits(a, h) + Visits(b, h)
  {
    if a == [] {
      assert a + b == b;
    } else {
      var whole := a + b;
      assert whole[0] == a[0] && whole[1..] == a[1..] + b;
      CountAppend(a[1..], b, h);
    }
  }

  lemma {:induction false} CountDistinct(cs: seq<ClientView>, k: nat)
    requires k < |cs| && forall i, j :: 0 <= i < j < |cs| ==> cs[i].handle != cs[j].handle
    ensures Count(cs, cs[k].handle) == 1
  {
    var rest := cs[1..];
    if k > 0 {
      assert cs[k] == rest[k - 1];
      CountDistinct(rest, k - 1);
    } else {
      CountAbsent(rest, cs[0].handle);
    }
  }

  lemma {:induction false} CountAbsent(cs: seq<ClientView>, h: Handle)
    requires forall i :: 0 <= i < |cs| ==> cs[i].handle != h
    ensures Count(cs, h) == 0
  {
    if cs != [] {
      CountAbsent(cs[1..], h);
    }
  }

  lemma CountSplit(cs: seq<ClientView>, i: nat, h: Handle)
    requires i < |cs|
    ensures Count(cs[i..], h) == (if cs[i].handle == h then 1 else 0) + Count(cs[i + 1..], h)
    ensures Visits(cs, h)
            == Visits(cs[..i], h) + (if cs[i].handle == h then cs[i].trail.visits else 0) + Visits(cs[i + 1..], h)
  {
    assert cs == cs[..i] + cs[i..];
    CountAppend(cs[..i], cs[i..], h);
    assert cs[i..][1..] == cs[i + 1..];
  }

  lemma SetClientVisits(s: SinkView, i: nat, c: ClientView, h: Handle)
    requires i < |s.clients| && c.handle == s.clients[i].handle
    ensures VisitsTo(SetClient(s, i, c), h)
            == VisitsTo(s, h) + if c.handle == h then c.trail.visits - s.clients[i].trail.visits else 0
  {
    var cs := SetClient(s, i, c).clients;
    CountSplit(s.clients, i, h);
    CountSplit(cs, i, h);
    assert cs[..i] == s.clients[..i] && cs[i + 1..] == s.clients[i + 1..];
  }

  lemma DetachVisits(s: SinkView, i: nat, h: Handle)
    requires i < |s.clients|
    ensures VisitsTo(Detach(s, i), h) == VisitsTo(s, h)
  {
    CountSplit(s.clients, i, h);
    CountAppend(s.clients[..i], s.clients[i + 1..], h);
    CountAppend(s.past.gone, [s.clients[i]], h);
    assert Visits([s.clients[i]], h) == if s.clients[i].handle == h then s.clients[i].trail.visits else 0;
  }

  lemma RemoveLinkVisits(s: SinkView, i: nat, h: Handle)
    requires i < |s.clients|
    ensures VisitsTo(RemoveLink(s, i, false), h) == VisitsTo(s, h)
  {
    if !s.clients[i].removing {
      var c := BeginRemoval(s.clients[i], Total(s));
      SetClientVisits(s, i, c, h);
      DetachVisits(SetClient(s, i, c), i, h);
    }
  }

  lemma VisitIsCounted(w: Walk, lim: Limit, h: Handle)
    requires |lim.queue| > 0 && w.i < |w.sink.clients|
    ensures VisitsTo(Visit(w, lim).sink, h) == VisitsTo(w.sink, h) + if w.sink.clients[w.i].handle == h then 1 else 0
  {
    var c := Advance(w.sink.clients[w.i], lim);
    var e := Evicted(c, Total(w.sink));
    SetClientVisits(w.sink, w.i, Woken(c), h);
    SetClientVisits(w.sink, w.i, e, h);
    RemoveLinkVisits(SetClient(w.sink, w.i, e), w.i, h);
  }

  // ---- One visit of the walk, as a change of the list ----

  /** The list and the position after a visit; the clients behind the one visited are as they were. */
  lemma VisitMoves(w: Walk, lim: Limit)
    requires |lim.queue| > 0 && w.i < |w.sink.clients|
    ensures var cs, r := w.sink.clients, Visit(w, lim);
            if Leaves(cs[w.i], lim) then
              r.sink.clients == cs[..w.i] + cs[w.i + 1..] && r.i == if w.i == |cs| - 1 then w.i else 0
            else
              && r.i == w.i + 1 && |r.sink.clients| == |cs|
              && r.sink.clients[w.i].trail == Advance(cs[w.i], lim).trail
              && r.sink.clients[w.i].handle == cs[w.i].handle
              && r.sink.clients[w.i].removing == cs[w.i].removing
              && forall k :: 0 <= k < |cs| && k != w.i ==> r.sink.clients[k] == cs[k]
  {
  }

  /** Whom the walk has ahead of it after a visit. */
  lemma VisitLeavesAhead(w: Walk, lim: Limit, h: Handle)
    requires |lim.queue| > 0 && w.i < |w.sink.clients|
    ensures var cs, r := w.sink.clients, Visit(w, lim);
            && Count(r.sink.clients[r.i..], h) >= Count(cs[w.i + 1..], h)
            && ((Leaves(cs[w.i], lim) && 0 < w.i < |cs| - 1)
                || Count(r.sink.clients[r.i..], h) == Count(cs[w.i + 1..], h))
  {
    var cs, r := w.sink.clients, Visit(w, lim);
    VisitMoves(w, lim);
    if !Leaves(cs[w.i], lim) {
      assert r.sink.clients[r.i..] == cs[w.i + 1..];
    } else if w.i == |cs| - 1 {
      assert r.sink.clients[r.i..] == [] && cs[w.i + 1..] == [];
    } else {
      CountAppend(cs[..w.i], cs[w.i + 1..], h);
      assert r.sink.clients[0..] == r.sink.clients;
      assert w.i == 0 ==> cs[..0] == [];
    }
  }

  /** What lies ahead of an undisturbed walk is undisturbed. */
  lemma StaysUndisturbed(w: Walk, lim: Limit)
    requires |lim.queue| > 0 && w.i < |w.sink.clients| && !Disturbed(w.sink.clients, w.i, lim)
    ensures var r := Visit(w, lim); !Disturbed(r.sink.clients, r.i, lim)
    ensures Leaves(w.sink.clients[w.i], lim) ==> w.i == 0 || w.i == |w.sink.clients| - 1
  {
    var cs, r := w.sink.clients, Visit(w, lim);
    VisitMoves(w, lim);
    assert Leaves(cs[w.i], lim) && w.i == 0 ==>
             forall j :: 0 <= j < |r.sink.clients| ==> r.sink.clients[j] == cs[j + 1];
  }

  /** One visit of a walk, and what it means for client `h`: what has been visited and what lies ahead together do not
      get less, and stay the same if the walk is not disturbed. */
  lemma OneVisit(w: Walk, lim: Limit, h: Handle) returns (r: Walk)
    requires |lim.queue| > 0 && w.i < |w.sink.clients|
    ensures r.i <= |r.sink.clients| && Pass(w, lim) == Pass(r, lim)
    ensures |r.sink.clients| < |w.sink.clients| || (|r.sink.clients| == |w.sink.clients| && r.i == w.i + 1)
    ensures VisitsTo(r.sink, h) + Count(r.sink.clients[r.i..], h)
            >= VisitsTo(w.sink, h) + Count(w.sink.clients[w.i..], h)
    ensures !Disturbed(w.sink.clients, w.i, lim) ==>
              && !Disturbed(r.sink.clients, r.i, lim)
              && VisitsTo(r.sink, h) + Count(r.sink.clients[r.i..], h)
                 == VisitsTo(w.sink, h) + Count(w.sink.clients[w.i..], h)
  {
    r := Visit(w, lim);
    PassStep(w, lim);
    VisitIsCounted(w, lim, h);
    CountSplit(w.sink.clients, w.i, h);
    VisitMoves(w, lim);
    VisitLeavesAhead(w, lim, h);
    if !Disturbed(w.sink.clients, w.i, lim) {
      StaysUndisturbed(w, lim);
    }
  }

  /** A walk visits every client it has not visited yet at least once. */
  lemma {:induction false} EverybodyIsVisited(w: Walk, lim: Limit, h: Handle)
    requires |lim.queue| > 0 && w.i <= |w.sink.clients|
    ensures VisitsTo(Pass(w, lim).sink, h) >= VisitsTo(w.sink, h) + Count(w.sink.clients[w.i..], h)
    decreases |w.sink.clients|, |w.sink.clients| - w.i
  {
    if w.i < |w.sink.clients| {
      var r := OneVisit(w, lim, h);
      EverybodyIsVisited(r, lim, h);
    }
  }

  lemma {:induction false} UndisturbedVisits(w: Walk, lim: Limit, h: Handle)
    requires |lim.queue| > 0 && w.i <= |w.sink.clients| && !Disturbed(w.sink.clients, w.i, lim)
    ensures VisitsTo(Pass(w, lim).sink, h) == VisitsTo(w.sink, h) + Count(w.sink.clients[w.i..], h)
    decreases |w.sink.clients|, |w.sink.clients| - w.i
  {
    if w.i < |w.sink.clients| {
      var r := OneVisit(w, lim, h);
      UndisturbedVisits(r, lim, h);
    }
  }

  lemma DisturbedBehind(cs: seq<ClientView>, more: seq<ClientView>, i: nat, lim: Limit)
    requires |lim.queue| > 0 && Disturbed(cs, i, lim) && !Leaves(cs[i], lim)
    requires |more| == |cs| && forall k :: i < k < |cs| ==> more[k] == cs[k]
    ensures Disturbed(more, i + 1, lim)
  {
    var k :| i <= k < |cs| - 1 && Leaves(cs[k], lim) && (i > 0 || StaysBefore(cs, k, lim));
    assert Leaves(more[k], lim);
  }

  lemma DisturbedRest(cs: seq<ClientView>, lim: Limit)
    requires |lim.queue| > 0 && Disturbed(cs, 0, lim) && Leaves(cs[0], lim)
    ensures Disturbed(cs[1..], 0, lim)
  {
    var k :| 0 <= k < |cs| - 1 && Leaves(cs[k], lim) && StaysBefore(cs, k, lim);
    var j :| 0 <= j < k && !Leaves(cs[j], lim);
    assert !Leaves(cs[1..][j - 1], lim) && Leaves(cs[1..][k - 1], lim);
    assert StaysBefore(cs[1..], k - 1, lim);
  }

  /** A disturbance ahead stays ahead, or the walk starts over behind clients it has visited. */
  lemma StaysDisturbed(w: Walk, lim: Limit)
    requires |lim.queue| > 0 && Disturbed(w.sink.clients, w.i, lim)
    ensures w.i < |w.sink.clients| - 1
    ensures (Leaves(w.sink.clients[w.i], lim) && w.i > 0)
            || Disturbed(Visit(w, lim).sink.clients, Visit(w, lim).i, lim)
  {
    var cs, r := w.sink.clients, Visit(w, lim);
    VisitMoves(w, lim);
    if !Leaves(cs[w.i], lim) {
      DisturbedBehind(cs, r.sink.clients, w.i, lim);
    } else if w.i == 0 {
      DisturbedRest(cs, lim);
      assert r.sink.clients == cs[1..];
    }
  }

  /** A walk that starts over visits the first client again. */
  lemma RestartVisitsFirst(w: Walk, lim: Limit)
    requires |lim.queue| > 0 && 0 < w.i < |w.sink.clients| - 1 && Leaves(w.sink.clients[w.i], lim)
    ensures var h := w.sink.clients[0].handle; VisitsTo(Pass(w, lim).sink, h) >= VisitsTo(w.sink, h) + 1
  {
    var r, h := Visit(w, lim), w.sink.clients[0].handle;
    VisitMoves(w, lim);
    VisitIsCounted(w, lim, h);
    PassStep(w, lim);
    EverybodyIsVisited(r, lim, h);
    CountSplit(r.sink.clients, 0, h);
  }

  /** One visit that keeps the client, of a walk that will be disturbed: the first client stays the first. */
  lemma VisitsOn(w: Walk, lim: Limit) returns (r: Walk)
    requires |lim.queue| > 0 && Disturbed(w.sink.clients, w.i, lim)
    requires w.i < |w.sink.clients| && !Leaves(w.sink.clients[w.i], lim)
    ensures |r.sink.clients| == |w.sink.clients| && r.i == w.i + 1 && Pass(w, lim) == Pass(r, lim)
    ensures Disturbed(r.sink.clients, r.i, lim)
    ensures var h := w.sink.clients[0].handle;
            && r.sink.clients[0].handle == h
            && VisitsTo(r.sink, h) >= VisitsTo(w.sink, h) + if w.i == 0 then 1 else 0
  {
    r := Visit(w, lim);
    PassStep(w, lim);
    VisitMoves(w, lim);
    StaysDisturbed(w, lim);
    VisitIsCounted(w, lim, w.sink.clients[0].handle);
  }

  /** A walk that has visited clients and will be disturbed visits the first one again. */
  lemma {:induction false} FirstIsVisitedAgain(w: Walk, lim: Limit)
    requires |lim.queue| > 0 && 0 < w.i <= |w.sink.clients| && Disturbed(w.sink.clients, w.i, lim)
    ensures var h := w.sink.clients[0].handle; VisitsTo(Pass(w, lim).sink, h) >= VisitsTo(w.sink, h) + 1
    decreases |w.sink.clients| - w.i
  {
    StaysDisturbed(w, lim);
    if Leaves(w.sink.clients[w.i], lim) {
      RestartVisitsFirst(w, lim);
    } else {
      var r := VisitsOn(w, lim);
      FirstIsVisitedAgain(r, lim);
    }
  }

  ghost predicate NoFewerVisits(s: SinkView, r: SinkView) { forall h :: VisitsTo(r, h) >= VisitsTo(s, h) }

  lemma VisitTakesNone(w: Walk, lim: Limit)
    requires |lim.queue| > 0 && w.i < |w.sink.clients|
    ensures NoFewerVisits(w.sink, Visit(w, lim).sink)
  {
    forall h
      ensures VisitsTo(Visit(w, lim).sink, h) >= VisitsTo(w.sink, h)
    {
      VisitIsCounted(w, lim, h);
    }
  }

  /** When the first client leaves, the walk begins again with the rest. */
  lemma FirstLeaves(w: Walk, lim: Limit) returns (r: Walk)
    requires |lim.queue| > 0 && w.i == 0 && Disturbed(w.sink.clients, 0, lim) && Leaves(w.sink.clients[0], lim)
    ensures r.i == 0 && r.sink.clients == w.sink.clients[1..] && Disturbed(r.sink.clients, 0, lim)
    ensures Pass(w, lim) == Pass(r, lim) && NoFewerVisits(w.sink, r.sink)
  {
    r := Visit(w, lim);
    PassStep(w, lim);
    VisitMoves(w, lim);
    StaysDisturbed(w, lim);
    VisitTakesNone(w, lim);
    assert w.sink.clients[..0] + w.sink.clients[1..] == w.sink.clients[1..];
  }

  /** Some listed client gets two visits more by the whole walk. */
  ghost predicate SomebodyTwice(w: Walk, r: SinkView) {
    exists k :: 0 <= k < |w.sink.clients|
                && VisitsTo(r, w.sink.clients[k].handle) >= VisitsTo(w.sink, w.sink.clients[k].handle) + 2
  }

  lemma TwiceAmongTheRest(w: Walk, v: Walk, r: SinkView)
    requires w.sink.clients != [] && v.sink.clients == w.sink.clients[1..] && NoFewerVisits(w.sink, v.sink)
    requires SomebodyTwice(v, r)
    ensures SomebodyTwice(w, r)
  {
    var k :| 0 <= k < |v.sink.clients|
             && VisitsTo(r, v.sink.clients[k].handle) >= VisitsTo(v.sink, v.sink.clients[k].handle) + 2;
    assert w.sink.clients[k + 1] == v.sink.clients[k];
    assert VisitsTo(v.sink, v.sink.clients[k].handle) >= VisitsTo(w.sink, v.sink.clients[k].handle);
  }

  /** A walk that begins and will be disturbed visits some client twice. */
  lemma {:induction false} DisturbedVisits(w: Walk, lim: Limit)
    requires |lim.queue| > 0 && w.i == 0 && Disturbed(w.sink.clients, 0, lim)
    ensures SomebodyTwice(w, Pass(w, lim).sink)
    decreases |w.sink.clients|
  {
    if Leaves(w.sink.clients[0], lim) {
      var r := FirstLeaves(w, lim);
      DisturbedVisits(r, lim);
      TwiceAmongTheRest(w, r, Pass(w, lim).sink);
    } else {
      var r := VisitsOn(w, lim);
      FirstIsVisitedAgain(r, lim);
      var h := w.sink.clients[0].handle;
      assert VisitsTo(Pass(w, lim).sink, h) >= VisitsTo(w.sink, h) + 2;
    }
  }

  lemma ClientIsVisited(cfg: Config, s: SinkView, b: Buffer, c: ClientView)
    requires Listed(s) && c in s.clients
    ensures VisitsTo(QueueBuffer(cfg, s, b), c.handle) >= VisitsTo(s, c.handle) + 1
    ensures !Disturbed(s.clients, 0, LimitOf(cfg, [b] + s.queue)) ==>
              VisitsTo(QueueBuffer(cfg, s, b), c.handle) == VisitsTo(s, c.handle) + 1
  {
    var w, lim := Walk(Prepend(s, b), 0, 0), LimitOf(cfg, [b] + s.queue);
    var k :| 0 <= k < |s.clients| && s.clients[k] == c;
    assert s.clients[0..] == s.clients;
    CountDistinct(s.clients, k);
    EverybodyIsVisited(w, lim, c.handle);
    if !Disturbed(s.clients, 0, lim) {
      UndisturbedVisits(w, lim, c.handle);
    }
  }

  lemma SomebodyIsVisitedTwice(cfg: Config, s: SinkView, b: Buffer) returns (c: ClientView)
    requires Disturbed(s.clients, 0, LimitOf(cfg, [b] + s.queue))
    ensures c in s.clients && VisitsTo(QueueBuffer(cfg, s, b), c.handle) >= VisitsTo(s, c.handle) + 2
  {
    var r, w := QueueBuffer(cfg, s, b), Walk(Prepend(s, b), 0, 0);
    DisturbedVisits(w, LimitOf(cfg, [b] + s.queue));
    var k :| 0 <= k < |s.clients| && VisitsTo(r, s.clients[k].handle) >= VisitsTo(s, s.clients[k].handle) + 2;
    c := s.clients[k];
  }

  /** Queueing a buffer advances every client at least once, and every client exactly once if, and only if, no client
      leaves as too slow that is neither the last one nor preceded by leaving clients only. */
  lemma EverybodyIsVisitedOnceIff(cfg: Config, s: SinkView, b: Buffer)
    requires Inv(cfg, s)
    ensures forall c :: c in s.clients ==> VisitsTo(QueueBuffer(cfg, s, b), c.handle) >= VisitsTo(s, c.handle) + 1
    ensures (forall c :: c in s.clients ==> VisitsTo(QueueBuffer(cfg, s, b), c.handle) == VisitsTo(s, c.handle) + 1)
            <==> !Disturbed(s.clients, 0, LimitOf(cfg, [b] + s.queue))
  {
    forall c | c in s.clients
      ensures VisitsTo(QueueBuffer(cfg, s, b), c.handle) >= VisitsTo(s, c.handle) + 1
      ensures !Disturbed(s.clients, 0, LimitOf(cfg, [b] + s.queue)) ==>
                VisitsTo(QueueBuffer(cfg, s, b), c.handle) == VisitsTo(s, c.handle) + 1
    {
      ClientIsVisited(cfg, s, b, c);
    }
    if Disturbed(s.clients, 0, LimitOf(cfg, [b] + s.queue)) {
      var c := SomebodyIsVisitedTwice(cfg, s, b);
    }
  }

  // ---- How far back an undisturbed walk finds somebody ----

  /** Where the first visit leaves a client that it does not find too slow. */
  function Reach(c: ClientView, lim: Limit): int
    requires |lim.queue| > 0
  {
    if TooSlow(Advance(c, lim), lim) then 0 else Advance(c, lim).bufpos
  }

  /** The furthest of these, or 0. */
  function Furthest(cs: seq<ClientView>, lim: Limit): int
    requires |lim.queue| > 0
  {
    if cs == [] then 0 else Max(Reach(cs[0], lim), Furthest(cs[1..], lim))
  }

  lemma VisitUsage(w: Walk, lim: Limit)
    requires |lim.queue| > 0 && w.i < |w.sink.clients| && 0 <= w.usage
    ensures Visit(w, lim).usage == Max(w.usage, Reach(w.sink.clients[w.i], lim))
  {
  }

  lemma {:induction false} FurthestAppend(a: seq<ClientView>, b: seq<ClientView>, lim: Limit)
    requires |lim.queue| > 0
    ensures Furthest(a + b, lim) == Max(Furthest(a, lim), Furthest(b, lim))
  {
    if a == [] {
      assert a + b == b;
      FurthestNatural(b, lim);
    } else {
      var whole := a + b;
      assert whole[0] == a[0] && whole[1..] == a[1..] + b;
      FurthestAppend(a[1..], b, lim);
    }
  }

  lemma {:induction false} FurthestNatural(cs: seq<ClientView>, lim: Limit)
    requires |lim.queue| > 0
    ensures Furthest(cs, lim) >= 0
  {
    if cs != [] {
      FurthestNatural(cs[1..], lim);
    }
  }

  /** What a walk will at least report as used. */
  function Foreseen(w: Walk, lim: Limit): int
    requires |lim.queue| > 0 && w.i <= |w.sink.clients|
  {
    Max(w.usage, Furthest(w.sink.clients[w.i..], lim))
  }

  lemma ForeseenSplit(w: Walk, lim: Limit)
    requires |lim.queue| > 0 && w.i < |w.sink.clients| && 0 <= w.usage
    ensures Foreseen(w, lim) == Max(Visit(w, lim).usage, Furthest(w.sink.clients[w.i + 1..], lim))
    ensures 0 <= Visit(w, lim).usage
  {
    VisitUsage(w, lim);
    assert w.sink.clients[w.i..][1..] == w.sink.clients[w.i + 1..];
  }

  /** Whom the walk has ahead of it after a visit. */
  lemma VisitLeavesFurthest(w: Walk, lim: Limit)
    requires |lim.queue| > 0 && w.i < |w.sink.clients|
    ensures var cs, r := w.sink.clients, Visit(w, lim);
            && Furthest(r.sink.clients[r.i..], lim) >= Furthest(cs[w.i + 1..], lim)
            && ((Leaves(cs[w.i], lim) && 0 < w.i < |cs| - 1)
                || Furthest(r.sink.clients[r.i..], lim) == Furthest(cs[w.i + 1..], lim))
  {
    var cs, r := w.sink.clients, Visit(w, lim);
    VisitMoves(w, lim);
    if !Leaves(cs[w.i], lim) {
      assert r.sink.clients[r.i..] == cs[w.i + 1..];
    } else if w.i == |cs| - 1 {
      assert r.sink.clients[r.i..] == [] && cs[w.i + 1..] == [];
    } else {
      FurthestAppend(cs[..w.i], cs[w.i + 1..], lim);
      assert r.sink.clients[0..] == r.sink.clients;
      assert w.i == 0 ==> cs[..0] == [];
    }
  }

  /** One visit, and what it means for the usage that is foreseen. */
  lemma ForeseenAfterVisit(w: Walk, lim: Limit) returns (r: Walk)
    requires |lim.queue| > 0 && w.i < |w.sink.clients| && 0 <= w.usage
    ensures r.i <= |r.sink.clients| && 0 <= r.usage && Pass(w, lim) == Pass(r, lim)
    ensures |r.sink.clients| < |w.sink.clients| || (|r.sink.clients| == |w.sink.clients| && r.i == w.i + 1)
    ensures Foreseen(r, lim) >= Foreseen(w, lim)
    ensures !Disturbed(w.sink.clients, w.i, lim) ==>
              !Disturbed(r.sink.clients, r.i, lim) && Foreseen(r, lim) == Foreseen(w, lim)
  {
    r := Visit(w, lim);
    PassStep(w, lim);
    ForeseenSplit(w, lim);
    VisitLeavesFurthest(w, lim);
    VisitMoves(w, lim);
    if !Disturbed(w.sink.clients, w.i, lim) {
      StaysUndisturbed(w, lim);
    }
  }

  /** Whatever restarts a walk goes through, it reports at least what is foreseen. */
  lemma {:induction false} UsageReaches(w: Walk, lim: Limit)
    requires |lim.queue| > 0 && w.i <= |w.sink.clients| && 0 <= w.usage
    ensures Pass(w, lim).usage >= Foreseen(w, lim)
    decreases |w.sink.clients|, |w.sink.clients| - w.i
  {
    if w.i < |w.sink.clients| {
      var r := ForeseenAfterVisit(w, lim);
      UsageReaches(r, lim);
    }
  }

  /** What an undisturbed walk reports as used can be told from the clients as they were before it. */
  lemma {:induction false} UndisturbedUsage(w: Walk, lim: Limit)
    requires |lim.queue| > 0 && w.i <= |w.sink.clients| && !Disturbed(w.sink.clients, w.i, lim) && 0 <= w.usage
    ensures Pass(w, lim).usage == Foreseen(w, lim)
    decreases |w.sink.clients|, |w.sink.clients| - w.i
  {
    if w.i < |w.sink.clients| {
      var r := ForeseenAfterVisit(w, lim);
      UndisturbedUsage(r, lim);
    }
  }

  // ---- Cursors that keep step with the queue ----

  /** Of the buffers queued since each client was added, the first `i` clients have been advanced for all, the others
      for all but the last. */
  ghost predicate InStep(cs: seq<ClientView>, i: nat, total: nat) {
    forall k :: 0 <= k < |cs| ==> Extra(cs[k], total) == if k < i then 0 else -1
  }

  /** Clients that were given up had been advanced exactly once for every buffer. */
  ghost predicate EndsEven(s: SinkView) {
    && (forall k :: 0 <= k < |s.clients| && s.clients[k].removing ==> s.clients[k].trail.end.extra == 0)
    && (forall k :: 0 <= k < |s.past.gone| ==> s.past.gone[k].trail.end.extra == 0)
  }

  lemma VisitInStep(w: Walk, lim: Limit, total: nat)
    requires |lim.queue| > 0 && w.i < |w.sink.clients| && !Disturbed(w.sink.clients, w.i, lim)
    requires InStep(w.sink.clients, w.i, total)
    ensures InStep(Visit(w, lim).sink.clients, Visit(w, lim).i, total)
  {
    var cs, r := w.sink.clients, Visit(w, lim);
    VisitMoves(w, lim);
    StaysUndisturbed(w, lim);
    if Leaves(cs[w.i], lim) {
      assert forall k :: 0 <= k < |r.sink.clients| ==> r.sink.clients[k] == cs[if k < w.i then k else k + 1];
    }
  }

  /** Whom a visit removes was at the mark the visit left it at. */
  lemma VisitEnds(w: Walk, lim: Limit)
    requires |lim.queue| > 0 && w.i < |w.sink.clients| && Leaves(w.sink.clients[w.i], lim)
    ensures var gone := Visit(w, lim).sink.past.gone;
            && gone[..|gone| - 1] == w.sink.past.gone && |gone| == |w.sink.past.gone| + 1
            && gone[|gone| - 1].trail.end == MarkNow(Advance(w.sink.clients[w.i], lim), Total(w.sink))
  {
  }

  lemma KeptEndsEven(w: Walk, lim: Limit)
    requires |lim.queue| > 0 && w.i < |w.sink.clients| && !Leaves(w.sink.clients[w.i], lim) && EndsEven(w.sink)
    ensures EndsEven(Visit(w, lim).sink) && Visit(w, lim).sink.past == w.sink.past
  {
    VisitMoves(w, lim);
  }

  lemma GoneEndsEven(w: Walk, lim: Limit)
    requires |lim.queue| > 0 && w.i < |w.sink.clients| && Leaves(w.sink.clients[w.i], lim) && EndsEven(w.sink)
    requires Extra(Advance(w.sink.clients[w.i], lim), Total(w.sink)) == 0
    ensures EndsEven(Visit(w, lim).sink)
  {
    var cs, r := w.sink.clients, Visit(w, lim);
    VisitMoves(w, lim);
    VisitEnds(w, lim);
    assert forall k :: 0 <= k < |r.sink.clients| ==> r.sink.clients[k] == cs[if k < w.i then k else k + 1];
    assert forall k :: 0 <= k < |w.sink.past.gone| ==> r.sink.past.gone[k] == w.sink.past.gone[k];
  }

  lemma VisitEndsEven(w: Walk, lim: Limit)
    requires |lim.queue| > 0 && w.i < |w.sink.clients|
    requires InStep(w.sink.clients, w.i, Total(w.sink)) && EndsEven(w.sink)
    ensures EndsEven(Visit(w, lim).sink) && Total(Visit(w, lim).sink) == Total(w.sink)
  {
    if Leaves(w.sink.clients[w.i], lim) {
      assert Extra(w.sink.clients[w.i], Total(w.sink)) == -1;
      GoneEndsEven(w, lim);
    } else {
      KeptEndsEven(w, lim);
    }
  }

  lemma {:induction false} UndisturbedInStep(w: Walk, lim: Limit)
    requires |lim.queue| > 0 && w.i <= |w.sink.clients| && !Disturbed(w.sink.clients, w.i, lim)
    requires InStep(w.sink.clients, w.i, Total(w.sink)) && EndsEven(w.sink)
    ensures var r := Pass(w, lim).sink;
            InStep(r.clients, |r.clients|, Total(r)) && EndsEven(r) && Total(r) == Total(w.sink)
    decreases |w.sink.clients|, |w.sink.clients| - w.i
  {
    if w.i < |w.sink.clients| {
      VisitInStep(w, lim, Total(w.sink));
      VisitEndsEven(w, lim);
      StaysUndisturbed(w, lim);
      UndisturbedInStep(Visit(w, lim), lim);
    }
  }
}

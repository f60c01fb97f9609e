/** Who is listed after an operation: what adding and removing do together, and how a client leaves. */
module Membership {
  import opened Basics
  import opened Buffers
  import opened Limits
  import opened Positions
  import opened Clients
  import opened ClientSafety
  import opened Sink
  import opened SinkSafety

  /** A client that is changed in place keeps its position. */
  lemma {:induction false} IndexOfChanged(cs: seq<ClientView>, i: nat, c: ClientView, h: Handle)
    requires i < |cs| && c.handle == cs[i].handle
    ensures IndexOf(cs[i := c], h) == IndexOf(cs, h)
  {
    var more := cs[i := c];
    if i == 0 {
      assert more[1..] == cs[1..];
    } else {
      assert more[1..] == cs[1..][i - 1 := c];
      IndexOfChanged(cs[1..], i - 1, c, h);
    }
  }

  /** How a client that is removed leaves: all its references are given back, its status says why, and it is noted
      where it was. */
  function Left(c: ClientView, status: Status, total: nat): ClientView {
    c.(status := status, removing := true, source := false, sending := [], caps := None,
       trail := c.trail.(released := c.trail.released + multiset(c.sending), end := MarkNow(c, total)))
  }

  /** `r` is `s` without client `i`, which left with `status`; everybody else keeps place and state. */
  ghost predicate LeavesAs(s: SinkView, r: SinkView, i: nat, status: Status)
    requires i < |s.clients|
  {
    && r.clients == s.clients[..i] + s.clients[i + 1..]
    && r.handles == s.handles - {s.clients[i].handle}
    && r.past.gone == s.past.gone + [Left(s.clients[i], status, Total(s))]
    && SameButList(s, r)
  }

  lemma LeftIs(c: ClientView, status: Status, total: nat)
    requires status != Slow
    ensures BeginRemoval(c.(status := status), total) == Left(c, status, total)
  {
  }

  lemma RemoveAsLeaves(s: SinkView, i: nat, status: Status)
    requires i < |s.clients| && !s.clients[i].removing && status != Slow
    ensures LeavesAs(s, RemoveAs(s, i, status, false), i, status)
  {
    LeftIs(s.clients[i], status, Total(s));
    var s1 := SetClient(SetClient(s, i, s.clients[i].(status := status)), i, Left(s.clients[i], status, Total(s)));
    assert s1.clients[..i] == s.clients[..i] && s1.clients[i + 1..] == s.clients[i + 1..];
  }

  /** Removing a client that is listed and in order takes exactly this one out. */
  lemma RemoveTakesOut(cfg: Config, s: SinkView, h: Handle)
    requires Inv(cfg, s) && h in s.handles
    ensures IndexOf(s.clients, h) != -1
    ensures var i := IndexOf(s.clients, h);
            if s.clients[i].status == Ok then LeavesAs(s, Remove(s, h, false), i, Removed) else Remove(s, h, false) == s
  {
    var i := IndexOf(s.clients, h);
    assert Fit(s.clients[i], s.queue, s.past.stream, cfg.resend);
    if s.clients[i].status == Ok {
      RemoveAsLeaves(s, i, Removed);
    }
  }

  /** A client whose socket fails or hangs up leaves, whatever else the socket is ready for. */
  lemma BrokenSocketLeaves(cfg: Config, s: SinkView, h: Handle, cond: Condition, incoming: seq<ReadReply>,
                           replies: seq<Reply>)
    requires Inv(cfg, s) && h in s.handles && (cond.err || cond.hup)
    ensures IndexOf(s.clients, h) != -1 && CursorsInside(s)
    ensures var i := IndexOf(s.clients, h);
            !s.clients[i].removing ==>
              LeavesAs(s, SocketCondition(cfg, s, h, cond, incoming, replies, false), i,
                       if cond.err then Failed else Closed)
  {
    InvCursors(cfg, s);
    var i := IndexOf(s.clients, h);
    assert Fit(s.clients[i], s.queue, s.past.stream, cfg.resend);
    if !s.clients[i].removing {
      RemoveAsLeaves(s, i, if cond.err then Failed else Closed);
    }
  }

  /** A client is added, in front of the others, exactly if the element runs, the handle is free, and the minimum of the
      burst is not above its maximum in the same unit. It is watched, and waits with the method and the burst asked
      for. */
  lemma AddedIff(s: SinkView, h: Handle, sync: SyncMethod, burst: BurstSpec)
    ensures var r := AddFull(s, h, sync, burst);
            if s.running && h !in s.handles
               && !(burst.minFormat == burst.maxFormat && burst.minValue != UNSET && burst.maxValue != UNSET
                    && burst.minValue > burst.maxValue)
            then
              && |r.clients| == |s.clients| + 1 && r.clients[1..] == s.clients
              && r == s.(clients := r.clients, handles := s.handles + {h})
              && var c := r.clients[0];
                 && c.handle == h && c.sync == sync && c.trail.added == sync && c.burst == burst && c.caps == None
                 && c.status == Ok && c.bufpos == -1 && c.flushcount == -1 && c.newConnection && c.source
                 && !c.removing && c.sending == [] && c.bytesSent == 0 && c.dropped == 0
            else r == s
  {
  }

  /** Without a method of its own a client is added with the defaults; the default burst has no maximum. */
  lemma AddedWithDefaults(cfg: Config, s: SinkView, h: Handle)
    ensures Add(cfg, s, h)
            == AddFull(s, h, cfg.defSync, BurstSpec(cfg.defBurstFormat, cfg.defBurstValue, cfg.defBurstFormat, UNSET))
    ensures Add(cfg, s, h) != s <==> s.running && h !in s.handles
  {
    if s.running && h !in s.handles {
      assert |Add(cfg, s, h).clients| == |s.clients| + 1;
    }
  }

  /** A flush begins for a client in order, and for no other: it is to pick as many buffers as lie up to its cursor.
      Whether it is watched does not change, so that one that waits stays unwatched until the next buffer. */
  lemma FlushBegins(cfg: Config, s: SinkView, h: Handle)
    requires Inv(cfg, s)
    ensures var r, i := RemoveFlush(s, h), IndexOf(s.clients, h);
            if h in s.handles && i != -1 && s.clients[i].status == Ok then
              && r == s.(clients := s.clients[i := r.clients[i]])
              && var c, f := s.clients[i], r.clients[i];
                 && f.status == Flushing && f.flushcount == c.bufpos + 1
                 && f.trail.flushTo == Total(s) && f.trail.flush.next == Total(s) - 1 - c.bufpos
                 && f == c.(status := f.status, flushcount := f.flushcount, trail := f.trail)
                 && SameRecord(c, f) && f.source == c.source
            else r == s
  {
  }

  /** Removing a client that has just been added leaves everything else as it was. */
  lemma RemoveUndoesAdd(cfg: Config, s: SinkView, h: Handle, sync: SyncMethod, burst: BurstSpec)
    requires Inv(cfg, s) && s.running && h !in s.handles && !WrongLimits(burst)
    ensures Remove(AddFull(s, h, sync, burst), h, false)
            == s.(past := s.past.(gone := s.past.gone + [Left(NewClient(h, sync, burst, Total(s)), Removed, Total(s))]))
  {
    var c := NewClient(h, sync, burst, Total(s));
    var s1 := Insert(s, c);
    var r := Remove(s1, h, false);
    assert IndexOf(s1.clients, h) == 0;
    LeftIs(c, Removed, Total(s));
    RemoveAsLeaves(s1, 0, Removed);
    assert s1.clients[1..] == s.clients && s.handles + {h} - {h} == s.handles;
  }

  /** A removal that stops in the window and is taken up again comes to the same as one without a window, and while it
      stands a second removal of the client changes nothing. */
  lemma WindowChangesNothing(cfg: Config, s: SinkView, h: Handle, window: bool)
    requires Inv(cfg, s)
    ensures h in s.handles && s.clients[IndexOf(s.clients, h)].status == Ok ==>
              EndRemoval(Remove(s, h, true), h) == Remove(s, h, false)
    ensures Remove(Remove(s, h, true), h, window) == Remove(s, h, true)
  {
    var i := IndexOf(s.clients, h);
    if h in s.handles && i != -1 {
      var c := s.clients[i];
      assert Fit(c, s.queue, s.past.stream, cfg.resend);
      if c.status == Ok {
        LeftIs(c, Removed, Total(s));
        var s0 := SetClient(s, i, c.(status := Removed));
        var s1 := SetClient(s0, i, Left(c, Removed, Total(s)));
        assert Remove(s, h, true) == s1 && Remove(s, h, false) == Detach(s1, i);
        IndexOfChanged(s.clients, i, c.(status := Removed), h);
        IndexOfChanged(s0.clients, i, Left(c, Removed, Total(s)), h);
      }
    }
  }

  /** Clearing changes nothing but list, table and departures, and empties list and table unless a removal is under
      way. */
  lemma ClearEmpties(cfg: Config, s: SinkView)
    requires Inv(cfg, s)
    ensures ClearFrom(s, 0).clients == BeingRemoved(s.clients) && SameButList(s, ClearFrom(s, 0))
    ensures ClearFrom(s, 0).clients == [] && ClearFrom(s, 0).handles == {} <==> Enabled(s, StopE)
  {
    WhoStaysListed(s);
    ClearKeeps(s, 0);
    ClearInv(cfg, s, 0);
    if Enabled(s, StopE) {
      assert forall h :: h in ClearFrom(s, 0).handles ==> IndexOf(ClearFrom(s, 0).clients, h) != -1;
    }
  }

  /** From the `n`-th on, who has left did so as removed by the application. */
  ghost predicate LeftRemoved(s: SinkView, n: nat) {
    n <= |s.past.gone| && forall k :: n <= k < |s.past.gone| ==> s.past.gone[k].status == Removed
  }

  /** Whom clearing takes off the list leaves as removed. */
  lemma ClearedAreRemoved(s: SinkView)
    ensures LeftRemoved(ClearFrom(s, 0), |s.past.gone|)
  {
    var n := |s.past.gone|;
    ClearInduction(s, 0, (t: SinkView) => LeftRemoved(t, n));
  }

  /** Stopping gives up the table and the queue at once; a client whose removal is under way stays listed, so that the
      list is empty, and the invariant kept, exactly if there was none. */
  lemma StopEmptiesIff(cfg: Config, s: SinkView)
    requires Inv(cfg, s) && s.running
    ensures Stop(s).clients == BeingRemoved(s.clients) && Stop(s).handles == {} && Stop(s).queue == []
    ensures Stop(s).clients == [] <==> Enabled(s, StopE)
    ensures Inv(cfg, Stop(s)) <==> Enabled(s, StopE)
  {
    WhoStaysListed(s);
    StopInv(cfg, s);
  }
}

/** The invariant of the sink, and that every step of every run keeps it. */
module SinkSafety {
  import opened Basics
  import opened Buffers
  import opened Limits
  import opened Positions
  import opened Clients
  import opened ClientSafety
  import opened WriteSafety
  import opened Sink

  /** Bytes sent by the clients of a list. */
  function Sent(cs: seq<ClientView>): int {
    if cs == [] then 0 else cs[0].bytesSent + Sent(cs[1..])
  }

  lemma {:induction false} SentAppend(a: seq<ClientView>, b: seq<ClientView>)
    ensures Sent(a + b) == Sent(a) + Sent(b)
  {
    if a == [] {
      assert a + b == b;
    } else {
      assert (a + b)[1..] == a[1..] + b;
      SentAppend(a[1..], b);
    }
  }

  lemma SentSplit(cs: seq<ClientView>, i: nat)
    requires i < |cs|
    ensures Sent(cs) == Sent(cs[..i]) + cs[i].bytesSent + Sent(cs[i + 1..])
  {
    assert cs == cs[..i] + cs[i..];
    SentAppend(cs[..i], cs[i..]);
    assert cs[i..][1..] == cs[i + 1..];
  }

  /** Taking element `i` out of a list of which the first `i` are done and the later ones due. */
  lemma TakeOut<T>(cs: seq<T>, i: nat, done: T -> bool, due: T -> bool)
    requires i < |cs| && (forall k :: 0 <= k < i ==> done(cs[k])) && (forall k :: i < k < |cs| ==> due(cs[k]))
    ensures var rest := cs[..i] + cs[i + 1..];
            && |rest| == |cs| - 1
            && (forall k :: 0 <= k < i ==> done(rest[k]))
            && (forall k :: i <= k < |rest| ==> due(rest[k]))
  {
    var rest := cs[..i] + cs[i + 1..];
    assert forall k :: 0 <= k < |rest| ==> rest[k] == cs[if k < i then k else k + 1];
  }

  /** The table holds exactly the handles of the listed clients, which all differ. */
  ghost predicate Listed(s: SinkView) {
    && (forall i, j :: 0 <= i < j < |s.clients| ==> s.clients[i].handle != s.clients[j].handle)
    && (forall i :: 0 <= i < |s.clients| ==> s.clients[i].handle in s.handles)
    && (forall h :: h in s.handles ==> IndexOf(s.clients, h) != -1)
  }

  /** The served bytes are those sent by all clients there were since the last start. */
  ghost predicate ServedAdds(s: SinkView) {
    && s.past.goneBefore <= |s.past.gone|
    && s.bytesServed == Sent(s.clients) + Sent(s.past.gone[s.past.goneBefore..])
  }

  /** A client that left is settled: it holds no reference, and its history is accounted for. */
  ghost predicate Departed(s: SinkView, resend: bool) {
    forall i :: 0 <= i < |s.past.gone| ==> Settled(s.past.gone[i], s.past.stream, resend)
  }

  /** What does not depend on where the cursors are. */
  ghost predicate Books(s: SinkView, resend: bool) { Listed(s) && ServedAdds(s) && Departed(s, resend) }

  /** The references of the sink itself are those of the queue and of the stream headers. */
  ghost predicate Balanced(s: SinkView) {
    s.past.taken == s.past.released + multiset(s.queue) + multiset(s.streamheader)
  }

  ghost predicate QueueFits(s: SinkView) {
    QueueMatches(s.queue, s.past.stream) && |s.queue| + s.past.epoch <= Total(s)
  }

  ghost predicate ClientsSound(s: SinkView, resend: bool) {
    forall i :: 0 <= i < |s.clients| ==> Fit(s.clients[i], s.queue, s.past.stream, resend)
  }

  ghost predicate Fit(c: ClientView, queue: seq<Buffer>, stream: seq<Buffer>, resend: bool) {
    Sound(c, |stream|, stream, resend) && CursorInside(c, queue)
  }

  ghost predicate IdleIsEmpty(s: SinkView) {
    !s.running ==> s.clients == [] && s.queue == [] && s.streamheader == []
  }

  ghost predicate Inv(cfg: Config, s: SinkView) {
    && Books(s, cfg.resend) && Balanced(s) && QueueFits(s) && ClientsSound(s, cfg.resend) && IdleIsEmpty(s)
  }

  lemma InvCursors(cfg: Config, s: SinkView)
    requires Inv(cfg, s)
    ensures CursorsInside(s)
  {
  }

  // ---- The list, the table and the counters ----

  lemma {:induction false} IndexOfIs(cs: seq<ClientView>, i: nat)
    requires i < |cs| && forall k :: 0 <= k < i ==> cs[k].handle != cs[i].handle
    ensures IndexOf(cs, cs[i].handle) == i
  {
    if i > 0 {
      assert cs[1..][i - 1] == cs[i];
      IndexOfIs(cs[1..], i - 1);
    }
  }

  lemma ListedByWitness(s: SinkView)
    requires forall i, j :: 0 <= i < j < |s.clients| ==> s.clients[i].handle != s.clients[j].handle
    requires forall h :: h in s.handles <==> exists i :: 0 <= i < |s.clients| && s.clients[i].handle == h
    ensures Listed(s)
  {
    forall h | h in s.handles
      ensures IndexOf(s.clients, h) != -1
    {
      var i :| 0 <= i < |s.clients| && s.clients[i].handle == h;
      IndexOfIs(s.clients, i);
    }
  }

  lemma SetClientBooks(s: SinkView, i: nat, c: ClientView, resend: bool)
    requires i < |s.clients| && Books(s, resend) && c.handle == s.clients[i].handle
    ensures Books(Served(s, i, c), resend)
  {
    var r := Served(s, i, c);
    assert forall k :: 0 <= k < |s.clients| ==> r.clients[k].handle == s.clients[k].handle;
    forall h | h in r.handles
      ensures exists k :: 0 <= k < |r.clients| && r.clients[k].handle == h
    {
      assert r.clients[IndexOf(s.clients, h)].handle == h;
    }
    ListedByWitness(r);
    SentSplit(s.clients, i);
    SentSplit(r.clients, i);
    assert r.clients[..i] == s.clients[..i] && r.clients[i + 1..] == s.clients[i + 1..];
  }

  /** A client is replaced by one that has sent as much. */
  lemma ReplaceBooks(s: SinkView, i: nat, c: ClientView, resend: bool)
    requires i < |s.clients| && Books(s, resend)
    requires c.handle == s.clients[i].handle && c.bytesSent == s.clients[i].bytesSent
    ensures Books(SetClient(s, i, c), resend)
  {
    SetClientBooks(s, i, c, resend);
    assert Served(s, i, c) == SetClient(s, i, c);
  }

  lemma DetachListed(s: SinkView, i: nat)
    requires i < |s.clients| && Listed(s)
    ensures Listed(Detach(s, i))
  {
    var r := Detach(s, i);
    assert forall k :: 0 <= k < |r.clients| ==> r.clients[k] == s.clients[if k < i then k else k + 1];
    forall h | h in r.handles
      ensures exists k :: 0 <= k < |r.clients| && r.clients[k].handle == h
    {
      var k := FoundAfter(s, i, h);
    }
    ListedByWitness(r);
  }

  lemma FoundAfter(s: SinkView, i: nat, h: Handle) returns (k: nat)
    requires i < |s.clients| && Listed(s) && h in s.handles && h != s.clients[i].handle
    ensures k < |Detach(s, i).clients| && Detach(s, i).clients[k].handle == h
  {
    var j := IndexOf(s.clients, h);
    k := if j < i then j else j - 1;
    assert Detach(s, i).clients[k] == s.clients[j];
  }

  lemma DetachBooks(s: SinkView, i: nat, resend: bool)
    requires i < |s.clients| && Books(s, resend)
    requires Settled(s.clients[i], s.past.stream, resend)
    ensures Books(Detach(s, i), resend)
  {
    DetachListed(s, i);
    SentSplit(s.clients, i);
    SentAppend(s.clients[..i], s.clients[i + 1..]);
    var gone, since := s.past.gone, s.past.gone[s.past.goneBefore..];
    SentAppend(since, [s.clients[i]]);
    assert (gone + [s.clients[i]])[s.past.goneBefore..] == since + [s.clients[i]];
  }

  lemma RemoveLinkBooks(s: SinkView, i: nat, window: bool, resend: bool)
    requires i < |s.clients| && Books(s, resend)
    requires !s.clients[i].removing ==> Leaving(s.clients[i], Total(s), s.past.stream, resend)
    ensures Books(RemoveLink(s, i, window), resend)
  {
    if !s.clients[i].removing {
      var c := BeginRemoval(s.clients[i], Total(s));
      BeginRemovalSettles(s.clients[i], Total(s), s.past.stream, resend);
      ReplaceBooks(s, i, c, resend);
      if !window {
        DetachBooks(SetClient(s, i, c), i, resend);
      }
    }
  }

  // ---- Steps on one client ----

  /** The invariant, except that client `i` may be about to leave. */
  ghost predicate InvBut(cfg: Config, s: SinkView, i: nat) {
    && i < |s.clients| && s.running
    && Books(s, cfg.resend) && Balanced(s) && QueueFits(s)
    && (forall k :: 0 <= k < |s.clients| && k != i ==> Fit(s.clients[k], s.queue, s.past.stream, cfg.resend))
    && CursorInside(s.clients[i], s.queue)
  }

  lemma ServedInvBut(cfg: Config, s: SinkView, i: nat, c: ClientView)
    requires Inv(cfg, s) && s.running && i < |s.clients|
    requires c.handle == s.clients[i].handle && CursorInside(c, s.queue)
    ensures InvBut(cfg, Served(s, i, c), i)
  {
    SetClientBooks(s, i, c, cfg.resend);
  }

  /** When the client that was replaced fits as well, the invariant holds. */
  lemma FitInv(cfg: Config, s: SinkView, i: nat)
    requires InvBut(cfg, s, i) && Fit(s.clients[i], s.queue, s.past.stream, cfg.resend)
    ensures Inv(cfg, s)
  {
  }

  /** Replacing element `i` of a list of which all others fit. */
  lemma PutIn<T>(cs: seq<T>, i: nat, c: T, fits: T -> bool)
    requires i < |cs| && fits(c) && (forall k :: 0 <= k < |cs| && k != i ==> fits(cs[k]))
    ensures var more := cs[i := c]; forall k :: 0 <= k < |more| ==> fits(more[k])
  {
  }

  lemma BeginRemovalFits(c: ClientView, queue: seq<Buffer>, stream: seq<Buffer>, resend: bool)
    requires !Active(c) && CursorInside(c, queue) && Leaving(c, |stream|, stream, resend)
    ensures Fit(BeginRemoval(c, |stream|), queue, stream, resend)
  {
    BeginRemovalSettles(c, |stream|, stream, resend);
  }

  lemma RemoveLinkList(s: SinkView, i: nat, window: bool)
    requires i < |s.clients| && !s.clients[i].removing
    ensures var marked := s.clients[i := BeginRemoval(s.clients[i], Total(s))];
            RemoveLink(s, i, window).clients == if window then marked else marked[..i] + marked[i + 1..]
  {
  }

  /** A list of which all but one fit, with that one replaced by one that fits, and without it. */
  lemma AllFit(cs: seq<ClientView>, i: nat, c: ClientView, fits: ClientView -> bool)
    requires i < |cs| && fits(c) && forall k :: 0 <= k < |cs| && k != i ==> fits(cs[k])
    ensures var marked := cs[i := c];
            && (forall k :: 0 <= k < |marked| ==> fits(marked[k]))
            && (var rest := marked[..i] + marked[i + 1..]; forall k :: 0 <= k < |rest| ==> fits(rest[k]))
  {
    PutIn(cs, i, c, fits);
    TakeOut(cs[i := c], i, fits, fits);
  }

  /** The other clients are as they were when client `i` has left, or has been marked as leaving. */
  lemma RemoveLinkFits(cfg: Config, s: SinkView, i: nat, window: bool)
    requires InvBut(cfg, s, i) && !Active(s.clients[i]) && !s.clients[i].removing
    requires Leaving(s.clients[i], Total(s), s.past.stream, cfg.resend)
    ensures ClientsSound(RemoveLink(s, i, window), cfg.resend)
  {
    BeginRemovalFits(s.clients[i], s.queue, s.past.stream, cfg.resend);
    AllFit(s.clients, i, BeginRemoval(s.clients[i], Total(s)),
           (d: ClientView) => Fit(d, s.queue, s.past.stream, cfg.resend));
    RemoveLinkList(s, i, window);
  }

  /** Only the list, the table and the history of departures differ. */
  ghost predicate SameButList(s: SinkView, r: SinkView) {
    r == s.(clients := r.clients, handles := r.handles, past := s.past.(gone := r.past.gone))
  }

  /** A client that is being removed or can be removed. */
  ghost predicate CanGo(c: ClientView, stream: seq<Buffer>, resend: bool) {
    !Active(c) && if c.removing then Settled(c, stream, resend) else Leaving(c, |stream|, stream, resend)
  }

  lemma RemoveLinkFrame(s: SinkView, i: nat, window: bool)
    requires i < |s.clients|
    ensures SameButList(s, RemoveLink(s, i, window))
  {
  }

  lemma RemoveLinkInv(cfg: Config, s: SinkView, i: nat, window: bool)
    requires InvBut(cfg, s, i) && CanGo(s.clients[i], s.past.stream, cfg.resend)
    ensures Inv(cfg, RemoveLink(s, i, window))
  {
    if s.clients[i].removing {
      FitInv(cfg, s, i);
    } else {
      RemoveLinkBooks(s, i, window, cfg.resend);
      RemoveLinkFits(cfg, s, i, window);
      RemoveLinkFrame(s, i, window);
    }
  }

  lemma GivenUpCanGo(c: ClientView, status: Status, stream: seq<Buffer>, resend: bool)
    requires Sound(c, |stream|, stream, resend) && (status == Removed || status == Closed || status == Failed)
    ensures CanGo(c.(status := status), stream, resend)
  {
    if c.removing {
      StatusSettled(c, status, stream, resend);
    } else {
      GivenUpLeaves(c, status, |stream|, stream, resend);
    }
  }

  lemma GivenUpInvBut(cfg: Config, s: SinkView, i: nat, status: Status)
    requires Inv(cfg, s) && s.running && i < |s.clients| && (status == Removed || status == Closed || status == Failed)
    ensures var c := s.clients[i].(status := status);
            InvBut(cfg, SetClient(s, i, c), i) && CanGo(c, s.past.stream, cfg.resend)
  {
    var c := s.clients[i].(status := status);
    assert Fit(s.clients[i], s.queue, s.past.stream, cfg.resend);
    GivenUpCanGo(s.clients[i], status, s.past.stream, cfg.resend);
    ServedInvBut(cfg, s, i, c);
    assert Served(s, i, c) == SetClient(s, i, c);
  }

  lemma RemoveAsInv(cfg: Config, s: SinkView, i: nat, status: Status, window: bool)
    requires Inv(cfg, s) && s.running && i < |s.clients| && (status == Removed || status == Closed || status == Failed)
    ensures Inv(cfg, RemoveAs(s, i, status, window))
  {
    var c := s.clients[i].(status := status);
    GivenUpInvBut(cfg, s, i, status);
    RemoveLinkInv(cfg, SetClient(s, i, c), i, window);
  }

  lemma {:induction false} ReadSound(c: ClientView, incoming: seq<ReadReply>, first: bool)
    ensures var w := Read(c, incoming, first);
            && w.client == c.(status := w.client.status)
            && (if w.stays then w.client == c else w.client.status == Closed || w.client.status == Failed)
    decreases |incoming|
  {
    if incoming != [] && incoming[0].Got? {
      ReadSound(c, incoming[1..], false);
    }
  }

  /** Reading ends a client exactly if the first read finds the connection closed, or a read fails before one that
      tells nothing or finds nothing. */
  lemma {:induction false} ReadEndsIff(c: ClientView, incoming: seq<ReadReply>, first: bool)
    ensures !Read(c, incoming, first).stays
            <==> exists k :: 0 <= k < |incoming| && (forall j :: 0 <= j < k ==> incoming[j] == Got)
                             && (incoming[k] == ReadError || (incoming[k] == Empty && k == 0 && first))
    decreases |incoming|
  {
    if incoming != [] {
      var rest := incoming[1..];
      if incoming[0].Got? {
        ReadEndsIff(c, rest, false);
        if !Read(c, rest, false).stays {
          var k :| 0 <= k < |rest| && (forall j :: 0 <= j < k ==> rest[j] == Got) && rest[k] == ReadError;
          assert forall j :: 0 < j <= k ==> incoming[j] == rest[j - 1];
          assert incoming[k + 1] == ReadError;
        } else {
          assert forall j :: 0 <= j < |rest| ==> rest[j] == incoming[j + 1];
        }
      }
    }
  }

  lemma SettleInv(cfg: Config, s: SinkView, i: nat, w: Written, window: bool)
    requires Inv(cfg, s) && s.running && i < |s.clients|
    requires w.client.handle == s.clients[i].handle && !w.client.removing && CursorInside(w.client, s.queue)
    requires if w.stays then Sound(w.client, Total(s), s.past.stream, cfg.resend)
             else !Active(w.client) && Leaving(w.client, Total(s), s.past.stream, cfg.resend)
    ensures Inv(cfg, Settle(s, i, w, window))
  {
    ServedInvBut(cfg, s, i, w.client);
    if w.stays {
      FitInv(cfg, Served(s, i, w.client), i);
    } else {
      RemoveLinkInv(cfg, Served(s, i, w.client), i, window);
    }
  }

  lemma ReadEventInv(cfg: Config, s: SinkView, i: nat, incoming: seq<ReadReply>, window: bool)
    requires Inv(cfg, s) && s.running && i < |s.clients| && Active(s.clients[i])
    ensures Inv(cfg, Settle(s, i, Read(s.clients[i], incoming, true), window))
  {
    var c := s.clients[i];
    ReadSound(c, incoming, true);
    var w := Read(c, incoming, true);
    if !w.stays {
      GivenUpLeaves(c, w.client.status, Total(s), s.past.stream, cfg.resend);
    }
    SettleInv(cfg, s, i, w, window);
  }

  lemma WriteEventInv(cfg: Config, s: SinkView, i: nat, replies: seq<Reply>, window: bool)
    requires Inv(cfg, s) && s.running && i < |s.clients| && Active(s.clients[i])
    ensures OffsetInside(s.clients[i])
    ensures Inv(cfg, Settle(s, i, Write(s.clients[i], SceneOf(cfg, s), replies), window))
  {
    WriteSound(s.clients[i], SceneOf(cfg, s), replies, s.past.stream);
    SettleInv(cfg, s, i, Write(s.clients[i], SceneOf(cfg, s), replies), window);
  }

  lemma SocketConditionInv(cfg: Config, s: SinkView, h: Handle, cond: Condition, incoming: seq<ReadReply>,
                           replies: seq<Reply>, window: bool)
    requires Inv(cfg, s)
    ensures CursorsInside(s) && Inv(cfg, SocketCondition(cfg, s, h, cond, incoming, replies, window))
  {
    InvCursors(cfg, s);
    var i := IndexOf(s.clients, h);
    if h in s.handles && i != -1 {
      if !Active(s.clients[i]) {
        RemoveLinkInv(cfg, s, i, window);
      } else if cond.err {
        RemoveAsInv(cfg, s, i, Failed, window);
      } else if cond.hup {
        RemoveAsInv(cfg, s, i, Closed, window);
      } else if cond.readable {
        ReadEventInv(cfg, s, i, incoming, window);
      } else if cond.writable {
        WriteEventInv(cfg, s, i, replies, window);
      }
    }
  }

  lemma RemoveInv(cfg: Config, s: SinkView, h: Handle, window: bool)
    requires Inv(cfg, s)
    ensures Inv(cfg, Remove(s, h, window))
  {
    var i := IndexOf(s.clients, h);
    if h in s.handles && i != -1 && s.clients[i].status == Ok {
      RemoveAsInv(cfg, s, i, Removed, window);
    }
  }

  lemma DetachInv(cfg: Config, s: SinkView, i: nat)
    requires Inv(cfg, s) && i < |s.clients| && s.clients[i].removing
    ensures Inv(cfg, Detach(s, i))
  {
    var fits := (d: ClientView) => Fit(d, s.queue, s.past.stream, cfg.resend);
    assert fits(s.clients[i]);
    DetachBooks(s, i, cfg.resend);
    TakeOut(s.clients, i, fits, fits);
  }

  lemma EndRemovalInv(cfg: Config, s: SinkView, h: Handle)
    requires Inv(cfg, s)
    ensures Inv(cfg, EndRemoval(s, h))
  {
    var i := IndexOf(s.clients, h);
    if i != -1 && s.clients[i].removing {
      DetachInv(cfg, s, i);
    }
  }

  lemma RemoveFlushInv(cfg: Config, s: SinkView, h: Handle)
    requires Inv(cfg, s)
    ensures Inv(cfg, RemoveFlush(s, h))
  {
    var i := IndexOf(s.clients, h);
    if h in s.handles && i != -1 && s.clients[i].status == Ok {
      var c := BeginFlush(s.clients[i], Total(s));
      assert Fit(s.clients[i], s.queue, s.past.stream, cfg.resend);
      BeginFlushSound(s.clients[i], s.past.stream, cfg.resend);
      assert Served(s, i, c) == SetClient(s, i, c);
      ServedInvBut(cfg, s, i, c);
      FitInv(cfg, SetClient(s, i, c), i);
    }
  }

  /** What removing a client keeps, clearing keeps. */
  lemma {:induction false} ClearInduction(s: SinkView, i: nat, keeps: SinkView -> bool)
    requires i <= |s.clients| && keeps(s)
    requires forall t: SinkView, j: nat :: keeps(t) && j < |t.clients| ==> keeps(RemoveAs(t, j, Removed, false))
    ensures keeps(ClearFrom(s, i))
    decreases |s.clients|, |s.clients| - i
  {
    if i < |s.clients| {
      var s1 := RemoveAs(s, i, Removed, false);
      if s.clients[i].removing {
        ClearInduction(s1, i + 1, keeps);
      } else if i < |s1.clients| {
        ClearInduction(s1, 0, keeps);
      }
    }
  }

  lemma ClearInv(cfg: Config, s: SinkView, i: nat)
    requires Inv(cfg, s) && i <= |s.clients|
    ensures Inv(cfg, ClearFrom(s, i))
  {
    forall t: SinkView, j: nat | Inv(cfg, t) && j < |t.clients|
      ensures Inv(cfg, RemoveAs(t, j, Removed, false))
    {
      RemoveAsInv(cfg, t, j, Removed, false);
    }
    ClearInduction(s, i, (t: SinkView) => Inv(cfg, t));
  }

  /** The clients of a list whose removal has begun, as the application's request to clear marks them. */
  function BeingRemoved(cs: seq<ClientView>): seq<ClientView> {
    if cs == [] then []
    else (if cs[0].removing then [cs[0].(status := Removed)] else []) + BeingRemoved(cs[1..])
  }

  lemma {:induction false} BeingRemovedAppend(a: seq<ClientView>, b: seq<ClientView>)
    ensures BeingRemoved(a + b) == BeingRemoved(a) + BeingRemoved(b)
  {
    if a == [] {
      assert a + b == b;
    } else {
      var whole := a + b;
      assert whole[0] == a[0] && whole[1..] == a[1..] + b;
      BeingRemovedAppend(a[1..], b);
    }
  }

  lemma BeingRemovedSplit(cs: seq<ClientView>, i: nat)
    requires i < |cs|
    ensures BeingRemoved(cs) == BeingRemoved(cs[..i])
                                + (if cs[i].removing then [cs[i].(status := Removed)] else [])
                                + BeingRemoved(cs[i + 1..])
  {
    assert cs == cs[..i] + cs[i..];
    BeingRemovedAppend(cs[..i], cs[i..]);
    assert cs[i..][1..] == cs[i + 1..];
  }

  lemma {:induction false} BeingRemovedIsAll(cs: seq<ClientView>)
    requires forall k :: 0 <= k < |cs| ==> cs[k].removing && cs[k].status == Removed
    ensures BeingRemoved(cs) == cs
  {
    if cs != [] {
      BeingRemovedIsAll(cs[1..]);
    }
  }

  /** Removing client `i` marks it, if its removal has begun, or takes it out. */
  lemma RemoveAsList(s: SinkView, i: nat)
    requires i < |s.clients|
    ensures RemoveAs(s, i, Removed, false).clients
            == if s.clients[i].removing then s.clients[i := s.clients[i].(status := Removed)]
               else s.clients[..i] + s.clients[i + 1..]
  {
  }

  lemma RemoveAsBeingRemoved(cs: seq<ClientView>, i: nat)
    requires i < |cs|
    ensures BeingRemoved(if cs[i].removing then cs[i := cs[i].(status := Removed)] else cs[..i] + cs[i + 1..])
            == BeingRemoved(cs)
  {
    BeingRemovedSplit(cs, i);
    if cs[i].removing {
      var more := cs[i := cs[i].(status := Removed)];
      BeingRemovedSplit(more, i);
      assert more[..i] == cs[..i] && more[i + 1..] == cs[i + 1..];
    } else {
      BeingRemovedAppend(cs[..i], cs[i + 1..]);
    }
  }

  /** The first `n` clients have been marked. */
  ghost predicate Marked(cs: seq<ClientView>, n: nat) {
    n <= |cs| && forall k :: 0 <= k < n ==> cs[k].removing && cs[k].status == Removed
  }

  /** Clear leaves exactly the clients that are being removed already; it empties the list if there are none. */
  lemma {:induction false} ClearLeavesBeingRemoved(s: SinkView, i: nat)
    requires Marked(s.clients, i)
    ensures ClearFrom(s, i).clients == BeingRemoved(s.clients)
    decreases |s.clients|, |s.clients| - i
  {
    if i == |s.clients| {
      BeingRemovedIsAll(s.clients);
    } else {
      var s1 := RemoveAs(s, i, Removed, false);
      RemoveAsList(s, i);
      RemoveAsBeingRemoved(s.clients, i);
      if s.clients[i].removing {
        ClearLeavesBeingRemoved(s1, i + 1);
      } else if i == |s1.clients| {
        BeingRemovedIsAll(s1.clients);
      } else {
        ClearLeavesBeingRemoved(s1, 0);
      }
    }
  }

  lemma {:induction false} NoneBeingRemoved(cs: seq<ClientView>)
    requires forall k :: 0 <= k < |cs| ==> !cs[k].removing
    ensures BeingRemoved(cs) == []
  {
    if cs != [] {
      NoneBeingRemoved(cs[1..]);
    }
  }

  lemma ClearKeeps(s: SinkView, i: nat)
    requires i <= |s.clients|
    ensures SameButList(s, ClearFrom(s, i))
  {
    ClearInduction(s, i, (t: SinkView) => SameButList(s, t));
  }

  // ---- Adding, starting and stopping ----

  lemma AddListed(s: SinkView, r: SinkView, c: ClientView)
    requires Listed(s) && c.handle !in s.handles
    requires r.clients == [c] + s.clients && r.handles == s.handles + {c.handle}
    ensures Listed(r)
  {
    assert forall k :: 0 < k < |r.clients| ==> r.clients[k] == s.clients[k - 1];
    forall g | g in r.handles
      ensures exists k :: 0 <= k < |r.clients| && r.clients[k].handle == g
    {
      if g == c.handle {
        assert r.clients[0].handle == g;
      } else {
        assert r.clients[IndexOf(s.clients, g) + 1].handle == g;
      }
    }
    ListedByWitness(r);
  }

  lemma InsertInv(cfg: Config, s: SinkView, c: ClientView)
    requires Inv(cfg, s) && s.running && c.handle !in s.handles && c.bytesSent == 0
    requires Fit(c, s.queue, s.past.stream, cfg.resend)
    ensures Inv(cfg, Insert(s, c))
  {
    var r := Insert(s, c);
    AddListed(s, r, c);
    assert r.clients[0] == c && r.clients[1..] == s.clients;
    assert forall k :: 0 < k < |r.clients| ==> r.clients[k] == s.clients[k - 1];
  }

  lemma AddFullInv(cfg: Config, s: SinkView, h: Handle, sync: SyncMethod, burst: BurstSpec)
    requires Inv(cfg, s)
    ensures Inv(cfg, AddFull(s, h, sync, burst))
  {
    if s.running && !WrongLimits(burst) && h !in s.handles {
      NewClientSound(h, sync, burst, s.past.stream, cfg.resend);
      InsertInv(cfg, s, NewClient(h, sync, burst, Total(s)));
    }
  }

  /** Starting keeps the invariant, and begins to count anew; an element that runs is left alone. */
  lemma StartInv(cfg: Config, s: SinkView)
    requires Inv(cfg, s)
    ensures Inv(cfg, Start(s)) && Start(s).running
    ensures s.running ==> Start(s) == s
    ensures !s.running ==>
              var r := Start(s);
              && r.bytesServed == 0 && r.bytesToServe == 0
              && r.past.goneBefore == |r.past.gone| && r.past.epoch == Total(r)
              && r.clients == [] && r.queue == [] && r.streamheader == [] && r.past.gone == s.past.gone
              && r.past.stream == s.past.stream && r.caps == s.caps
  {
    assert !s.running ==> Start(s).clients == [];
  }

  /** With no client left the queue, the headers and the table can be given up. */
  lemma ReleaseAllInv(cfg: Config, s: SinkView)
    requires Inv(cfg, s) && s.clients == []
    ensures Inv(cfg, ReleaseAll(s.(running := false)))
    ensures ReleaseAll(s).past.taken == ReleaseAll(s).past.released
  {
  }

  /** Clearing leaves nobody listed exactly if no removal is under way. */
  lemma WhoStaysListed(s: SinkView)
    ensures ClearFrom(s, 0).clients == BeingRemoved(s.clients)
    ensures ClearFrom(s, 0).clients == [] <==> Enabled(s, StopE)
  {
    ClearLeavesBeingRemoved(s, 0);
    if Enabled(s, StopE) {
      NoneBeingRemoved(s.clients);
    } else {
      var i :| 0 <= i < |s.clients| && s.clients[i].removing;
      BeingRemovedSplit(s.clients, i);
    }
  }

  /** Stopping keeps the invariant exactly if no removal is under way, and then everything is given up. */
  lemma StopInv(cfg: Config, s: SinkView)
    requires Inv(cfg, s)
    ensures (Inv(cfg, Stop(s)) <==> Enabled(s, StopE)) && !Stop(s).running
    ensures Enabled(s, StopE) ==>
              && Stop(s).clients == [] && Stop(s).handles == {} && Stop(s).queue == []
              && Stop(s).past.taken == Stop(s).past.released
  {
    if s.running {
      WhoStaysListed(s);
      if Enabled(s, StopE) {
        ClearInv(cfg, s, 0);
        ReleaseAllInv(cfg, ClearFrom(s, 0));
      } else {
        assert Stop(s).clients[0].handle !in Stop(s).handles;
      }
    } else {
      assert forall h :: h in s.handles ==> IndexOf(s.clients, h) != -1;
    }
  }
}

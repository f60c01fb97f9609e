/** The element as an object: its methods update the client list, the clients and the queue in place, and each does
    what the function of the same name in Sink says. */
module MultiSocketSinks {
  import opened Basics
  import opened Buffers
  import opened Limits
  import opened Vectors
  import opened Positions
  import opened Clients
  import opened Sink
  import opened SinkSafety
  import opened QueueSafety
  import opened Runs
  import opened SocketClients

  /** What the clients of a list look like. */
  ghost function ViewsOf(cs: seq<SocketClient>): (vs: seq<ClientView>)
    reads cs
    ensures |vs| == |cs| && forall i :: 0 <= i < |cs| ==> vs[i] == cs[i].View()
  {
    seq(|cs|, i requires 0 <= i < |cs| reads cs => cs[i].View())
  }

  /** A list without the first occurrence of `c`. */
  function Without(cs: seq<SocketClient>, c: SocketClient): seq<SocketClient> {
    if cs == [] then [] else if cs[0] == c then cs[1..] else [cs[0]] + Without(cs[1..], c)
  }

  lemma {:induction false} WithoutIs(cs: seq<SocketClient>, i: nat)
    requires i < |cs| && forall k :: 0 <= k < i ==> cs[k] != cs[i]
    ensures Without(cs, cs[i]) == cs[..i] + cs[i + 1..]
  {
    if i > 0 {
      WithoutIs(cs[1..], i - 1);
      assert cs[1..][i - 1] == cs[i];
      assert cs[1..][..i - 1] == cs[1..i] && cs[1..][i..] == cs[i + 1..];
    }
  }

  ghost predicate Distinct(cs: seq<SocketClient>) { forall i, j :: 0 <= i < j < |cs| ==> cs[i] != cs[j] }

  /** The table finds each listed client by its handle. */
  ghost predicate Finds(cs: seq<SocketClient>, table: map<Handle, SocketClient>) {
    forall i :: 0 <= i < |cs| ==> cs[i].handle in table && table[cs[i].handle] == cs[i]
  }

  /** What the table leads to is listed. */
  ghost predicate LeadsInto(cs: seq<SocketClient>, table: map<Handle, SocketClient>) {
    forall h :: h in table ==> table[h] in cs && table[h].handle == h
  }

  /** The list holds distinct clients, and the table finds exactly these by their handles. */
  ghost predicate TableLeadsTo(cs: seq<SocketClient>, table: map<Handle, SocketClient>) {
    Distinct(cs) && Finds(cs, table) && LeadsInto(cs, table)
  }

  lemma FrontIsAmong<T>(c: T, cs: seq<T>)
    ensures forall d :: d in [c] + cs ==> d == c || d in cs
  {
  }

  lemma RestIsAmong<T>(cs: seq<T>, i: nat)
    requires i < |cs|
    ensures forall c :: c in cs[..i] + cs[i + 1..] ==> c in cs
  {
  }

  lemma DistinctWithout(cs: seq<SocketClient>, i: nat)
    requires i < |cs| && Distinct(cs)
    ensures Distinct(cs[..i] + cs[i + 1..])
  {
    var rest := cs[..i] + cs[i + 1..];
    assert forall k :: 0 <= k < |rest| ==> rest[k] == cs[if k < i then k else k + 1];
  }

  lemma FindsWithout(cs: seq<SocketClient>, table: map<Handle, SocketClient>, i: nat)
    requires i < |cs| && Distinct(cs) && Finds(cs, table)
    ensures Finds(cs[..i] + cs[i + 1..], table - {cs[i].handle})
  {
    var rest := cs[..i] + cs[i + 1..];
    assert forall k :: 0 <= k < |rest| ==> rest[k] == cs[if k < i then k else k + 1];
  }

  lemma StillThere(cs: seq<SocketClient>, i: nat, c: SocketClient)
    requires i < |cs| && c in cs && c != cs[i]
    ensures c in cs[..i] + cs[i + 1..]
  {
    var k :| 0 <= k < |cs| && cs[k] == c;
    var rest := cs[..i] + cs[i + 1..];
    assert rest[if k < i then k else k - 1] == c;
  }

  lemma LeadsIntoWithout(cs: seq<SocketClient>, table: map<Handle, SocketClient>, i: nat)
    requires i < |cs| && LeadsInto(cs, table)
    ensures LeadsInto(cs[..i] + cs[i + 1..], table - {cs[i].handle})
  {
    forall h | h in table && h != cs[i].handle
      ensures table[h] in cs[..i] + cs[i + 1..]
    {
      StillThere(cs, i, table[h]);
    }
  }

  lemma TableWithout(cs: seq<SocketClient>, table: map<Handle, SocketClient>, i: nat)
    requires TableLeadsTo(cs, table) && i < |cs|
    ensures Without(cs, cs[i]) == cs[..i] + cs[i + 1..]
    ensures TableLeadsTo(cs[..i] + cs[i + 1..], table - {cs[i].handle})
  {
    WithoutIs(cs, i);
    DistinctWithout(cs, i);
    FindsWithout(cs, table, i);
    LeadsIntoWithout(cs, table, i);
  }

  lemma TableWith(cs: seq<SocketClient>, table: map<Handle, SocketClient>, c: SocketClient)
    requires TableLeadsTo(cs, table) && c.handle !in table
    ensures TableLeadsTo([c] + cs, table[c.handle := c])
  {
    var more := [c] + cs;
    assert forall k :: 0 < k < |more| ==> more[k] == cs[k - 1];
  }

  lemma DropLast(q: seq<Buffer>, i: nat)
    requires i < |q|
    ensures q[..i + 1][..i] + q[..i + 1][i + 1..] == q[..i] && q[..i + 1][i] == q[i]
    ensures multiset(q[i..]) == multiset{q[i]} + multiset(q[i + 1..])
  {
    assert q[i..] == [q[i]] + q[i + 1..];
  }

  lemma SendablePrefix(q: seq<Buffer>, n: nat)
    requires n <= |q| && AllSendable(q)
    ensures AllSendable(q[..n])
  {
  }

  /** Queueing is prepending, walking and trimming. */
  lemma QueueBufferIs(cfg: Config, s: SinkView, b: Buffer, w: Walk)
    requires w == Walked(cfg, s, b)
    ensures Sink.QueueBuffer(cfg, s, b) == Trim(w.sink, LastKept(cfg, LimitOf(cfg, [b] + s.queue), w.usage))
  {
  }

  lemma RemoveIgnoresRunning(s: SinkView, i: nat, r: bool)
    requires i < |s.clients|
    ensures RemoveAs(s.(running := r), i, Removed, false) == RemoveAs(s, i, Removed, false).(running := r)
  {
  }

  /** Clearing works the same whether the element runs or not. */
  lemma {:induction false} ClearIgnoresRunning(s: SinkView, i: nat, r: bool)
    requires i <= |s.clients|
    ensures ClearFrom(s.(running := r), i) == ClearFrom(s, i).(running := r)
    decreases |s.clients|, |s.clients| - i
  {
    if i < |s.clients| {
      ClearStep(s, i);
      ClearStep(s.(running := r), i);
      RemoveIgnoresRunning(s, i, r);
      var s1 := RemoveAs(s, i, Removed, false);
      if s.clients[i].removing {
        ClearIgnoresRunning(s1, i + 1, r);
      } else if i < |s1.clients| {
        ClearIgnoresRunning(s1, 0, r);
      }
    }
  }

  /** One iteration of the clearing walk. */
  lemma ClearStep(s: SinkView, i: nat)
    requires i < |s.clients|
    ensures var r := RemoveAs(s, i, Removed, false);
            ClearFrom(s, i) == if s.clients[i].removing then ClearFrom(r, i + 1)
                               else if i == |r.clients| then ClearFrom(r, i) else ClearFrom(r, 0)
  {
  }

  class MultiSocketSink {
    const cfg: Config
    var running: bool
    var clients: seq<SocketClient>
    var handleHash: map<Handle, SocketClient>
    var clientsCookie: nat
    var bufqueue: seq<Buffer>
    var streamheader: seq<Buffer>
    var previousBufferInCaps: bool
    var caps: Caps
    var bytesToServe: nat
    var bytesServed: int
    var buffersQueued: int
    ghost var past: Past

    ghost function View(): SinkView
      reads this, clients
    {
      SinkView(running, ViewsOf(clients), handleHash.Keys, bufqueue, streamheader, previousBufferInCaps, caps,
               bytesToServe, bytesServed, buffersQueued, past)
    }

    /** The table leads to the listed clients, and every buffer can be sent. */
    ghost predicate Linked()
      reads this, clients
    {
      && TableLeadsTo(clients, handleHash)
      && AllSendable(bufqueue) && CapsSendable(caps)
      && (forall i :: 0 <= i < |clients| ==> clients[i].CanSend())
    }

    ghost predicate Valid()
      reads this, clients
    {
      Linked() && Inv(cfg, View())
    }

    constructor (cfg: Config, caps: Caps)
      requires CapsSendable(caps)
      ensures View() == Initial(caps) && Linked() && this.cfg == cfg
    {
      this.cfg, this.caps := cfg, caps;
      running, clients, handleHash, clientsCookie := false, [], map[], 0;
      bufqueue, streamheader, previousBufferInCaps := [], [], false;
      bytesToServe, bytesServed, buffersQueued := 0, 0, 0;
      past := Past([], 0, multiset{}, multiset{}, [], 0);
    }

    /** The position at which the table finds a handle in the list. */
    lemma LookupIsIndex(h: Handle)
      requires Linked()
      ensures h in handleHash <==> IndexOf(ViewsOf(clients), h) != -1
      ensures h in handleHash ==> clients[IndexOf(ViewsOf(clients), h)] == handleHash[h]
    {
      var i := IndexOf(ViewsOf(clients), h);
      if h in handleHash {
        var k :| 0 <= k < |clients| && clients[k] == handleHash[h];
        assert ViewsOf(clients)[k].handle == h;
      }
    }

    /** Nothing but the clients, the table and the history has changed. */
    twostate predicate SameRest()
      reads this
    {
      && running == old(running) && bufqueue == old(bufqueue) && streamheader == old(streamheader)
      && previousBufferInCaps == old(previousBufferInCaps) && caps == old(caps)
      && bytesToServe == old(bytesToServe) && bytesServed == old(bytesServed) && buffersQueued == old(buffersQueued)
    }

    /** Changing one client changes one view. */
    twostate lemma OneChanged(i: nat)
      requires i < |clients| && clients == old(clients)
      requires forall k :: 0 <= k < |clients| && k != i ==> unchanged(clients[k])
      ensures ViewsOf(clients) == old(ViewsOf(clients))[i := clients[i].View()]
    {
    }

    /** Putting one client in front puts one view in front. */
    twostate lemma OneAdded(new client: SocketClient)
      requires clients == [client] + old(clients)
      requires forall k :: 0 <= k < |old(clients)| ==> unchanged(old(clients)[k])
      ensures ViewsOf(clients) == [client.View()] + old(ViewsOf(clients))
    {
      forall k | 0 <= k < |clients|
        ensures ViewsOf(clients)[k] == ([client.View()] + old(ViewsOf(clients)))[k]
      {
        if k > 0 {
          assert clients[k] == old(clients)[k - 1];
        }
      }
    }

    /** A client put on the list and into the table has been inserted. */
    twostate lemma OneInserted(new client: SocketClient)
      requires clients == [client] + old(clients) && handleHash.Keys == old(handleHash).Keys + {client.handle}
      requires forall k :: 0 <= k < |old(clients)| ==> unchanged(old(clients)[k])
      requires SameRest() && past == old(past)
      ensures View() == Insert(old(View()), client.View())
    {
      OneAdded(client);
    }

    /** Taking one client out takes out one view. */
    twostate lemma OneRemoved(i: nat)
      requires i < |old(clients)| && clients == old(clients[..i] + clients[i + 1..])
      requires forall k :: 0 <= k < |clients| ==> unchanged(clients[k])
      ensures ViewsOf(clients) == old(ViewsOf(clients))[..i] + old(ViewsOf(clients))[i + 1..]
    {
    }

    /** A client taken off the list and the table has been detached. */
    twostate lemma OneDetached(i: nat)
      requires i < |old(clients)| && clients == old(clients[..i] + clients[i + 1..])
      requires forall k :: 0 <= k < |clients| ==> unchanged(clients[k])
      requires View() == old(View()).(clients := ViewsOf(clients), handles := handleHash.Keys, past := past)
      requires handleHash.Keys == old(handleHash).Keys - {old(clients)[i].handle}
      requires past == old(past).(gone := old(past).gone + [old(ViewsOf(clients))[i]])
      ensures View() == Detach(old(View()), i)
    {
      OneRemoved(i);
    }

    // ---- Removing ----

    /** The part of a removal that happens under the lock, before the handlers run. */
    method BeginRemoveLink(client: SocketClient, ghost i: nat)
      requires Linked() && i < |clients| && clients[i] == client
      modifies client
      ensures Linked() && View() == SetClient(old(View()), i, BeginRemoval(old(client.View()), Total(old(View()))))
    {
      client.Release(Total(View()));
      OneChanged(i);
    }

    /** Takes a client off the list and the table. */
    method Unlink(client: SocketClient, ghost i: nat)
      requires Linked() && i < |clients| && clients[i] == client
      modifies this`handleHash, this`clients, this`clientsCookie, this`past
      ensures Linked() && handleHash.Keys == old(handleHash).Keys - {client.handle}
      ensures View() == old(View()).(clients := ViewsOf(clients), handles := handleHash.Keys, past := past)
      ensures past == old(past).(gone := old(past).gone + [old(ViewsOf(clients))[i]])
      ensures clients == old(clients[..i] + clients[i + 1..]) && clientsCookie == old(clientsCookie) + 1
    {
      TableWithout(clients, handleHash, i);
      past := past.(gone := past.gone + [client.View()]);
      handleHash := handleHash - {client.handle};
      clients := Without(clients, client);
      clientsCookie := clientsCookie + 1;
    }

    /** The part after they have run: the client leaves the table and the list. */
    method FinishRemoveLink(client: SocketClient, ghost i: nat)
      requires Linked() && i < |clients| && clients[i] == client
      modifies this`handleHash, this`clients, this`clientsCookie, this`past
      ensures Linked() && View() == Detach(old(View()), i)
      ensures clients == old(clients[..i] + clients[i + 1..]) && clientsCookie == old(clientsCookie) + 1
      ensures forall c :: c in clients ==> c in old(clients)
    {
      RestIsAmong(clients, i);
      Unlink(client, i);
      OneDetached(i);
    }

    /** Removes a client, unless its removal has begun already; with `window` it stops when the lock is released. */
    method RemoveClientLink(client: SocketClient, ghost i: nat, window: bool)
      requires Linked() && i < |clients| && clients[i] == client
      modifies this`handleHash, this`clients, this`clientsCookie, this`past, client
      ensures Linked() && View() == RemoveLink(old(View()), i, window)
      ensures if old(client.currentlyRemoving) || window
              then clients == old(clients) && clientsCookie == old(clientsCookie)
              else clients == old(clients[..i] + clients[i + 1..]) && clientsCookie == old(clientsCookie) + 1
      ensures forall c :: c in clients ==> c in old(clients)
    {
      if client.currentlyRemoving {
        return;
      }
      BeginRemoveLink(client, i);
      if !window {
        FinishRemoveLink(client, i);
      }
    }

    method MarkStatus(client: SocketClient, ghost i: nat, status: Status)
      requires Linked() && i < |clients| && clients[i] == client
      modifies client`status
      ensures Linked() && View() == SetClient(old(View()), i, old(client.View()).(status := status))
    {
      client.status := status;
      OneChanged(i);
    }

    /** Removes a client with a status that says why. */
    method RemoveLinkAs(client: SocketClient, ghost i: nat, status: Status, window: bool)
      requires Linked() && i < |clients| && clients[i] == client
      modifies this`handleHash, this`clients, this`clientsCookie, this`past, client
      ensures Linked() && View() == RemoveAs(old(View()), i, status, window)
      ensures if old(client.currentlyRemoving) || window
              then clients == old(clients) && clientsCookie == old(clientsCookie)
              else clients == old(clients[..i] + clients[i + 1..]) && clientsCookie == old(clientsCookie) + 1
      ensures forall c :: c in clients ==> c in old(clients)
    {
      MarkStatus(client, i, status);
      RemoveClientLink(client, i, window);
    }

    method Remove(h: Handle, window: bool)
      requires Linked()
      modifies this`handleHash, this`clients, this`clientsCookie, this`past, clients
      ensures Linked() && View() == Sink.Remove(old(View()), h, window)
    {
      LookupIsIndex(h);
      if h in handleHash && handleHash[h].status == Ok {
        RemoveLinkAs(handleHash[h], IndexOf(ViewsOf(clients), h), Removed, window);
      }
    }

    /** The lock is taken again, and a removal that had stopped ends. */
    method EndRemoval(h: Handle)
      requires Linked()
      modifies this`handleHash, this`clients, this`clientsCookie, this`past
      ensures Linked() && View() == Sink.EndRemoval(old(View()), h)
      ensures forall c :: c in clients ==> c in old(clients)
    {
      LookupIsIndex(h);
      if h in handleHash && handleHash[h].currentlyRemoving {
        FinishRemoveLink(handleHash[h], IndexOf(ViewsOf(clients), h));
      }
    }

    method RemoveFlush(h: Handle)
      requires Linked()
      modifies clients
      ensures Linked() && View() == Sink.RemoveFlush(old(View()), h)
    {
      LookupIsIndex(h);
      if h in handleHash && handleHash[h].status == Ok {
        FlushOne(handleHash[h], IndexOf(ViewsOf(clients), h));
      }
    }

    method FlushOne(client: SocketClient, ghost i: nat)
      requires Linked() && i < |clients| && clients[i] == client
      modifies client
      ensures Linked() && View() == SetClient(old(View()), i, BeginFlush(old(client.View()), Total(old(View()))))
    {
      client.StartFlush(Total(View()));
      OneChanged(i);
    }

    /** Removes all clients; the walk starts over when the cookie shows that the list has changed under it. */
    method Clear()
      requires Linked()
      modifies this`handleHash, this`clients, this`clientsCookie, this`past, clients
      ensures Linked() && View() == ClearFrom(old(View()), 0)
    {
      var cookie, i := clientsCookie, 0;
      ghost var whole := ClearFrom(View(), 0);
      while i < |clients|
        invariant 0 <= i <= |clients| && Linked() && forall c :: c in clients ==> c in old(clients)
        invariant ClearFrom(View(), if cookie != clientsCookie && i < |clients| then 0 else i) == whole
        decreases |clients|, if cookie != clientsCookie then 1 else 0, |clients| - i
      {
        if cookie != clientsCookie {
          cookie, i := clientsCookie, 0;
          continue;
        }
        i := ClearOn(i, View());
      }
    }

    /** One iteration of the walk: what is left of it comes to the same result. */
    method ClearOn(i: nat, ghost s: SinkView) returns (next: nat)
      requires Linked() && i < |clients| && s == View()
      modifies this`handleHash, this`clients, this`clientsCookie, this`past, clients
      ensures Linked() && forall c :: c in clients ==> c in old(clients)
      ensures next <= |clients|
      ensures ClearFrom(View(), if clientsCookie != old(clientsCookie) && next < |clients| then 0 else next)
              == ClearFrom(s, i)
      ensures if clientsCookie == old(clientsCookie) then next == i + 1 && |clients| == |old(clients)|
              else next == i && |clients| < |old(clients)|
    {
      ClearStep(s, i);
      var cookie := clientsCookie;
      RemoveLinkAs(clients[i], i, Removed, false);
      next := if cookie == clientsCookie then i + 1 else i;
    }

    // ---- Adding ----

    method AddFull(h: Handle, sync: SyncMethod, burst: BurstSpec)
      requires Linked()
      modifies this`clients, this`handleHash, this`clientsCookie
      ensures Linked() && View() == Sink.AddFull(old(View()), h, sync, burst)
      ensures forall c :: c in clients ==> c in old(clients) || fresh(c)
    {
      if !running {
        return;
      }
      if burst.minFormat == burst.maxFormat {
        if burst.maxValue != UNSET && burst.minValue != UNSET && burst.maxValue < burst.minValue {
          return;
        }
      }
      if h in handleHash {
        return;
      }
      AddClient(h, sync, burst);
    }

    method AddClient(h: Handle, sync: SyncMethod, burst: BurstSpec)
      requires Linked() && h !in handleHash
      modifies this`clients, this`handleHash, this`clientsCookie
      ensures Linked() && View() == Insert(old(View()), NewClient(h, sync, burst, Total(old(View()))))
      ensures forall c :: c in clients ==> c in old(clients) || fresh(c)
    {
      var client := new SocketClient(h, sync, burst, Total(View()));
      InsertClient(client);
      FrontIsAmong(client, old(clients));
    }

    /** Puts a client in front of the list and into the table. */
    method Link(client: SocketClient)
      requires Linked() && client.handle !in handleHash && client.CanSend()
      modifies this`clients, this`handleHash, this`clientsCookie
      ensures Linked() && clients == [client] + old(clients)
      ensures handleHash.Keys == old(handleHash).Keys + {client.handle}
    {
      TableWith(clients, handleHash, client);
      clients := [client] + clients;
      handleHash := handleHash[client.handle := client];
      clientsCookie := clientsCookie + 1;
      assert forall k :: 0 < k < |clients| ==> clients[k] == old(clients)[k - 1];
    }

    method InsertClient(client: SocketClient)
      requires Linked() && client.handle !in handleHash && client.CanSend()
      modifies this`clients, this`handleHash, this`clientsCookie
      ensures Linked() && clients == [client] + old(clients)
      ensures View() == Insert(old(View()), client.View())
    {
      Link(client);
      OneInserted(client);
    }

    method Add(h: Handle)
      requires Linked()
      modifies this`clients, this`handleHash, this`clientsCookie
      ensures Linked() && View() == Sink.Add(cfg, old(View()), h)
      ensures forall c :: c in clients ==> c in old(clients) || fresh(c)
    {
      AddFull(h, cfg.defSync, BurstSpec(cfg.defBurstFormat, cfg.defBurstValue, cfg.defBurstFormat, UNSET));
    }

    // ---- Queueing a buffer ----

    /** Advances all cursors for a buffer that has just been put in front, and removes the clients that are too slow.
        The walk starts over when the cookie shows that the list has changed under it. */
    method UpdatePositions(softMaxBuffers: int, maxBuffers: int) returns (maxBufferUsage: int)
      requires Linked() && |bufqueue| > 0
      requires softMaxBuffers == LimitOf(cfg, bufqueue).soft && maxBuffers == LimitOf(cfg, bufqueue).hard
      modifies this`handleHash, this`clients, this`clientsCookie, this`past, clients
      ensures Linked()
      ensures Walk(View(), |clients|, maxBufferUsage) == WalkAll(cfg, old(View()))
    {
      var cookie, i := clientsCookie, 0;
      maxBufferUsage := 0;
      ghost var lim := LimitOf(cfg, bufqueue);
      ghost var whole := Pass(Walk(View(), 0, 0), lim);
      while i < |clients|
        invariant 0 <= i <= |clients| && Linked() && forall c :: c in clients ==> c in old(clients)
        invariant Pass(Walk(View(), if cookie != clientsCookie && i < |clients| then 0 else i, maxBufferUsage), lim)
                  == whole
        decreases |clients|, if cookie != clientsCookie then 1 else 0, |clients| - i
      {
        if cookie != clientsCookie {
          cookie, i := clientsCookie, 0;
          continue;
        }
        i, maxBufferUsage :=
          WalkOn(i, maxBufferUsage, softMaxBuffers, maxBuffers, lim, Walk(View(), i, maxBufferUsage));
      }
    }

    /** One iteration of the walk: what is left of it comes to the same result. */
    method WalkOn(i: nat, usage: int, softMaxBuffers: int, maxBuffers: int, ghost lim: Limit, ghost w: Walk)
      returns (next: nat, newUsage: int)
      requires Linked() && |bufqueue| > 0 && i < |clients| && w == Walk(View(), i, usage)
      requires lim == LimitOf(cfg, bufqueue) && softMaxBuffers == lim.soft && maxBuffers == lim.hard
      modifies this`handleHash, this`clients, this`clientsCookie, this`past, clients
      ensures Linked() && forall c :: c in clients ==> c in old(clients)
      ensures next <= |clients|
      ensures Pass(Walk(View(), if clientsCookie != old(clientsCookie) && next < |clients| then 0 else next, newUsage),
                   lim)
              == Pass(w, lim)
      ensures if clientsCookie == old(clientsCookie) then next == i + 1 && |clients| == |old(clients)|
              else next == i && |clients| < |old(clients)|
    {
      PassStep(w, lim);
      next, newUsage := UpdateClient(clients[i], i, usage, softMaxBuffers, maxBuffers);
    }

    /** Removes a client that is too slow, if its removal has not begun already. */
    method DropSlow(client: SocketClient, i: nat, ghost usage: int) returns (next: nat)
      requires Linked() && i < |clients| && clients[i] == client
      modifies this`handleHash, this`clients, this`clientsCookie, this`past, client
      ensures Linked() && forall c :: c in clients ==> c in old(clients)
      ensures if clientsCookie == old(clientsCookie) then next == i + 1 && |clients| == |old(clients)|
              else next == i && |clients| < |old(clients)|
      ensures next <= |clients|
      ensures Walk(View(), if clientsCookie != old(clientsCookie) && next < |clients| then 0 else next, usage)
              == GiveUp(old(View()), i, usage)
    {
      var cookie := clientsCookie;
      RemoveClientLink(client, i, false);
      next := if cookie != clientsCookie then i else i + 1;
    }

    /** The walk visits one client; `next` is where the client behind it is listed afterwards. */
    method UpdateClient(client: SocketClient, i: nat, usage: int, softMaxBuffers: int, maxBuffers: int)
      returns (next: nat, newUsage: int)
      requires Linked() && |bufqueue| > 0 && i < |clients| && clients[i] == client
      requires softMaxBuffers == LimitOf(cfg, bufqueue).soft && maxBuffers == LimitOf(cfg, bufqueue).hard
      modifies this`handleHash, this`clients, this`clientsCookie, this`past, client
      ensures Linked() && forall c :: c in clients ==> c in old(clients)
      ensures Walk(View(), if clientsCookie != old(clientsCookie) && next < |clients| then 0 else next, newUsage)
              == Visit(Walk(old(View()), i, usage), LimitOf(cfg, bufqueue))
      ensures if clientsCookie == old(clientsCookie) then next == i + 1 && |clients| == |old(clients)|
              else next == i && |clients| < |old(clients)|
      ensures next <= |clients|
    {
      newUsage := usage;
      next := i + 1;
      var tooSlow := VisitClient(client, i, softMaxBuffers, maxBuffers);
      if tooSlow {
        next := DropSlow(client, i, usage);
      } else if client.bufpos > newUsage {
        newUsage := client.bufpos;
      }
    }

    method VisitClient(client: SocketClient, ghost i: nat, softMaxBuffers: int, maxBuffers: int) returns (tooSlow: bool)
      requires Linked() && |bufqueue| > 0 && i < |clients| && clients[i] == client
      requires softMaxBuffers == LimitOf(cfg, bufqueue).soft && maxBuffers == LimitOf(cfg, bufqueue).hard
      modifies client
      ensures Linked()
      ensures var c := Advance(old(client.View()), LimitOf(cfg, bufqueue));
              && tooSlow == TooSlow(c, LimitOf(cfg, bufqueue))
              && client.View() == (if tooSlow then Evicted(c, Total(old(View()))) else Woken(c))
              && View() == SetClient(old(View()), i, client.View())
    {
      tooSlow := client.VisitBy(bufqueue, cfg, softMaxBuffers, maxBuffers, Total(View()));
      OneChanged(i);
    }

    /** The last index to keep so that the minima are respected and a sync point stays in the queue. */
    method ExtendUsage(maxBufferUsage: int, softMaxBuffers: int) returns (usage: int)
      requires |bufqueue| > 0 && softMaxBuffers == LimitOf(cfg, bufqueue).soft
      ensures usage == LastKept(cfg, LimitOf(cfg, bufqueue), maxBufferUsage)
    {
      var minIdx, max, ok := FindLimits(bufqueue, cfg.bytesMin, cfg.buffersMin, cfg.timeMin, UNSET, UNSET, UNSET);
      usage := Max(maxBufferUsage, minIdx + 1);
      if cfg.defSync == LatestKeyframe || cfg.defSync == BurstKeyframe {
        var limit := |bufqueue|;
        if softMaxBuffers > 0 {
          limit := Min(limit, softMaxBuffers);
        }
        var i := 0;
        while i < limit
          invariant 0 <= i <= limit && NextSync(bufqueue, i) == NextSync(bufqueue, 0)
        {
          if bufqueue[i].IsSync() {
            usage := Max(usage, i);
            break;
          }
          i := i + 1;
        }
      }
    }

    /** Takes the buffers from index `n` on off the queue, the last one first. */
    method DropFrom(n: nat)
      requires n <= |bufqueue|
      modifies this`bufqueue, this`past
      ensures bufqueue == old(bufqueue)[..n]
      ensures past == old(past).(released := old(past).released + multiset(old(bufqueue)[n..]))
    {
      var i := |bufqueue| - 1;
      while i >= n
        invariant n - 1 <= i < |old(bufqueue)| && bufqueue == old(bufqueue)[..i + 1]
        invariant past == old(past).(released := past.released)
        invariant past.released == old(past).released + multiset(old(bufqueue)[i + 1..])
      {
        DropLast(old(bufqueue), i);
        past := past.(released := past.released + multiset{bufqueue[i]});
        bufqueue := bufqueue[..i] + bufqueue[i + 1..];
        i := i - 1;
      }
    }

    /** Takes the buffers behind `usage` off the queue. */
    method TrimQueue(usage: nat)
      requires Linked()
      modifies this`bufqueue, this`buffersQueued, this`past
      ensures Linked() && View() == Trim(old(View()), usage)
    {
      SendablePrefix(bufqueue, Min(|bufqueue|, usage + 1));
      DropFrom(Min(|bufqueue|, usage + 1));
      buffersQueued := usage;
    }

    method PrependBuffer(buffer: Buffer)
      requires Linked() && buffer.Sendable()
      modifies this`bufqueue, this`past
      ensures Linked() && View() == Prepend(old(View()), buffer) && bufqueue == [buffer] + old(bufqueue)
    {
      bufqueue := [buffer] + bufqueue;
      past := past.(stream := past.stream + [buffer]);
      assert ViewsOf(clients) == old(ViewsOf(clients));
    }

    /** The limits of a lagging client as positions in the queue, or -1. */
    method LimitPositions() returns (softMaxBuffers: int, maxBuffers: int)
      ensures softMaxBuffers == LimitOf(cfg, bufqueue).soft && maxBuffers == LimitOf(cfg, bufqueue).hard
    {
      maxBuffers, softMaxBuffers := -1, -1;
      if cfg.unitsMax > 0 {
        maxBuffers := GetBuffersMax(cfg.unitFormat, bufqueue, cfg.unitsMax);
      }
      if cfg.unitsSoftMax > 0 {
        softMaxBuffers := GetBuffersMax(cfg.unitFormat, bufqueue, cfg.unitsSoftMax);
      }
    }

    /** Walks over the clients of a queue that has a new buffer in front. */
    method WalkClients() returns (usage: int, softMaxBuffers: int)
      requires Linked() && |bufqueue| > 0
      modifies this`handleHash, this`clients, this`clientsCookie, this`past, clients
      ensures Linked() && softMaxBuffers == LimitOf(cfg, bufqueue).soft
      ensures Walk(View(), |clients|, usage) == WalkAll(cfg, old(View()))
    {
      var maxBuffers;
      softMaxBuffers, maxBuffers := LimitPositions();
      usage := UpdatePositions(softMaxBuffers, maxBuffers);
    }

    method QueueAndWalk(buffer: Buffer) returns (usage: int, softMaxBuffers: int)
      requires Linked() && buffer.Sendable()
      modifies this`handleHash, this`clients, this`clientsCookie, this`past, this`bufqueue, clients
      ensures Linked() && bufqueue == [buffer] + old(bufqueue) && softMaxBuffers == LimitOf(cfg, bufqueue).soft
      ensures Walk(View(), |clients|, usage) == Walked(cfg, old(View()), buffer)
    {
      PrependBuffer(buffer);
      ghost var s1 := View();
      usage, softMaxBuffers := WalkClients();
      WalkedIs(cfg, old(View()), buffer, s1);
    }

    method QueueBuffer(buffer: Buffer)
      requires Linked() && buffer.Sendable()
      modifies this`handleHash, this`clients, this`clientsCookie, this`past, this`bufqueue, this`buffersQueued, clients
      ensures Linked() && View() == Sink.QueueBuffer(cfg, old(View()), buffer)
    {
      var usage, softMaxBuffers := QueueAndWalk(buffer);
      ghost var w := Walk(View(), |clients|, usage);
      var last := ExtendUsage(usage, softMaxBuffers);
      QueueBufferIs(cfg, old(View()), buffer, w);
      TrimQueue(last);
    }

    /** Gives back the stream headers kept so far. */
    method DropHeaders()
      requires Linked()
      modifies this`past, this`streamheader
      ensures Linked() && View() == HeadersDropped(old(View()))
    {
      past := past.(released := past.released + multiset(streamheader));
      streamheader := [];
      assert ViewsOf(clients) == old(ViewsOf(clients));
    }

    method Reference(buf: Buffer)
      requires Linked()
      modifies this`past
      ensures Linked() && View() == Referenced(old(View()), buf)
    {
      past := past.(taken := past.taken + multiset{buf});
    }

    method NoteKind(header: bool)
      requires Linked()
      modifies this`previousBufferInCaps
      ensures Linked() && View() == old(View()).(prevHeader := header)
    {
      previousBufferInCaps := header;
    }

    /** Takes the reference and, at the first header after data, drops the stream headers kept so far. */
    method NoteBuffer(buf: Buffer)
      requires Linked() && running
      modifies this`past, this`streamheader, this`previousBufferInCaps
      ensures Linked() && View() == Noted(old(View()), buf)
    {
      var dropped := buf.header && !previousBufferInCaps;
      Reference(buf);
      if dropped {
        DropHeaders();
      }
      NoteKind(buf.header);
    }

    method RenderData(buf: Buffer)
      requires Linked() && buf.Sendable()
      modifies this`handleHash, this`clients, this`clientsCookie, this`past, this`bufqueue, this`buffersQueued,
               this`bytesToServe, clients
      ensures Linked() && View() == Sink.RenderData(cfg, old(View()), buf)
    {
      QueueBuffer(buf);
      CountToServe(buf.Size());
    }

    method Render(buf: Buffer)
      requires Linked() && buf.Sendable()
      modifies this`handleHash, this`clients, this`clientsCookie, this`past, this`bufqueue, this`buffersQueued,
               this`bytesToServe, this`streamheader, this`previousBufferInCaps, clients
      ensures Linked() && View() == Sink.Render(cfg, old(View()), buf)
    {
      if !running {
        return;
      }
      NoteBuffer(buf);
      if buf.header {
        streamheader := streamheader + [buf];
      } else {
        RenderData(buf);
      }
    }

    method CountToServe(n: nat)
      requires Linked()
      modifies this`bytesToServe
      ensures Linked() && View() == Sink.CountToServe(old(View()), n)
    {
      bytesToServe := bytesToServe + n;
    }

    // ---- Socket events ----

    /** The client writes what its socket takes. */
    method WriteClient(client: SocketClient, ghost i: nat, replies: seq<Reply>, ghost w: Written)
      returns (stays: bool, served: nat)
      requires Linked() && i < |clients| && clients[i] == client
      requires CursorInside(client.View(), bufqueue) && OffsetInside(client.View())
      requires w == Write(client.View(), SceneOf(cfg, View()), replies)
      modifies client
      ensures Linked() && View() == SetClient(old(View()), i, w.client)
      ensures stays == w.stays && served == w.client.bytesSent - old(View()).clients[i].bytesSent
    {
      stays, served := client.HandleWrite(bufqueue, caps, cfg.resend, replies, SceneOf(cfg, View()));
      OneChanged(i);
    }

    method HandleClientWrite(client: SocketClient, ghost i: nat, replies: seq<Reply>, ghost w: Written)
      returns (stays: bool)
      requires Linked() && i < |clients| && clients[i] == client
      requires CursorInside(client.View(), bufqueue) && OffsetInside(client.View())
      requires w == Write(client.View(), SceneOf(cfg, View()), replies)
      modifies this`bytesServed, client
      ensures Linked() && stays == w.stays && View() == Served(old(View()), i, w.client)
    {
      var served;
      stays, served := WriteClient(client, i, replies, w);
      CountServed(served);
    }

    method CountServed(n: nat)
      requires Linked()
      modifies this`bytesServed
      ensures Linked() && View() == old(View()).(bytesServed := old(View()).bytesServed + n)
    {
      bytesServed := bytesServed + n;
    }

    method HandleClientRead(client: SocketClient, ghost i: nat, incoming: seq<ReadReply>, ghost w: Written)
      returns (stays: bool)
      requires Linked() && i < |clients| && clients[i] == client && w == Read(client.View(), incoming, true)
      modifies client`status
      ensures Linked() && stays == w.stays && View() == Served(old(View()), i, w.client)
    {
      ReadSound(client.View(), incoming, true);
      stays := client.HandleRead(incoming);
      OneChanged(i);
    }

    /** The end of a socket event. */
    method KeepIf(stays: bool, client: SocketClient, ghost i: nat, window: bool)
      requires Linked() && i < |clients| && clients[i] == client
      modifies this`handleHash, this`clients, this`clientsCookie, this`past, client
      ensures Linked() && View() == if stays then old(View()) else RemoveLink(old(View()), i, window)
      ensures stays ==> clients == old(clients) && handleHash == old(handleHash)
    {
      if !stays {
        RemoveClientLink(client, i, window);
      }
    }

    /** A client that can be read from is kept or removed; `w` is what its reading comes to. */
    method ReadEvent(client: SocketClient, ghost i: nat, incoming: seq<ReadReply>, window: bool, ghost w: Written)
      returns (stays: bool)
      requires Linked() && i < |clients| && clients[i] == client && w == Read(client.View(), incoming, true)
      modifies this`handleHash, this`clients, this`clientsCookie, this`past, client
      ensures Linked() && View() == Settle(old(View()), i, w, window)
      ensures stays ==> clients == old(clients) && handleHash == old(handleHash)
    {
      stays := HandleClientRead(client, i, incoming, w);
      KeepIf(stays, client, i, window);
    }

    /** A client that can be written to is kept or removed; `w` is what its writing comes to. */
    method WriteEvent(client: SocketClient, ghost i: nat, replies: seq<Reply>, window: bool, ghost w: Written)
      returns (stays: bool)
      requires Linked() && i < |clients| && clients[i] == client
      requires CursorInside(client.View(), bufqueue) && OffsetInside(client.View())
      requires w == Write(client.View(), SceneOf(cfg, View()), replies)
      modifies this`handleHash, this`clients, this`clientsCookie, this`past, this`bytesServed, client
      ensures Linked() && View() == Settle(old(View()), i, w, window)
      ensures stays ==> clients == old(clients) && handleHash == old(handleHash)
    {
      stays := HandleClientWrite(client, i, replies, w);
      KeepIf(stays, client, i, window);
    }

    /** A client's socket is ready, closed or broken. */
    method SocketCondition(h: Handle, cond: Condition, incoming: seq<ReadReply>, replies: seq<Reply>, window: bool)
      returns (ret: bool)
      requires Linked() && CursorsInside(View())
      modifies this`handleHash, this`clients, this`clientsCookie, this`past, this`bytesServed, clients
      ensures Linked()
      ensures View() == Sink.SocketCondition(cfg, old(View()), h, cond, incoming, replies, window)
      ensures ret ==> h in handleHash && clients == old(clients)
    {
      LookupIsIndex(h);
      if h !in handleHash {
        return false;
      }
      var client := handleHash[h];
      ghost var i := IndexOf(ViewsOf(clients), h);
      assert clients[i] == client;
      if client.status != Flushing && client.status != Ok {
        RemoveClientLink(client, i, window);
        ret := false;
      } else if cond.err {
        RemoveLinkAs(client, i, Failed, window);
        ret := false;
      } else if cond.hup {
        RemoveLinkAs(client, i, Closed, window);
        ret := false;
      } else if cond.readable {
        ret := ReadEvent(client, i, incoming, window, Read(client.View(), incoming, true));
      } else if cond.writable {
        ret := WriteEvent(client, i, replies, window, Write(client.View(), SceneOf(cfg, View()), replies));
      } else {
        ret := true;
      }
    }

    // ---- Start and stop ----

    method SetCaps(newCaps: Caps)
      requires Linked() && CapsSendable(newCaps)
      modifies this`caps
      ensures Linked() && View() == old(View()).(caps := newCaps)
    {
      caps := newCaps;
    }

    /** Watches every listed client. */
    method WatchOne(client: SocketClient, ghost i: nat)
      requires Linked() && i < |clients| && clients[i] == client
      modifies client`source
      ensures Linked() && client.View() == old(client.View()).(source := true)
      ensures forall k :: 0 <= k < |clients| && k != i ==> clients[k].View() == old(clients[k].View())
    {
      client.Watch();
    }

    method WatchAll()
      requires Linked()
      modifies clients
      ensures Linked() && View() == old(View()).(clients := WatchedAll(old(View()).clients))
    {
      var i := 0;
      while i < |clients|
        invariant 0 <= i <= |clients| && Linked()
        invariant forall k :: 0 <= k < i ==> clients[k].View() == old(clients[k].View()).(source := true)
        invariant forall k :: i <= k < |clients| ==> clients[k].View() == old(clients[k].View())
      {
        WatchOne(clients[i], i);
        i := i + 1;
      }
      assert ViewsOf(clients) == WatchedAll(old(ViewsOf(clients)));
    }

    method Start()
      requires Linked()
      modifies this`past, this`streamheader, this`bytesToServe, this`bytesServed, this`running, clients
      ensures Linked() && View() == Sink.Start(old(View()))
    {
      if running {
        return;
      }
      WatchAll();
      ResetCounters();
      SetRunning();
    }

    method SetRunning()
      requires Linked()
      modifies this`running
      ensures Linked() && View() == old(View()).(running := true)
    {
      running := true;
      assert ViewsOf(clients) == old(ViewsOf(clients));
    }

    method ResetCounters()
      requires Linked()
      modifies this`past, this`streamheader, this`bytesToServe, this`bytesServed
      ensures Linked() && View() == CountersReset(old(View()))
    {
      past := past.(epoch := |past.stream|, goneBefore := |past.gone|);
      streamheader := [];
      bytesToServe, bytesServed := 0, 0;
    }

    /** Empties the table; whoever is still listed is not found any more. */
    method GiveUpTable()
      requires Linked()
      modifies this`handleHash
      ensures View() == old(View()).(handles := {}) && (Linked() <==> clients == []) && AllSendable(bufqueue)
    {
      handleHash := map[];
      assert ViewsOf(clients) == old(ViewsOf(clients));
      assert clients != [] ==> clients[0].handle !in handleHash;
    }

    /** Gives back the whole queue. */
    method DropAll()
      modifies this`bufqueue, this`past
      ensures View() == old(View()).(queue := [], past := past)
      ensures past == old(past).(released := old(past).released + multiset(old(bufqueue)))
      ensures old(AllSendable(bufqueue)) ==> (old(Linked()) <==> Linked())
    {
      assert bufqueue[0..] == bufqueue;
      DropFrom(0);
      assert ViewsOf(clients) == old(ViewsOf(clients));
    }

    /** Gives back the stream headers and the queue, and empties the table. */
    method ReleaseAll()
      requires Linked()
      modifies this`past, this`streamheader, this`handleHash, this`bufqueue
      ensures View() == Sink.ReleaseAll(old(View())) && (Linked() <==> clients == [])
    {
      DropHeaders();
      GiveUpTable();
      DropAll();
    }

    /** Removes the clients of an element that does not run any more. */
    method ClearStopped()
      requires Linked()
      modifies this`running, this`clients, this`clientsCookie, this`past, this`handleHash, clients
      ensures Linked() && View() == ClearFrom(old(View()), 0).(running := false)
    {
      ClearIgnoresRunning(View(), 0, false);
      Halt();
      Clear();
    }

    method Halt()
      requires Linked()
      modifies this`running
      ensures Linked() && View() == old(View()).(running := false)
    {
      running := false;
    }

    /** Stops: clients are removed, and the stream headers, the table and the queue are given up. A client whose removal
        is under way stays on the list, without an entry in the table. */
    method Stop()
      requires Linked()
      modifies this`running, this`clients, this`clientsCookie, this`past, this`streamheader, this`handleHash,
               this`bufqueue, clients
      ensures View() == Sink.Stop(old(View()))
      ensures Linked() <==> old(!running || Enabled(View(), StopE))
    {
      if !running {
        return;
      }
      WhoStaysListed(View());
      ClearStopped();
      ReleaseAll();
    }

    /** Does what an event about the clients asks for. */
    method PerformOnClients(e: Event)
      requires Linked() && CursorsInside(View())
      requires IsAboutClients(e)
      modifies this`handleHash, this`clients, this`clientsCookie, this`past, clients
      ensures Linked() && View() == Step(cfg, old(View()), e)
    {
      match e {
        case AddE(h) => Add(h);
        case AddFullE(h, sync, burst) => AddFull(h, sync, burst);
        case RemoveE(h, window) => Remove(h, window);
        case EndRemovalE(h) => EndRemoval(h);
        case RemoveFlushE(h) => RemoveFlush(h);
        case ClearE => Clear();
      }
    }

    /** Does what an event asks for. */
    method Perform(e: Event)
      requires Linked() && CursorsInside(View())
      requires e.CapsE? ==> CapsSendable(e.caps)
      requires e.RenderE? ==> e.buf.Sendable()
      modifies this, clients
      ensures View() == Step(cfg, old(View()), e) && (old(Enabled(View(), e)) ==> Linked())
    {
      match e {
        case CapsE(newCaps) => SetCaps(newCaps);
        case RenderE(buf) => Render(buf);
        case SocketE(h, cond, incoming, replies, window) =>
          var ret := SocketCondition(h, cond, incoming, replies, window);
        case StartE => Start();
        case StopE => Stop();
        case _ => PerformOnClients(e);
      }
    }

    /** Every event the element reacts to. Nothing but a stop while a removal is under way breaks the invariant. */
    method Dispatch(e: Event)
      requires Valid()
      requires e.CapsE? ==> CapsSendable(e.caps)
      requires e.RenderE? ==> e.buf.Sendable()
      modifies this, clients
      ensures CursorsInside(old(View())) && View() == Step(cfg, old(View()), e)
      ensures Valid() <==> old(Enabled(View(), e))
    {
      StepInv(cfg, View(), e);
      Perform(e);
    }
  }
}

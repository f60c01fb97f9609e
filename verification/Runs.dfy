/** Runs: any sequence of events from the initial state, and what holds after every one of them. */
module Runs {
  import opened Basics
  import opened Buffers
  import opened Limits
  import opened Positions
  import opened Clients
  import opened Headers
  import opened ClientSafety
  import opened WriteSafety
  import opened Sink
  import opened SinkSafety
  import opened QueueSafety

  lemma InitialInv(cfg: Config, caps: Caps)
    ensures Inv(cfg, Initial(caps))
  {
  }

  /** What holds after the operation an event stands for. */
  ghost predicate HoldsAfter(cfg: Config, s: SinkView, e: Event, holds: SinkView -> bool)
    requires CursorsInside(s)
  {
    match e
    case AddE(h) => holds(Add(cfg, s, h))
    case AddFullE(h, sync, burst) => holds(AddFull(s, h, sync, burst))
    case RemoveE(h, window) => holds(Remove(s, h, window))
    case EndRemovalE(h) => holds(EndRemoval(s, h))
    case RemoveFlushE(h) => holds(RemoveFlush(s, h))
    case ClearE => holds(ClearFrom(s, 0))
    case CapsE(caps) => holds(s.(caps := caps))
    case RenderE(buf) => holds(Render(cfg, s, buf))
    case SocketE(h, cond, incoming, replies, window) =>
      holds(SocketCondition(cfg, s, h, cond, incoming, replies, window))
    case StartE => holds(Sink.Start(s))
    case StopE => holds(Stop(s))
  }

  lemma ByEvent(cfg: Config, s: SinkView, e: Event, holds: SinkView -> bool)
    requires CursorsInside(s) && HoldsAfter(cfg, s, e, holds)
    ensures holds(Step(cfg, s, e))
  {
  }

  /** An event that changes who is listed, or how. */
  predicate IsAboutClients(e: Event) {
    e.AddE? || e.AddFullE? || e.RemoveE? || e.EndRemovalE? || e.RemoveFlushE? || e.ClearE?
  }

  lemma ClientsStepInv(cfg: Config, s: SinkView, e: Event)
    requires Inv(cfg, s) && CursorsInside(s) && IsAboutClients(e)
    ensures Inv(cfg, Step(cfg, s, e))
  {
    match e {
      case AddE(h) =>
        AddFullInv(cfg, s, h, cfg.defSync, BurstSpec(cfg.defBurstFormat, cfg.defBurstValue, cfg.defBurstFormat, UNSET));
      case AddFullE(h, sync, burst) => AddFullInv(cfg, s, h, sync, burst);
      case RemoveE(h, window) => RemoveInv(cfg, s, h, window);
      case EndRemovalE(h) => EndRemovalInv(cfg, s, h);
      case RemoveFlushE(h) => RemoveFlushInv(cfg, s, h);
      case ClearE => ClearInv(cfg, s, 0);
    }
    ByEvent(cfg, s, e, (t: SinkView) => Inv(cfg, t));
  }

  lemma OtherStepInv(cfg: Config, s: SinkView, e: Event)
    requires Inv(cfg, s) && CursorsInside(s) && !IsAboutClients(e) && e != StopE
    ensures Inv(cfg, Step(cfg, s, e))
  {
    match e {
      case CapsE(caps) => CapsInv(cfg, s, caps);
      case RenderE(buf) => RenderInv(cfg, s, buf);
      case SocketE(h, cond, incoming, replies, window) =>
        SocketConditionInv(cfg, s, h, cond, incoming, replies, window);
      case StartE => StartInv(cfg, s);
    }
    ByEvent(cfg, s, e, (t: SinkView) => Inv(cfg, t));
  }

  lemma StopStepInv(cfg: Config, s: SinkView)
    requires Inv(cfg, s) && CursorsInside(s)
    ensures Inv(cfg, Step(cfg, s, StopE)) <==> Enabled(s, StopE)
  {
    StopInv(cfg, s);
    ByEvent(cfg, s, StopE, (t: SinkView) => Inv(cfg, t) <==> Enabled(s, StopE));
  }

  /** Every step keeps the invariant, unless the element is stopped while a removal is under way. */
  lemma StepInv(cfg: Config, s: SinkView, e: Event)
    requires Inv(cfg, s)
    ensures CursorsInside(s) && (Inv(cfg, Step(cfg, s, e)) <==> Enabled(s, e))
  {
    InvCursors(cfg, s);
    if e == StopE {
      StopStepInv(cfg, s);
    } else if IsAboutClients(e) {
      ClientsStepInv(cfg, s, e);
    } else {
      OtherStepInv(cfg, s, e);
    }
  }

  lemma CapsInv(cfg: Config, s: SinkView, caps: Caps)
    requires Inv(cfg, s)
    ensures Inv(cfg, s.(caps := caps))
  {
  }

  /** The state after the events, in order; one that is not enabled does not take place. */
  ghost function Run(cfg: Config, s: SinkView, es: seq<Event>): SinkView
    requires Inv(cfg, s)
    decreases |es|
  {
    if es == [] then s
    else if !Enabled(s, es[0]) then Run(cfg, s, es[1..])
    else
      StepInv(cfg, s, es[0]);
      Run(cfg, Step(cfg, s, es[0]), es[1..])
  }

  lemma {:induction false} RunInv(cfg: Config, s: SinkView, es: seq<Event>)
    requires Inv(cfg, s)
    ensures Inv(cfg, Run(cfg, s, es))
    decreases |es|
  {
    if es != [] {
      if Enabled(s, es[0]) {
        StepInv(cfg, s, es[0]);
        RunInv(cfg, Step(cfg, s, es[0]), es[1..]);
      } else {
        RunInv(cfg, s, es[1..]);
      }
    }
  }

  /** What every step keeps that can take place, a run keeps. */
  lemma {:induction false} RunInduction(cfg: Config, s: SinkView, es: seq<Event>, keeps: SinkView -> bool)
    requires Inv(cfg, s) && keeps(s)
    requires forall t: SinkView, e: Event ::
               Inv(cfg, t) && Enabled(t, e) && keeps(t) ==> CursorsInside(t) && keeps(Step(cfg, t, e))
    ensures keeps(Run(cfg, s, es))
    decreases |es|
  {
    if es != [] {
      if Enabled(s, es[0]) {
        StepInv(cfg, s, es[0]);
        RunInduction(cfg, Step(cfg, s, es[0]), es[1..], keeps);
      } else {
        RunInduction(cfg, s, es[1..], keeps);
      }
    }
  }

  /** The state after a run from the initial state. */
  ghost function After(cfg: Config, caps: Caps, es: seq<Event>): SinkView {
    InitialInv(cfg, caps);
    Run(cfg, Initial(caps), es)
  }

  lemma AfterInv(cfg: Config, caps: Caps, es: seq<Event>)
    ensures Inv(cfg, After(cfg, caps, es))
  {
    InitialInv(cfg, caps);
    RunInv(cfg, Initial(caps), es);
  }

  lemma {:induction false} RunMore(cfg: Config, s: SinkView, es: seq<Event>, e: Event)
    requires Inv(cfg, s)
    ensures Inv(cfg, Run(cfg, s, es)) && CursorsInside(Run(cfg, s, es))
    ensures var r := Run(cfg, s, es); Run(cfg, s, es + [e]) == if Enabled(r, e) then Step(cfg, r, e) else r
    decreases |es|
  {
    var more := es + [e];
    if es == [] {
      InvCursors(cfg, s);
      if Enabled(s, e) {
        StepInv(cfg, s, e);
        assert Run(cfg, Step(cfg, s, e), more[1..]) == Step(cfg, s, e);
      }
    } else {
      assert more[0] == es[0] && more[1..] == es[1..] + [e];
      if Enabled(s, es[0]) {
        StepInv(cfg, s, es[0]);
        RunMore(cfg, Step(cfg, s, es[0]), es[1..], e);
      } else {
        RunMore(cfg, s, es[1..], e);
      }
    }
  }

  /** One more event takes a run one step further. */
  lemma AfterOneMore(cfg: Config, caps: Caps, es: seq<Event>, e: Event)
    requires e != StopE
    ensures Inv(cfg, After(cfg, caps, es)) && CursorsInside(After(cfg, caps, es))
    ensures After(cfg, caps, es + [e]) == Step(cfg, After(cfg, caps, es), e)
  {
    InitialInv(cfg, caps);
    RunMore(cfg, Initial(caps), es, e);
  }

  /** One more buffer, one more client, one more socket event. */
  lemma AfterRender(cfg: Config, caps: Caps, es: seq<Event>, b: Buffer)
    ensures Inv(cfg, After(cfg, caps, es)) && CursorsInside(After(cfg, caps, es))
    ensures After(cfg, caps, es + [RenderE(b)]) == Render(cfg, After(cfg, caps, es), b)
  {
    AfterOneMore(cfg, caps, es, RenderE(b));
  }

  lemma AfterAdd(cfg: Config, caps: Caps, es: seq<Event>, h: Handle)
    ensures Inv(cfg, After(cfg, caps, es)) && CursorsInside(After(cfg, caps, es))
    ensures After(cfg, caps, es + [AddE(h)]) == Add(cfg, After(cfg, caps, es), h)
  {
    AfterOneMore(cfg, caps, es, AddE(h));
  }

  lemma AfterSocket(cfg: Config, caps: Caps, es: seq<Event>, h: Handle, cond: Condition,
                    incoming: seq<ReadReply>, replies: seq<Reply>)
    ensures Inv(cfg, After(cfg, caps, es)) && CursorsInside(After(cfg, caps, es))
    ensures After(cfg, caps, es + [SocketE(h, cond, incoming, replies, false)])
            == SocketCondition(cfg, After(cfg, caps, es), h, cond, incoming, replies, false)
  {
    AfterOneMore(cfg, caps, es, SocketE(h, cond, incoming, replies, false));
  }

  // ---- Index safety ----

  /** Whatever happened, each cursor is -1 or points into the queue, which holds the newest buffers of the stream. */
  lemma CursorsStayInside(cfg: Config, caps: Caps, es: seq<Event>)
    ensures var s := After(cfg, caps, es);
            && (forall i :: 0 <= i < |s.clients| ==> -1 <= s.clients[i].bufpos < |s.queue|)
            && |s.queue| <= |s.past.stream|
            && (forall p :: 0 <= p < |s.queue| ==> s.queue[p] == s.past.stream[|s.past.stream| - 1 - p])
  {
    AfterInv(cfg, caps, es);
    var s := After(cfg, caps, es);
    assert forall i :: 0 <= i < |s.clients| ==> CursorInside(s.clients[i], s.queue);
  }

  // ---- Delivery ----

  /** A client is or was in the sink: it is listed, or it has left. */
  ghost predicate Known(s: SinkView, c: ClientView) { c in s.clients || c in s.past.gone }

  /** What is recorded of a client stays true when it has left. */
  lemma EverybodyIsRecorded(cfg: Config, s: SinkView, c: ClientView)
    requires Inv(cfg, s) && Known(s, c)
    ensures c in s.past.gone ==> c.removing
    ensures c.removing ==> Settled(c, s.past.stream, cfg.resend)
    ensures !c.removing ==> Sound(c, Total(s), s.past.stream, cfg.resend)
    ensures Recorded(c, s.past.stream, cfg.resend)
  {
    if c in s.past.gone {
      var i :| 0 <= i < |s.past.gone| && s.past.gone[i] == c;
    } else {
      var i :| 0 <= i < |s.clients| && s.clients[i] == c;
      assert Fit(s.clients[i], s.queue, s.past.stream, cfg.resend);
    }
  }

  /** Whatever the sockets replied: what a client received is a prefix of what was queued to it, and for a client that
      is not leaving the rest is on its sending list; its data buffers are those of the stream that its log names. */
  lemma DeliveryIsExact(cfg: Config, caps: Caps, es: seq<Event>, c: ClientView)
    requires Known(After(cfg, caps, es), c)
    ensures var stream := After(cfg, caps, es).past.stream;
            && c.trail.wire <= BytesOf(BuffersOf(c.trail.items))
            && c.bytesSent == |c.trail.wire|
            && |DataOf(c.trail.items)| == |c.trail.log|
            && (forall k :: 0 <= k < |c.trail.log| ==>
                  0 <= c.trail.log[k] < |stream| && DataOf(c.trail.items)[k] == stream[c.trail.log[k]])
    ensures !c.removing ==>
              && c.bufoffset <= |BytesOf(c.sending)|
              && c.trail.wire + BytesOf(c.sending)[c.bufoffset..] == BytesOf(BuffersOf(c.trail.items))
  {
    AfterInv(cfg, caps, es);
    EverybodyIsRecorded(cfg, After(cfg, caps, es), c);
  }

  /** The bytes served are those sent, since the last start, to all clients there were since then. */
  lemma ServedIsSent(cfg: Config, caps: Caps, es: seq<Event>)
    ensures var s := After(cfg, caps, es);
            && s.past.goneBefore <= |s.past.gone|
            && s.bytesServed == Sent(s.clients) + Sent(s.past.gone[s.past.goneBefore..])
  {
    AfterInv(cfg, caps, es);
  }

  // ---- References ----

  /** References on the sending lists. */
  function Held(cs: seq<ClientView>): multiset<Buffer> {
    if cs == [] then multiset{} else multiset(cs[0].sending) + Held(cs[1..])
  }

  /** References the clients of a list took and gave back. */
  function TakenBy(cs: seq<ClientView>): multiset<Buffer> {
    if cs == [] then multiset{} else cs[0].trail.taken + TakenBy(cs[1..])
  }

  function ReleasedBy(cs: seq<ClientView>): multiset<Buffer> {
    if cs == [] then multiset{} else cs[0].trail.released + ReleasedBy(cs[1..])
  }

  lemma {:induction false} HeldAdds(cs: seq<ClientView>)
    requires forall i :: 0 <= i < |cs| ==> RefsBalance(cs[i])
    ensures TakenBy(cs) == ReleasedBy(cs) + Held(cs)
  {
    if cs != [] {
      HeldAdds(cs[1..]);
      assert RefsBalance(cs[0]);
    }
  }

  lemma {:induction false} GoneHoldNothing(cs: seq<ClientView>)
    requires forall i :: 0 <= i < |cs| ==> cs[i].sending == []
    ensures Held(cs) == multiset{}
  {
    if cs != [] {
      GoneHoldNothing(cs[1..]);
    }
  }

  /** What clients took and did not give back is on the sending lists of those listed. */
  lemma HeldByClients(cfg: Config, s: SinkView)
    requires Inv(cfg, s)
    ensures TakenBy(s.clients) + TakenBy(s.past.gone)
            == ReleasedBy(s.clients) + ReleasedBy(s.past.gone) + Held(s.clients)
  {
    forall i | 0 <= i < |s.clients|
      ensures RefsBalance(s.clients[i])
    {
      assert Fit(s.clients[i], s.queue, s.past.stream, cfg.resend);
    }
    HeldAdds(s.clients);
    HeldAdds(s.past.gone);
    GoneHoldNothing(s.past.gone);
  }

  lemma AddUp(taken: multiset<Buffer>, released: multiset<Buffer>, queue: multiset<Buffer>, headers: multiset<Buffer>,
              took: multiset<Buffer>, tookGone: multiset<Buffer>, gave: multiset<Buffer>, gaveGone: multiset<Buffer>,
              held: multiset<Buffer>)
    requires taken == released + queue + headers && took + tookGone == gave + gaveGone + held
    ensures taken + took + tookGone == released + gave + gaveGone + queue + headers + held
  {
    assert taken + took + tookGone == taken + (took + tookGone);
  }

  /** At every moment the references taken but not given back are those of the queue, of the stream headers and of
      the sending lists; once the element is stopped none is left. */
  lemma ReferencesBalance(cfg: Config, caps: Caps, es: seq<Event>)
    ensures var s := After(cfg, caps, es);
            var taken := s.past.taken + TakenBy(s.clients) + TakenBy(s.past.gone);
            var released := s.past.released + ReleasedBy(s.clients) + ReleasedBy(s.past.gone);
            && taken == released + multiset(s.queue) + multiset(s.streamheader) + Held(s.clients)
            && (!s.running ==> taken == released)
  {
    AfterInv(cfg, caps, es);
    var s := After(cfg, caps, es);
    HeldByClients(cfg, s);
    AddUp(s.past.taken, s.past.released, multiset(s.queue), multiset(s.streamheader), TakenBy(s.clients),
          TakenBy(s.past.gone), ReleasedBy(s.clients), ReleasedBy(s.past.gone), Held(s.clients));
    if !s.running {
      assert s.queue == [] && s.streamheader == [] && Held(s.clients) == multiset{};
    }
  }

  // ---- Wakeups, the table and headers ----

  /** A client that may still send but is not watched has nothing to send and waits for the next buffer. */
  lemma NoLostWakeup(cfg: Config, caps: Caps, es: seq<Event>, i: nat)
    requires i < |After(cfg, caps, es).clients|
    ensures var c := After(cfg, caps, es).clients[i];
            !c.removing ==> Active(c) && (!c.source ==> c.sending == [] && c.bufpos == -1)
  {
    AfterInv(cfg, caps, es);
    var s := After(cfg, caps, es);
    assert Sound(s.clients[i], Total(s), s.past.stream, cfg.resend);
  }

  /** The table and the list hold the same handles, none of them twice. */
  lemma TableMatchesList(cfg: Config, caps: Caps, es: seq<Event>)
    ensures var s := After(cfg, caps, es);
            && (forall i, j :: 0 <= i < j < |s.clients| ==> s.clients[i].handle != s.clients[j].handle)
            && s.handles == set c | c in s.clients :: c.handle
  {
    AfterInv(cfg, caps, es);
    var s := After(cfg, caps, es);
    forall h | h in s.handles
      ensures exists c :: c in s.clients && c.handle == h
    {
      var c := s.clients[IndexOf(s.clients, h)];
      assert c in s.clients && c.handle == h;
    }
  }

  lemma ItemsAreLaidOut(cfg: Config, caps: Caps, es: seq<Event>, c: ClientView)
    requires Known(After(cfg, caps, es), c)
    ensures LaidOut(c.trail.items, cfg.resend)
  {
    AfterInv(cfg, caps, es);
    EverybodyIsRecorded(cfg, After(cfg, caps, es), c);
  }

  /** Over every run, for a buffer queued to a client, listed or gone, under caps with headers: some headers were sent
      before, and its own are in force exactly if they are those of the first buffer behind the last headers sent. They
      are unless changed headers have been held back since, and always if changed headers are sent again. */
  lemma HeadersInForceIff(cfg: Config, caps: Caps, es: seq<Event>, c: ClientView, k: nat)
    requires Known(After(cfg, caps, es), c) && k < |c.trail.items|
    requires c.trail.items[k].Data? && c.trail.items[k].caps.header != None
    ensures var items := c.trail.items;
            var j := BlockBefore(items, k);
            && 0 <= j && items[j + 1].Data?
            && (LastBlock(items[..k]) == items[k].caps.header <==> items[j + 1].caps.header == items[k].caps.header)
            && (LastBlock(items[..k]) == items[k].caps.header || exists m :: j + 1 < m <= k && HeldBackAt(items, m))
            && (cfg.resend ==> LastBlock(items[..k]) == items[k].caps.header)
  {
    ItemsAreLaidOut(cfg, caps, es, c);
    InForceIff(c.trail.items, k, cfg.resend);
  }

  /** With headers sent again on change, each data buffer queued to a client, whether it is still listed or has left,
      follows the headers its caps carry. */
  lemma HeadersPrecedeData(cfg: Config, caps: Caps, es: seq<Event>, c: ClientView, k: nat)
    requires cfg.resend && k < |c.trail.items|
    requires Known(After(cfg, caps, es), c)
    ensures var items := c.trail.items;
            items[k].Data? && items[k].caps.header != None ==> LastBlock(items[..k]) == items[k].caps.header
  {
    var items := c.trail.items;
    if items[k].Data? && items[k].caps.header != None {
      HeadersInForceIff(cfg, caps, es, c, k);
    }
  }

  // ---- Stream numbers ----

  /** Where a client is, or, if its removal has begun, where it was given up. */
  function LastMark(c: ClientView, total: nat): Mark { if c.removing then c.trail.end else MarkNow(c, total) }

  lemma NumbersOfEverybody(cfg: Config, s: SinkView, c: ClientView)
    requires Inv(cfg, s) && Known(s, c)
    ensures NumbersAt(c, LastMark(c, Total(s))) && KeyframeFirst(c, s.past.stream) && FlushDelivered(c)
  {
    EverybodyIsRecorded(cfg, s, c);
  }

  /** A client that was added with a keyframe method and has been given a start position, rather than being flushed
      before, received a sync frame first; also if it has left by now. */
  lemma KeyframeIsFirst(cfg: Config, caps: Caps, es: seq<Event>, c: ClientView)
    requires Known(After(cfg, caps, es), c) && StartsOnKeyframe(c.trail.added) && !c.newConnection
    ensures var stream := After(cfg, caps, es).past.stream;
            c.trail.log != [] && 0 <= c.trail.log[0] < |stream| && stream[c.trail.log[0]].IsSync()
  {
    AfterInv(cfg, caps, es);
    NumbersOfEverybody(cfg, After(cfg, caps, es), c);
  }

  /** A client whose flush has begun picked no more than the buffers counted then, and, unless a recovery or an excess
      visit moved its cursor, exactly the first of them, in order, and none that arrived later. When its flush has
      ended it picked as many as were counted, and everything queued to it is on its wire. */
  lemma FlushPicksWhatWasCounted(cfg: Config, caps: Caps, es: seq<Event>, c: ClientView)
    requires Known(After(cfg, caps, es), c) && c.flushcount != -1
    ensures var m, now := c.trail.flush, LastMark(c, Total(After(cfg, caps, es)));
            && 0 <= |c.trail.log| - m.picked <= c.trail.flushTo - m.next
            && c.flushcount == (c.trail.flushTo - m.next) - (|c.trail.log| - m.picked)
            && (now.dropped == m.dropped && now.extra == m.extra ==>
                  && now.next + c.flushcount == c.trail.flushTo
                  && forall k :: m.picked <= k < |c.trail.log| ==>
                       c.trail.log[k] == m.next + (k - m.picked) < c.trail.flushTo)
    ensures c.trail.flushed ==>
              && |c.trail.log| - c.trail.flush.picked == c.trail.flushTo - c.trail.flush.next
              && c.trail.wire == BytesOf(BuffersOf(c.trail.items))
  {
    AfterInv(cfg, caps, es);
    NumbersOfEverybody(cfg, After(cfg, caps, es), c);
  }
}

/** A client as an object whose fields the sink updates in place. */
module SocketClients {
  import opened Basics
  import opened Buffers
  import opened Limits
  import opened Vectors
  import opened Positions
  import opened Clients
  import opened Sink
  import opened WriteSafety

  /** What the first half of a round of the write loop comes to. */
  datatype Outcome = MustWait | HasFlushed | HasBuffer

  /** A keyframe within the burst limits, else the last one before the minimum, else -1. */
  method BurstKeyframePosition(q: seq<Buffer>, burst: BurstSpec) returns (result: int)
    requires |q| > 0
    ensures forall bufpos :: 0 <= bufpos < |q| ==> result == NewPosition(q, bufpos, BurstKeyframe, burst).position
  {
    var minIdx, maxIdx, ok := CountBurstUnit(q, burst);
    result := FindSyncFrame(q, minIdx, 1);
    if result == -1 || result >= maxIdx {
      result := FindSyncFrame(q, minIdx, -1);
    }
  }

  /** The burst minimum, kept below the maximum. */
  method BurstPosition(q: seq<Buffer>, burst: BurstSpec) returns (result: int)
    requires |q| > 0
    ensures forall bufpos :: 0 <= bufpos < |q| ==> result == NewPosition(q, bufpos, Burst, burst).position
  {
    var minIdx, maxIdx, ok := CountBurstUnit(q, burst);
    result := if maxIdx <= minIdx then Max(maxIdx - 1, 0) else minIdx;
  }

  /** A keyframe within the burst limits, else the burst minimum. */
  method BurstWithKeyframePosition(q: seq<Buffer>, burst: BurstSpec) returns (result: int)
    requires |q| > 0
    ensures forall bufpos :: 0 <= bufpos < |q| ==> result == NewPosition(q, bufpos, BurstWithKeyframe, burst).position
  {
    var minIdx, maxIdx, ok := CountBurstUnit(q, burst);
    result := FindSyncFrame(q, minIdx, 1);
    if result == -1 || result >= maxIdx {
      result := if maxIdx <= minIdx then Max(maxIdx - 1, 0) else minIdx;
    }
  }

  /** One send call: the vectors of the buffer are offered, and the socket takes as many bytes as it likes. */
  method WriteBuffer(buffer: Buffer, offset: nat, reply: Reply) returns (wrote: int, ghost sent: seq<byte>)
    requires buffer.Sendable() && offset < buffer.Size()
    ensures reply.Accepts? ==> wrote == Min(reply.bytes, |Offer(buffer.mems, offset, MAX_VECTORS)|)
                               && 0 <= wrote <= buffer.Size() - offset
                               && sent == buffer.bytes[offset..offset + wrote]
    ensures !reply.Accepts? ==> wrote == -1
  {
    var vectors := new seq<byte>[MAX_VECTORS];
    var mapped := MapMemories(buffer, offset, vectors);
    ghost var offer := Offer(buffer.mems, offset, MAX_VECTORS);
    assert Flatten(vectors[..mapped]) == offer;
    if !reply.Accepts? {
      return -1, [];
    }
    var offered, i := 0, 0;
    while i < mapped
      invariant 0 <= i <= mapped && offered == |Flatten(vectors[..i])|
      invariant Flatten(vectors[..mapped]) == offer
    {
      FlattenAppend(vectors[..i], [vectors[i]]);
      FlattenOne(vectors[i]);
      assert vectors[..i + 1] == vectors[..i] + [vectors[i]];
      offered := offered + |vectors[i]|;
      i := i + 1;
    }
    assert vectors[..i] == vectors[..mapped];
    assert offered == |offer|;
    wrote := Min(reply.bytes, offered);
    sent := Flatten(vectors[..mapped])[..wrote];
  }

  class SocketClient {
    const handle: Handle
    var status: Status
    var bufpos: int
    var flushcount: int
    var sending: seq<Buffer>
    var bufoffset: nat
    var discont: bool
    var newConnection: bool
    var currentlyRemoving: bool
    var syncMethod: SyncMethod
    var burst: BurstSpec
    var caps: Option<Caps>
    var source: bool
    var bytesSent: nat
    var droppedBuffers: int
    var firstBufferTs: int
    var lastBufferTs: int
    ghost var trail: Trail

    ghost function View(): ClientView
      reads this
    {
      ClientView(handle, status, bufpos, flushcount, sending, bufoffset, discont, newConnection, currentlyRemoving,
                 syncMethod, burst, caps, source, bytesSent, droppedBuffers, firstBufferTs, lastBufferTs, trail)
    }

    /** Every buffer on the sending list can be sent, and the first one has bytes left. */
    ghost predicate CanSend()
      reads this
    {
      AllSendable(sending) && (sending != [] ==> bufoffset < sending[0].Size())
    }

    constructor (handle: Handle, sync: SyncMethod, burst: BurstSpec, ghost total: nat)
      ensures View() == NewClient(handle, sync, burst, total)
    {
      this.handle := handle;
      status, bufpos, flushcount, sending, bufoffset := Ok, -1, -1, [], 0;
      bytesSent, droppedBuffers, firstBufferTs, lastBufferTs := 0, 0, NO_TIME, NO_TIME;
      newConnection, syncMethod, currentlyRemoving, discont := true, sync, false, false;
      caps, source := None, true;
      this.burst := burst;
      var mark := Mark(total, 0, 0, 0);
      trail := Trail([], [], [], total, multiset{}, multiset{}, 0, mark, mark, total, sync, false, mark);
    }

    method Watch()
      modifies this`source
      ensures View() == old(View()).(source := true)
    {
      source := true;
    }

    /** Takes the number of buffers up to the cursor as the number left to flush. */
    method StartFlush(ghost total: nat)
      modifies this`flushcount, this`status, this`trail
      ensures View() == BeginFlush(old(View()), total)
    {
      trail := trail.(flush := MarkNow(View(), total), flushTo := total);
      flushcount := bufpos + 1;
      status := Flushing;
    }

    /** Stops watching the client and gives back what is on its sending list. */
    method Release(ghost total: nat)
      modifies this`currentlyRemoving, this`source, this`trail, this`sending, this`caps
      ensures View() == BeginRemoval(old(View()), total) && sending == []
    {
      ghost var r := BeginRemoval(View(), total);
      trail := trail.(released := trail.released + multiset(sending), end := EndOf(View(), total));
      assert trail == r.trail;
      currentlyRemoving := true;
      source := false;
      sending := [];
      caps := None;
    }

    /** The cursor after recovery; the client itself is not moved. */
    method RecoverClient(q: seq<Buffer>, policy: Policy, format: Format, softMax: int) returns (newbufpos: int)
      requires |q| > 0 && 0 < BuffersMax(format, q, softMax) <= bufpos
      ensures newbufpos == Recover(policy, q, BuffersMax(format, q, softMax), bufpos)
    {
      match policy {
        case NoRecovery =>
          newbufpos := bufpos;
        case ResyncLatest =>
          newbufpos := -1;
        case ResyncSoftLimit =>
          newbufpos := GetBuffersMax(format, q, softMax);
        case ResyncKeyframe =>
          var soft := GetBuffersMax(format, q, softMax);
          newbufpos := Min(|q| - 1, soft - 1);
          ghost var from := newbufpos;
          while newbufpos >= 0
            invariant -1 <= newbufpos <= from && PrevSync(q, newbufpos) == PrevSync(q, from)
          {
            if q[newbufpos].IsSync() {
              break;
            }
            newbufpos := newbufpos - 1;
          }
      }
    }

    /** Moves the cursor, and counts the buffers skipped as dropped. */
    method MoveTo(newpos: int)
      modifies this`bufpos, this`droppedBuffers, this`discont
      ensures View() == MovedTo(old(View()), newpos)
    {
      if newpos != bufpos {
        droppedBuffers := droppedBuffers + bufpos - newpos;
        bufpos := newpos;
        discont := true;
      }
    }

    method Arrive()
      modifies this`bufpos, this`trail
      ensures View() == Arrived(old(View()))
    {
      bufpos := bufpos + 1;
      trail := trail.(visits := trail.visits + 1);
    }

    /** The cursor after one more buffer; a client that passes the soft limit is recovered. */
    method AdvanceCursor(q: seq<Buffer>, cfg: Config, softMaxBuffers: int)
      requires |q| > 0 && softMaxBuffers == LimitOf(cfg, q).soft
      modifies this`bufpos, this`trail, this`droppedBuffers, this`discont
      ensures View() == Advance(old(View()), LimitOf(cfg, q))
    {
      Arrive();
      if softMaxBuffers > 0 && bufpos >= softMaxBuffers {
        var newpos := RecoverClient(q, cfg.policy, cfg.unitFormat, cfg.unitsSoftMax);
        MoveTo(newpos);
      }
    }

    /** One visit of a queueing pass: the client is given up if it lags too far, and woken if it can be sent to. */
    method VisitBy(q: seq<Buffer>, cfg: Config, softMaxBuffers: int, maxBuffers: int, ghost total: nat)
      returns (tooSlow: bool)
      requires |q| > 0 && softMaxBuffers == LimitOf(cfg, q).soft && maxBuffers == LimitOf(cfg, q).hard
      modifies this`bufpos, this`trail, this`droppedBuffers, this`discont, this`status, this`source
      ensures var c := Advance(old(View()), LimitOf(cfg, q));
              tooSlow == TooSlow(c, LimitOf(cfg, q)) && View() == if tooSlow then Evicted(c, total) else Woken(c)
    {
      AdvanceCursor(q, cfg, softMaxBuffers);
      tooSlow := maxBuffers > 0 && bufpos >= maxBuffers;
      if tooSlow {
        if !currentlyRemoving {
          trail := trail.(end := MarkNow(View(), total));
        }
        status := Slow;
        bufpos := -1;
      } else if bufpos == 0 || newConnection {
        source := true;
      }
    }

    /** Decides where in the queue a client that has not received anything starts; -1 if it has to wait. */
    method NewClientPosition(q: seq<Buffer>) returns (result: int)
      requires 0 <= bufpos < |q|
      modifies this`bufpos, this`syncMethod
      ensures var p := NewPosition(q, old(bufpos), old(syncMethod), burst);
              result == p.position && View() == old(View()).(bufpos := p.bufpos, sync := p.sync)
    {
      match syncMethod {
        case Latest =>
          result := bufpos;
        case NextKeyframe =>
          result := FindSyncFrame(q, bufpos, -1);
          if result == -1 {
            bufpos := -1;
          }
        case LatestKeyframe =>
          result := FindSyncFrame(q, 0, 1);
          if result == -1 {
            bufpos := -1;
            syncMethod := NextKeyframe;
          }
        case Burst =>
          result := BurstPosition(q, burst);
        case BurstKeyframe =>
          result := BurstKeyframePosition(q, burst);
          if result == -1 {
            bufpos := -1;
            syncMethod := NextKeyframe;
          }
        case BurstWithKeyframe =>
          result := BurstWithKeyframePosition(q, burst);
      }
      assert View() == old(View()).(bufpos := bufpos, sync := syncMethod);
    }

    /** Whether the stream headers of the current caps have to be sent before the next buffer. */
    method NeedsStreamheader(current: Caps, resend: bool) returns (send: bool)
      ensures send <==> HeadersDue(caps, current, resend) != None
      ensures send ==> HeadersDue(caps, current, resend) == current.header
    {
      send := false;
      if caps == None {
        send := true;
      } else if current != caps.value && current.header != None {
        if caps.value.header == None {
          send := true;
        } else if resend && caps.value.header != current.header {
          send := true;
        }
      }
      send := send && current.header != None;
    }

    method AppendHeaders(headers: seq<Buffer>)
      requires AllSendable(sending) && AllSendable(headers)
      modifies this`sending
      ensures sending == old(sending) + headers && AllSendable(sending)
    {
      var i := 0;
      while i < |headers|
        invariant 0 <= i <= |headers| && sending == old(sending) + headers[..i] && AllSendable(sending)
      {
        sending := sending + [headers[i]];
        i := i + 1;
      }
      assert headers[..i] == headers;
    }

    /** Puts the current stream headers on the sending list, if they have to be sent. */
    method QueueHeaders(current: Caps, resend: bool)
      requires CapsSendable(current) && AllSendable(sending)
      modifies this`sending, this`caps
      ensures caps == Some(current) && AllSendable(sending)
      ensures sending == old(sending) + HeadersToSend(old(caps), current, resend)
    {
      var sendStreamheader := NeedsStreamheader(current, resend);
      caps := Some(current);
      if sendStreamheader {
        AppendHeaders(current.header.value);
      }
    }

    /** Puts `buffer` on the sending list, behind the stream headers if they have to be sent first. */
    method ClientQueueBuffer(buffer: Buffer, current: Caps, resend: bool)
      requires buffer.Sendable() && CapsSendable(current) && AllSendable(sending)
      modifies this`sending, this`caps, this`trail
      ensures View() == QueueTo(old(View()), buffer, current, resend)
      ensures AllSendable(sending)
    {
      ghost var more := NewItems(caps, buffer, current, resend);
      QueueHeaders(current, resend);
      sending := sending + [buffer];
      trail := trail.(items := trail.items + more, taken := trail.taken + multiset(BuffersOf(more)));
      assert sending == old(sending) + BuffersOf(more);
    }

    /** The client's record of the buffer it is about to take. */
    static ghost function Counted(c: ClientView, buf: Buffer, total: nat): ClientView {
      c.(bufpos := c.bufpos - 1,
         firstTs := if c.firstTs == NO_TIME then buf.ts else c.firstTs,
         lastTs := if buf.ts != NO_TIME then buf.ts else c.lastTs,
         flushcount := if c.flushcount != -1 then c.flushcount - 1 else c.flushcount,
         trail := c.trail.(log := c.trail.log + [Next(c, total)]))
    }

    method NoteTimestamp(ts: Timestamp)
      modifies this`firstBufferTs, this`lastBufferTs
      ensures var c := old(View());
              View() == c.(firstTs := if c.firstTs == NO_TIME then ts else c.firstTs,
                           lastTs := if ts != NO_TIME then ts else c.lastTs)
    {
      if firstBufferTs == NO_TIME {
        firstBufferTs := ts;
      }
      if ts != NO_TIME {
        lastBufferTs := ts;
      }
    }

    method CountBuffer(buf: Buffer, ghost total: nat)
      modifies this`bufpos, this`firstBufferTs, this`lastBufferTs, this`flushcount, this`trail
      ensures View() == Counted(old(View()), buf, total)
    {
      trail := trail.(log := trail.log + [Next(View(), total)]);
      bufpos := bufpos - 1;
      NoteTimestamp(buf.ts);
      if flushcount != -1 {
        flushcount := flushcount - 1;
      }
    }

    /** Takes the buffer under the cursor. */
    method TakeBuffer(q: seq<Buffer>, current: Caps, resend: bool, ghost sc: Scene)
      requires 0 <= bufpos < |q| && AllSendable(q) && AllSendable(sending) && CapsSendable(current)
      requires sc.queue == q && sc.caps == current && sc.resend == resend
      modifies this`bufpos, this`firstBufferTs, this`lastBufferTs, this`flushcount, this`sending, this`caps, this`trail,
               this`bufoffset
      ensures View() == Pick(old(View()), sc) && AllSendable(sending)
    {
      var buf := q[bufpos];
      CountBuffer(buf, sc.total);
      ClientQueueBuffer(buf, current, resend);
      bufoffset := 0;
      assert View() == QueueTo(Counted(old(View()), buf, sc.total), buf, current, resend).(bufoffset := 0);
    }

    /** Puts a new client at its start position, or stops watching it until there is one. */
    method PlaceNew(q: seq<Buffer>, ghost total: nat) returns (placed: bool)
      requires 0 <= bufpos < |q|
      modifies this`bufpos, this`syncMethod, this`source, this`newConnection, this`trail
      ensures var p := NewPosition(q, old(bufpos), old(syncMethod), burst);
              var c := old(View()).(bufpos := p.bufpos, sync := p.sync);
              && placed == (p.position >= 0)
              && View() == if placed then StartAt(c, p.position, total) else c.(source := false)
    {
      var position := NewClientPosition(q);
      if position < 0 {
        source := false;
        return false;
      }
      StartHere(position, total);
      return true;
    }

    method StartHere(position: int, ghost total: nat)
      modifies this`bufpos, this`newConnection, this`trail
      ensures View() == StartAt(old(View()), position, total)
    {
      newConnection := false;
      bufpos := position;
      trail := trail.(start := MarkNow(View(), total));
    }

    static ghost function ReadyOf(outcome: Outcome, c: ClientView): Ready {
      match outcome
      case MustWait => Wait(c)
      case HasFlushed => Flushed(c)
      case HasBuffer => Loaded(c)
    }

    /** Takes the buffer under the cursor, unless everything has been flushed. */
    method TakeUnlessFlushed(q: seq<Buffer>, current: Caps, resend: bool, ghost sc: Scene) returns (outcome: Outcome)
      requires 0 <= bufpos < |q| && AllSendable(q) && sending == [] && CapsSendable(current)
      requires sc.queue == q && sc.caps == current && sc.resend == resend
      modifies this`bufpos, this`firstBufferTs, this`lastBufferTs, this`flushcount, this`sending, this`caps, this`trail,
               this`bufoffset
      ensures CanSend() && ReadyOf(outcome, View()) == PickUnlessFlushed(old(View()), sc)
    {
      if flushcount == 0 {
        return HasFlushed;
      }
      TakeBuffer(q, current, resend, sc);
      return HasBuffer;
    }

    /** The first half of a round of the write loop: makes sure there is a buffer to send. */
    method LoadBuffer(q: seq<Buffer>, current: Caps, resend: bool, flushing: bool, ghost sc: Scene)
      returns (outcome: Outcome)
      requires CursorInside(View(), q) && OffsetInside(View()) && flushing == (status == Flushing)
      requires AllSendable(q) && CanSend() && CapsSendable(current)
      requires sc.queue == q && sc.caps == current && sc.resend == resend
      modifies this
      ensures CanSend() && ReadyOf(outcome, View()) == Load(old(View()), sc)
    {
      if sending != [] {
        return HasBuffer;
      }
      if bufpos == -1 {
        source := false;
        return if flushcount == 0 then HasFlushed else MustWait;
      }
      if newConnection && !flushing {
        var placed := PlaceNew(q, sc.total);
        if !placed {
          return MustWait;
        }
      }
      outcome := TakeUnlessFlushed(q, current, resend, sc);
    }

    /** The first buffer on the sending list has been sent completely. */
    method DropHead()
      requires CanSend() && sending != []
      modifies this`sending, this`bufoffset, this`trail
      ensures View() == WithoutHead(old(View())) && CanSend()
    {
      var buf := sending[0];
      sending := sending[1..];
      trail := trail.(released := trail.released + multiset{buf});
      bufoffset := 0;
    }

    /** The socket has taken `wrote` bytes of the first buffer on the sending list. */
    method FinishSend(wrote: nat, ghost sent: seq<byte>)
      requires CanSend() && sending != [] && bufoffset + wrote <= sending[0].Size()
      requires sent == sending[0].bytes[bufoffset..bufoffset + wrote]
      modifies this`sending, this`bufoffset, this`bytesSent, this`trail
      ensures View() == AfterSend(old(View()), wrote) && CanSend()
    {
      if wrote < sending[0].Size() - bufoffset {
        bufoffset := bufoffset + wrote;
      } else {
        DropHead();
      }
      NoteSent(wrote, sent);
    }

    method NoteSent(wrote: nat, ghost sent: seq<byte>)
      modifies this`bytesSent, this`trail
      ensures View() == old(View()).(bytesSent := old(bytesSent) + wrote,
                                     trail := old(trail).(wire := old(trail).wire + sent))
    {
      bytesSent := bytesSent + wrote;
      trail := trail.(wire := trail.wire + sent);
    }

    /** The second half of a round: one send call, after which the loop goes on only if the socket took the bytes. */
    method SendHead(reply: Reply) returns (more: bool, stays: bool, wrote: nat)
      requires CanSend() && sending != [] && OffsetInside(View())
      modifies this`sending, this`bufoffset, this`bytesSent, this`trail, this`status
      ensures CanSend() && bytesSent == old(bytesSent) + wrote && (more ==> status == old(status))
      ensures Answer(old(View()), reply) == if more then Goes(View()) else Ends(Written(View(), stays))
    {
      var n: int;
      ghost var sent: seq<byte>;
      n, sent := WriteBuffer(sending[0], bufoffset, reply);
      match reply {
        case WouldBlock =>
          return false, true, 0;
        case Reset =>
          status := Closed;
          return false, false, 0;
        case Broken =>
          status := Failed;
          return false, false, 0;
        case Accepts(k) =>
          FinishSend(n, sent);
          return true, true, n;
      }
    }

    /** One round of the write loop: loads a buffer and offers it to the socket. */
    method WriteRound(q: seq<Buffer>, current: Caps, resend: bool, flushing: bool, reply: Option<Reply>,
                      ghost sc: Scene)
      returns (more: bool, stays: bool, wrote: nat)
      requires CursorInside(View(), q) && OffsetInside(View()) && CanSend() && flushing == (status == Flushing)
      requires AllSendable(q) && CapsSendable(current) && sc.queue == q && sc.caps == current && sc.resend == resend
      modifies this
      ensures CanSend() && bytesSent == old(bytesSent) + wrote && (more ==> status == old(status))
      ensures Round(old(View()), sc, reply) == if more then Goes(View()) else Ends(Written(View(), stays))
    {
      LoadCounts(View(), sc);
      var outcome := LoadBuffer(q, current, resend, flushing, sc);
      if outcome == HasFlushed {
        status := Removed;
        trail := trail.(flushed := true);
        return false, false, 0;
      }
      if outcome == MustWait || reply == None {
        return false, true, 0;
      }
      more, stays, wrote := SendHead(reply.value);
    }

    /** The write loop: goes on as long as the socket takes bytes. */
    method HandleWrite(q: seq<Buffer>, current: Caps, resend: bool, replies: seq<Reply>, ghost sc: Scene)
      returns (stays: bool, served: nat)
      requires CursorInside(View(), q) && OffsetInside(View()) && CanSend()
      requires AllSendable(q) && CapsSendable(current) && sc.queue == q && sc.caps == current && sc.resend == resend
      modifies this
      ensures CanSend() && bytesSent == old(bytesSent) + served
      ensures Written(View(), stays) == Write(old(View()), sc, replies)
    {
      var flushing := status == Flushing;
      var left, more := replies, true;
      stays, served := true, 0;
      ghost var whole := Write(View(), sc, replies);
      while more
        invariant more ==> flushing == (status == Flushing) && CursorInside(View(), q) && OffsetInside(View())
        invariant CanSend() && bytesSent == old(bytesSent) + served
        invariant whole == if more then Write(View(), sc, left) else Written(View(), stays)
        decreases |left|, more
      {
        WriteStep(View(), sc, left);
        var wrote;
        more, stays, wrote := WriteRound(q, current, resend, flushing, FirstOf(left), sc);
        served := served + wrote;
        left := if more then left[1..] else left;
      }
    }

    /** Reads and drops whatever the client sends; it is only interesting whether the connection is still there. */
    method HandleRead(incoming: seq<ReadReply>) returns (stays: bool)
      modifies this`status
      ensures Written(View(), stays) == Read(old(View()), incoming, true)
    {
      var first, k := true, 0;
      ghost var whole := Read(View(), incoming, true);
      assert incoming[0..] == incoming;
      while k < |incoming|
        invariant 0 <= k <= |incoming| && View() == old(View()) && Read(View(), incoming[k..], first) == whole
      {
        match incoming[k] {
          case NoCount =>
            return true;
          case Empty =>
            if first {
              status := Closed;
            }
            return !first;
          case ReadError =>
            status := Failed;
            return false;
          case Got =>
            assert incoming[k..][1..] == incoming[k + 1..];
        }
        first := false;
        k := k + 1;
      }
      return true;
    }
  }
}

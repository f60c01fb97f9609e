/**
One client of the sink: its fields, and what each step of the sink does to them.

A client's cursor `bufpos` points into the queue, whose index 0 is the newest buffer. After `total` buffers
have been queued, index `p` holds stream number `total - 1 - p`; the client's next buffer therefore has number
`Next(c, total)`.
*/
module Clients {
  import opened Basics
  import opened Buffers
  import opened Vectors
  import opened Positions

  type Handle = nat

  datatype Status = Ok | Closed | Removed | Slow | Failed | Flushing

  /** Stream caps: `name` stands for every field but the stream header. */
  datatype Caps = Caps(name: nat, header: Option<seq<Buffer>>)

  /** What has been put on a client's sending list: a block of stream headers, or a data buffer under some caps. */
  datatype Item = Block(headers: seq<Buffer>) | Data(buf: Buffer, caps: Caps)

  /** The history of a client's position at one moment. */
  datatype Mark = Mark(next: int, picked: nat, dropped: int, extra: int)

  /** What happened to a client so far; no step depends on it. */
  datatype Trail = Trail(
    wire: seq<byte>,      // bytes accepted by the socket
    items: seq<Item>,     // everything put on the sending list
    log: seq<int>,        // stream numbers of the buffers picked from the queue
    joined: nat,          // buffers queued before the client was added
    taken: multiset<Buffer>,     // references taken for the sending list
    released: multiset<Buffer>,  // references given back
    visits: nat,          // times a queueing pass advanced the cursor
    start: Mark,          // when the client got its start position
    flush: Mark,          // when the client began to flush
    flushTo: int,         // buffers queued when the client began to flush
    added: SyncMethod,    // the method the client was added with
    flushed: bool,        // whether its flush has ended
    end: Mark             // when the client was given up
  )

  datatype ClientView = ClientView(
    handle: Handle, status: Status, bufpos: int, flushcount: int, sending: seq<Buffer>, bufoffset: nat,
    discont: bool, newConnection: bool, removing: bool, sync: SyncMethod, burst: BurstSpec, caps: Option<Caps>,
    source: bool, bytesSent: nat, dropped: int, firstTs: int, lastTs: int, trail: Trail)

  /** A client that may still send. */
  predicate Active(c: ClientView) { c.status == Ok || c.status == Flushing }

  function Next(c: ClientView, total: nat): int { total - 1 - c.bufpos }

  /** Visits beyond one for every buffer queued since the client was added. */
  function Extra(c: ClientView, total: nat): int { c.trail.visits - (total - c.trail.joined) }

  function MarkNow(c: ClientView, total: nat): Mark {
    Mark(Next(c, total), |c.trail.log|, c.dropped, Extra(c, total))
  }

  /** A client as it is when it is added after `total` buffers. */
  function NewClient(handle: Handle, sync: SyncMethod, burst: BurstSpec, total: nat): ClientView {
    var mark := Mark(total, 0, 0, 0);
    ClientView(handle, Ok, -1, -1, [], 0, false, true, false, sync, burst, None, true, 0, 0, NO_TIME, NO_TIME,
               Trail([], [], [], total, multiset{}, multiset{}, 0, mark, mark, total, sync, false, mark))
  }

  /** Nothing a write event counts has changed, up to the moment bytes are sent. */
  predicate SameCounts(c: ClientView, r: ClientView) {
    && r.handle == c.handle && r.status == c.status && r.removing == c.removing
    && r.bytesSent == c.bytesSent && r.dropped == c.dropped
    && r.trail.visits == c.trail.visits && r.trail.joined == c.trail.joined
    && r.trail.flush == c.trail.flush && r.trail.flushTo == c.trail.flushTo
  }

  // ---- One visit of a queueing pass ----

  /** What a queueing pass knows: the queue with the new buffer in front, and its limits as positions (-1: none). */
  datatype Limit = Limit(queue: seq<Buffer>, soft: int, hard: int, policy: Policy)

  /** The cursor after one more buffer. */
  function Arrived(c: ClientView): ClientView {
    c.(bufpos := c.bufpos + 1, trail := c.trail.(visits := c.trail.visits + 1))
  }

  /** The cursor moved by recovery; the buffers skipped count as dropped. */
  function MovedTo(c: ClientView, p: int): ClientView {
    if p != c.bufpos then c.(dropped := c.dropped + c.bufpos - p, bufpos := p, discont := true) else c
  }

  /** The cursor after one more buffer, and after recovery if the client passed the soft limit. */
  function Advance(c: ClientView, lim: Limit): (r: ClientView)
    requires |lim.queue| > 0
    ensures r.bufpos <= c.bufpos + 1 && (-1 <= c.bufpos ==> -1 <= r.bufpos)
    ensures r.dropped - c.dropped == c.bufpos + 1 - r.bufpos
    ensures r == c.(bufpos := r.bufpos, dropped := r.dropped, discont := r.discont,
                    trail := c.trail.(visits := c.trail.visits + 1))
  {
    var c1 := Arrived(c);
    if lim.soft > 0 && c1.bufpos >= lim.soft then MovedTo(c1, Recover(lim.policy, lim.queue, lim.soft, c1.bufpos))
    else c1
  }

  predicate TooSlow(c: ClientView, lim: Limit) { lim.hard > 0 && c.bufpos >= lim.hard }

  /** A client that has something to send, or still has to be positioned, is watched for writability. */
  function Woken(c: ClientView): ClientView {
    if c.bufpos == 0 || c.newConnection then c.(source := true) else c
  }

  /** A client about to be removed as too slow; where it was is noted before its cursor is given up. */
  function Evicted(c: ClientView, total: nat): ClientView {
    var c1 := if c.removing then c else c.(trail := c.trail.(end := MarkNow(c, total)));
    c1.(status := Slow, bufpos := -1)
  }

  // ---- Removal ----

  /** Where a client is when its removal begins. */
  function EndOf(c: ClientView, total: nat): Mark { if c.status == Slow then c.trail.end else MarkNow(c, total) }

  /** The part of a removal that happens before the lock is released for the signal handlers. */
  function BeginRemoval(c: ClientView, total: nat): ClientView {
    c.(removing := true, source := false, sending := [], caps := None,
       trail := c.trail.(released := c.trail.released + multiset(c.sending), end := EndOf(c, total)))
  }

  /** All buffers counted when the flush began have been sent. */
  function FlushEnded(c: ClientView): ClientView {
    c.(status := Removed, trail := c.trail.(flushed := true))
  }

  function BeginFlush(c: ClientView, total: nat): ClientView {
    c.(flushcount := c.bufpos + 1, status := Flushing,
       trail := c.trail.(flush := MarkNow(c, total), flushTo := total))
  }

  // ---- Writing ----

  ghost predicate AllSendable(bs: seq<Buffer>) { forall i :: 0 <= i < |bs| ==> bs[i].Sendable() }

  ghost predicate CapsSendable(caps: Caps) { caps.header != None ==> AllSendable(caps.header.value) }

  /** What a writer sees of the sink. */
  datatype Scene = Scene(queue: seq<Buffer>, total: nat, caps: Caps, resend: bool)

  /** The stream headers to send before the next buffer, if any have to be sent. */
  function HeadersDue(prev: Option<Caps>, caps: Caps, resend: bool): Option<seq<Buffer>> {
    if prev == None then caps.header
    else if prev.value == caps || caps.header == None then None
    else if prev.value.header == None then caps.header
    else if resend && prev.value.header != caps.header then caps.header
    else None
  }

  function HeadersToSend(prev: Option<Caps>, caps: Caps, resend: bool): seq<Buffer> {
    match HeadersDue(prev, caps, resend)
    case None => []
    case Some(headers) => headers
  }

  /** The buffers an item put on the sending list. */
  function ItemBuffers(i: Item): seq<Buffer> {
    match i
    case Block(headers) => headers
    case Data(buf, _) => [buf]
  }

  function BuffersOf(items: seq<Item>): seq<Buffer> {
    if items == [] then [] else ItemBuffers(items[0]) + BuffersOf(items[1..])
  }

  /** The new items, in order, when `buf` is queued to a client. */
  function NewItems(prev: Option<Caps>, buf: Buffer, caps: Caps, resend: bool): (r: seq<Item>)
    ensures r != [] && r[|r| - 1] == Data(buf, caps)
    ensures BuffersOf(r) == HeadersToSend(prev, caps, resend) + [buf]
  {
    assert BuffersOf([Data(buf, caps)]) == [buf];
    match HeadersDue(prev, caps, resend)
    case None => [Data(buf, caps)]
    case Some(headers) =>
      var r := [Block(headers), Data(buf, caps)];
      assert r[1..] == [Data(buf, caps)];
      r
  }

  /** `buf` on the sending list, behind the headers it needs. */
  function QueueTo(c: ClientView, buf: Buffer, caps: Caps, resend: bool): (r: ClientView)
    ensures |r.sending| > |c.sending|
    ensures r == c.(sending := r.sending, caps := Some(caps),
                    trail := c.trail.(items := r.trail.items, taken := r.trail.taken))
  {
    var more := NewItems(c.caps, buf, caps, resend);
    c.(sending := c.sending + BuffersOf(more), caps := Some(caps),
       trail := c.trail.(items := c.trail.items + more, taken := c.trail.taken + multiset(BuffersOf(more))))
  }

  /** The client after it took the buffer under its cursor. */
  function Pick(c: ClientView, sc: Scene): (r: ClientView)
    requires 0 <= c.bufpos < |sc.queue|
    ensures r.sending != [] && r.bufoffset == 0 && r.bufpos == c.bufpos - 1
  {
    var buf := sc.queue[c.bufpos];
    var c1 := c.(bufpos := c.bufpos - 1,
                 firstTs := if c.firstTs == NO_TIME then buf.ts else c.firstTs,
                 lastTs := if buf.ts != NO_TIME then buf.ts else c.lastTs,
                 flushcount := if c.flushcount != -1 then c.flushcount - 1 else c.flushcount,
                 trail := c.trail.(log := c.trail.log + [Next(c, sc.total)]));
    QueueTo(c1, buf, sc.caps, sc.resend).(bufoffset := 0)
  }

  /** The client at its start position. */
  function StartAt(c: ClientView, position: int, total: nat): ClientView {
    var c1 := c.(newConnection := false, bufpos := position);
    c1.(trail := c1.trail.(start := MarkNow(c1, total)))
  }

  predicate CursorInside(c: ClientView, queue: seq<Buffer>) { -1 <= c.bufpos < |queue| }

  /** The head of the sending list is entered somewhere before its end. */
  predicate OffsetFits(sending: seq<Buffer>, offset: nat) {
    if sending == [] then offset == 0 else offset <= sending[0].Size()
  }

  predicate OffsetInside(c: ClientView) { OffsetFits(c.sending, c.bufoffset) }

  /** What a write event finds: nothing to send for now, everything flushed, or a buffer to send. */
  datatype Ready = Wait(client: ClientView) | Flushed(client: ClientView) | Loaded(client: ClientView)

  function PickUnlessFlushed(c: ClientView, sc: Scene): (r: Ready)
    requires 0 <= c.bufpos < |sc.queue|
    ensures CursorInside(r.client, sc.queue)
    ensures r.Loaded? ==> r.client.sending != [] && OffsetInside(r.client)
  {
    if c.flushcount == 0 then Flushed(c) else Loaded(Pick(c, sc))
  }

  /** A new client at the position chosen for it, if there is one yet. */
  function Place(c: ClientView, p: Placement, sc: Scene): (r: Ready)
    requires -1 <= p.position < |sc.queue| && -1 <= p.bufpos < |sc.queue| && OffsetInside(c)
    ensures CursorInside(r.client, sc.queue)
    ensures r.Loaded? ==> r.client.sending != [] && OffsetInside(r.client)
  {
    var c1 := c.(bufpos := p.bufpos, sync := p.sync);
    if p.position >= 0 then PickUnlessFlushed(StartAt(c1, p.position, sc.total), sc)
    else Wait(c1.(source := false))
  }

  /** Makes sure there is a buffer to send: the first half of one round of the write loop. */
  function Load(c: ClientView, sc: Scene): (r: Ready)
    requires CursorInside(c, sc.queue) && OffsetInside(c)
    ensures CursorInside(r.client, sc.queue)
    ensures r.Loaded? ==> r.client.sending != [] && OffsetInside(r.client)
  {
    if c.sending != [] then Loaded(c)
    else if c.bufpos == -1 then
      var c1 := c.(source := false);
      if c.flushcount == 0 then Flushed(c1) else Wait(c1)
    else if c.newConnection && c.status != Flushing then
      Place(c, NewPosition(sc.queue, c.bufpos, c.sync, c.burst), sc)
    else PickUnlessFlushed(c, sc)
  }

  /** What the socket does with one send call: it accepts some of the bytes offered, or none with an error. */
  datatype Reply = Accepts(bytes: nat) | WouldBlock | Reset | Broken

  /** Bytes the socket takes of the head of the sending list: some of those in the vectors it is offered. */
  function Accepted(c: ClientView, bytes: nat): (n: nat)
    requires c.sending != [] && OffsetInside(c)
    ensures n <= c.sending[0].Size() - c.bufoffset
    ensures var offered := |Offer(c.sending[0].mems, c.bufoffset, MAX_VECTORS)|;
            n <= offered && (c.sending[0].Sendable() && c.bufoffset < c.sending[0].Size() ==>
                               n == if bytes <= offered then bytes else offered)
  {
    var left := c.sending[0].Size() - c.bufoffset;
    Min(bytes, Min(left, |Offer(c.sending[0].mems, c.bufoffset, MAX_VECTORS)|))
  }

  /** The head of the sending list has been sent completely. */
  function WithoutHead(c: ClientView): ClientView
    requires c.sending != []
  {
    c.(sending := c.sending[1..], bufoffset := 0,
       trail := c.trail.(released := c.trail.released + multiset{c.sending[0]}))
  }

  function AfterSend(c: ClientView, n: nat): (r: ClientView)
    requires c.sending != [] && c.bufoffset + n <= c.sending[0].Size()
    ensures OffsetInside(r)
    ensures r == c.(sending := r.sending, bufoffset := r.bufoffset, bytesSent := c.bytesSent + n,
                    trail := c.trail.(wire := r.trail.wire, released := r.trail.released))
  {
    var head := c.sending[0];
    var sent := head.bytes[c.bufoffset..c.bufoffset + n];
    var c1 := if n < head.Size() - c.bufoffset then c.(bufoffset := c.bufoffset + n)
              else WithoutHead(c);
    c1.(bytesSent := c1.bytesSent + n, trail := c1.trail.(wire := c1.trail.wire + sent))
  }

  /** A write event: the client it leaves, and whether the client stays. */
  datatype Written = Written(client: ClientView, stays: bool)

  /** One round of the write loop: it goes on with a client, or ends. */
  datatype RoundResult = Goes(client: ClientView) | Ends(written: Written)

  /** What the answer to one send call means for the loop. */
  function Answer(c: ClientView, reply: Reply): (r: RoundResult)
    requires c.sending != [] && OffsetInside(c)
    ensures r.Goes? ==> OffsetInside(r.client) && r.client.bufpos == c.bufpos
  {
    match reply
    case WouldBlock => Ends(Written(c, true))
    case Reset => Ends(Written(c.(status := Closed), false))
    case Broken => Ends(Written(c.(status := Failed), false))
    case Accepts(k) => Goes(AfterSend(c, Accepted(c, k)))
  }

  /** What a round does with the client that `Load` leaves; without an answer a send call would block. */
  function Proceed(ready: Ready, reply: Option<Reply>): (r: RoundResult)
    requires ready.Loaded? ==> ready.client.sending != [] && OffsetInside(ready.client)
    ensures r.Goes? ==> reply != None && OffsetInside(r.client) && r.client.bufpos == ready.client.bufpos
  {
    match ready
    case Wait(c) => Ends(Written(c, true))
    case Flushed(c) => Ends(Written(FlushEnded(c), false))
    case Loaded(c) => if reply == None then Ends(Written(c, true)) else Answer(c, reply.value)
  }

  /** Loads a buffer and offers it to the socket. */
  function Round(c: ClientView, sc: Scene, reply: Option<Reply>): (r: RoundResult)
    requires CursorInside(c, sc.queue) && OffsetInside(c)
    ensures r.Goes? ==> reply != None && OffsetInside(r.client) && CursorInside(r.client, sc.queue)
  {
    Proceed(Load(c, sc), reply)
  }

  function FirstOf(replies: seq<Reply>): Option<Reply> { if replies == [] then None else Some(replies[0]) }

  /** The write loop against the replies of the socket. */
  function Write(c: ClientView, sc: Scene, replies: seq<Reply>): Written
    requires CursorInside(c, sc.queue) && OffsetInside(c)
    decreases |replies|
  {
    match Round(c, sc, FirstOf(replies))
    case Ends(w) => w
    case Goes(c1) => Write(c1, sc, replies[1..])
  }

  // ---- Reading ----

  /** What one read returns: bytes that are thrown away, the end of the connection, an error, or no byte count. */
  datatype ReadReply = Got | Empty | ReadError | NoCount

  /** The status after the client wrote something: a close or an error ends the client. */
  function Read(c: ClientView, replies: seq<ReadReply>, first: bool): Written
    decreases |replies|
  {
    if replies == [] then Written(c, true)
    else match replies[0]
      case NoCount => Written(c, true)
      case Empty => if first then Written(c.(status := Closed), false) else Written(c, true)
      case ReadError => Written(c.(status := Failed), false)
      case Got => Read(c, replies[1..], false)
  }
}

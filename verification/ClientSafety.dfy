/** What is always true of one client, and that every step of Clients keeps it. */
module ClientSafety {
  import opened Basics
  import opened Buffers
  import opened Vectors
  import opened Positions
  import opened Clients
  import opened Headers

  // ---- Bytes ----

  function BytesOf(bs: seq<Buffer>): seq<byte> {
    if bs == [] then [] else bs[0].bytes + BytesOf(bs[1..])
  }

  lemma {:induction false} BytesOfAppend(a: seq<Buffer>, b: seq<Buffer>)
    ensures BytesOf(a + b) == BytesOf(a) + BytesOf(b)
  {
    if a == [] {
      assert a + b == b;
    } else {
      assert (a + b)[1..] == a[1..] + b;
      BytesOfAppend(a[1..], b);
    }
  }

  lemma {:induction false} BuffersOfAppend(a: seq<Item>, b: seq<Item>)
    ensures BuffersOf(a + b) == BuffersOf(a) + BuffersOf(b)
  {
    if a == [] {
      assert a + b == b;
    } else {
      assert (a + b)[1..] == a[1..] + b;
      BuffersOfAppend(a[1..], b);
    }
  }

  /** All bytes ever queued to the client. */
  function Queued(c: ClientView): seq<byte> { BytesOf(BuffersOf(c.trail.items)) }

  /** The bytes of a sending list that is entered at `offset`. */
  function RestOf(sending: seq<Buffer>, offset: nat): seq<byte>
    requires OffsetFits(sending, offset)
  {
    BytesOf(sending)[offset..]
  }

  /** The socket has accepted exactly the queued bytes that are not on the sending list any more. */
  ghost predicate Delivers(c: ClientView) {
    && OffsetInside(c)
    && c.trail.wire + RestOf(c.sending, c.bufoffset) == Queued(c)
    && c.bytesSent == |c.trail.wire|
  }

  /** The socket has accepted nothing but queued bytes, in order. */
  ghost predicate WireIsPrefix(c: ClientView) {
    c.trail.wire <= Queued(c) && c.bytesSent == |c.trail.wire|
  }

  /** Each reference taken for the sending list is on it or has been given back. */
  ghost predicate RefsBalance(c: ClientView) {
    && c.trail.taken == multiset(BuffersOf(c.trail.items))
    && c.trail.taken == c.trail.released + multiset(c.sending)
  }

  // ---- Stream numbers ----

  /** The data buffers among the items. */
  function DataOf(items: seq<Item>): seq<Buffer> {
    if items == [] then []
    else DataOf(items[..|items| - 1])
         + (match items[|items| - 1] case Block(_) => [] case Data(buf, _) => [buf])
  }

  /** The data buffers are those of the stream whose numbers are in the log. */
  ghost predicate LogMatches(c: ClientView, stream: seq<Buffer>) {
    && |DataOf(c.trail.items)| == |c.trail.log|
    && forall k :: 0 <= k < |c.trail.log|
         ==> 0 <= c.trail.log[k] < |stream| && DataOf(c.trail.items)[k] == stream[c.trail.log[k]]
  }

  /** The timestamp of the last buffer that has one. */
  function LastTs(bs: seq<Buffer>): Timestamp {
    if bs == [] then NO_TIME
    else if bs[|bs| - 1].ts != NO_TIME then bs[|bs| - 1].ts
    else LastTs(bs[..|bs| - 1])
  }

  /** The first and the last timestamp of what was queued to the client are noted. */
  ghost predicate TimesMatch(c: ClientView) {
    var bs := DataOf(c.trail.items);
    c.firstTs == FirstTs(bs, |bs|) && c.lastTs == LastTs(bs)
  }

  ghost predicate Increasing(s: seq<int>) { forall i, j :: 0 <= i < j < |s| ==> s[i] < s[j] }

  /** From mark `m` to mark `now` the next number moved by what was picked and dropped, less the extra visits. */
  ghost predicate Accounts(log: seq<int>, m: Mark, now: Mark) {
    && m.picked <= |log| && m.dropped <= now.dropped && m.extra <= now.extra
    && now.next == m.next + (|log| - m.picked) + (now.dropped - m.dropped) - (now.extra - m.extra)
    && (now.dropped == m.dropped && now.extra == m.extra ==>
          forall k :: m.picked <= k < |log| ==> log[k] == m.next + (k - m.picked))
  }

  /** Numbers are accounted for since the start and since the flush, and increase unless there were extra visits. */
  ghost predicate NumbersAt(c: ClientView, now: Mark) {
    && -1 <= c.flushcount
    && 0 <= c.trail.start.extra <= now.extra
    && (c.newConnection && c.flushcount == -1 ==> c.trail.log == [])
    && (!c.newConnection ==> Accounts(c.trail.log, c.trail.start, now) && c.trail.start.picked == 0)
    && (c.flushcount != -1 ==>
          && Accounts(c.trail.log, c.trail.flush, now)
          && |c.trail.log| - c.trail.flush.picked + c.flushcount == c.trail.flushTo - c.trail.flush.next)
    && (now.extra == c.trail.start.extra ==>
          && Increasing(c.trail.log)
          && (c.trail.log != [] ==> c.trail.log[|c.trail.log| - 1] < now.next))
  }

  ghost predicate NumbersHold(c: ClientView, total: nat) { NumbersAt(c, MarkNow(c, total)) }

  /** A client added with a keyframe method, once it was positioned, received a keyframe first. */
  ghost predicate KeyframeFirst(c: ClientView, stream: seq<Buffer>) {
    && (StartsOnKeyframe(c.trail.added) <==> StartsOnKeyframe(c.sync))
    && (!c.newConnection ==>
          && c.trail.log != []
          && (StartsOnKeyframe(c.trail.added) ==> 0 <= c.trail.log[0] < |stream| && stream[c.trail.log[0]].IsSync()))
  }

  /** A client whose flush has ended has nothing left to flush, and all its bytes are on its wire. */
  ghost predicate FlushDelivered(c: ClientView) {
    c.trail.flushed ==> c.flushcount == 0 && c.trail.wire == Queued(c)
  }

  // ---- The invariant ----

  /** A client with anything to do is watched, so that the next write event cannot be missed. */
  ghost predicate Watched(c: ClientView) {
    !c.source ==> c.sending == [] && c.bufpos == -1
  }

  /** What has been queued and sent to a client, whether or not it is still there. */
  ghost predicate Recorded(c: ClientView, stream: seq<Buffer>, resend: bool) {
    && WireIsPrefix(c)
    && RefsBalance(c)
    && LogMatches(c, stream)
    && TimesMatch(c)
    && LaidOut(c.trail.items, resend)
  }

  /** What stays true of a client that was at `now` when it was given up. */
  ghost predicate Concluded(c: ClientView, now: Mark, stream: seq<Buffer>, resend: bool) {
    Recorded(c, stream, resend) && NumbersAt(c, now) && KeyframeFirst(c, stream) && FlushDelivered(c)
  }

  /** A client that can be removed. */
  ghost predicate Leaving(c: ClientView, total: nat, stream: seq<Buffer>, resend: bool) {
    Concluded(c, EndOf(c, total), stream, resend)
  }

  /** A client whose removal has begun, or that has left. */
  ghost predicate Settled(c: ClientView, stream: seq<Buffer>, resend: bool) {
    c.removing && c.sending == [] && c.caps == None && Concluded(c, c.trail.end, stream, resend)
  }

  /** What is true of a client that can be written to, whether or not it is about to leave. */
  ghost predicate Sending(c: ClientView, total: nat, stream: seq<Buffer>, resend: bool) {
    && Recorded(c, stream, resend)
    && Delivers(c)
    && CapsLink(c)
    && NumbersHold(c, total)
  }

  ghost predicate Serving(c: ClientView) {
    && Active(c) && Watched(c) && !c.trail.flushed
    && (c.status == Flushing <==> c.flushcount != -1)
    && (c.newConnection && c.flushcount == -1 ==> c.sending == [])
  }

  /** The invariant of a listed client after `total` buffers were queued and its cursor was moved for each of them. */
  ghost predicate Sound(c: ClientView, total: nat, stream: seq<Buffer>, resend: bool) {
    if c.removing then !Active(c) && Settled(c, stream, resend)
    else Sending(c, total, stream, resend) && Serving(c) && KeyframeFirst(c, stream)
  }

  // ---- What depends on few fields ----

  /** Nothing that is queued, sent or noted differs. */
  ghost predicate SameRecord(c: ClientView, r: ClientView) {
    && r.sending == c.sending && r.bufoffset == c.bufoffset && r.bytesSent == c.bytesSent
    && r.trail.items == c.trail.items && r.trail.wire == c.trail.wire && r.trail.log == c.trail.log
    && r.trail.taken == c.trail.taken && r.trail.released == c.trail.released
    && r.firstTs == c.firstTs && r.lastTs == c.lastTs
  }

  ghost predicate SameAccounts(c: ClientView, r: ClientView) {
    && r.newConnection == c.newConnection && r.flushcount == c.flushcount && r.trail.log == c.trail.log
    && r.trail.start == c.trail.start && r.trail.flush == c.trail.flush && r.trail.flushTo == c.trail.flushTo
  }

  ghost predicate SameStart(c: ClientView, r: ClientView) {
    && r.newConnection == c.newConnection && r.sync == c.sync && r.trail.log == c.trail.log
    && r.trail.added == c.trail.added
  }

  lemma RecordKept(c: ClientView, r: ClientView, stream: seq<Buffer>, resend: bool)
    requires SameRecord(c, r) && Recorded(c, stream, resend)
    ensures Recorded(r, stream, resend)
    ensures Delivers(c) ==> Delivers(r)
  {
    assert Queued(r) == Queued(c);
  }

  lemma AccountsKept(c: ClientView, r: ClientView, now: Mark)
    requires SameAccounts(c, r) && NumbersAt(c, now)
    ensures NumbersAt(r, now)
  {
  }

  lemma ConcludedKept(c: ClientView, r: ClientView, now: Mark, stream: seq<Buffer>, resend: bool)
    requires SameRecord(c, r) && SameAccounts(c, r) && SameStart(c, r) && r.trail.flushed == c.trail.flushed
    requires Concluded(c, now, stream, resend)
    ensures Concluded(r, now, stream, resend)
  {
    RecordKept(c, r, stream, resend);
    AccountsKept(c, r, now);
    assert Queued(r) == Queued(c);
  }

  /** A client whose fields that matter have not changed, at the position where it was. */
  lemma SendingKept(c: ClientView, r: ClientView, total: nat, more: nat, stream: seq<Buffer>, resend: bool)
    requires SameRecord(c, r) && SameAccounts(c, r) && r.caps == c.caps && MarkNow(r, more) == MarkNow(c, total)
    requires Sending(c, total, stream, resend)
    ensures Sending(r, more, stream, resend)
  {
    RecordKept(c, r, stream, resend);
    AccountsKept(c, r, MarkNow(c, total));
  }

  // ---- Adding, flushing and removing ----

  lemma NewClientSound(handle: Handle, sync: SyncMethod, burst: BurstSpec, stream: seq<Buffer>, resend: bool)
    ensures Sound(NewClient(handle, sync, burst, |stream|), |stream|, stream, resend)
  {
  }

  lemma BeginFlushNumbers(c: ClientView, total: nat)
    requires NumbersHold(c, total) && c.flushcount == -1 && -1 <= c.bufpos
    ensures NumbersHold(BeginFlush(c, total), total)
  {
    assert MarkNow(BeginFlush(c, total), total) == MarkNow(c, total);
  }

  lemma BeginFlushServing(c: ClientView, total: nat)
    requires Serving(c) && c.status == Ok && -1 <= c.bufpos
    ensures Serving(BeginFlush(c, total))
  {
  }

  lemma BeginFlushSound(c: ClientView, stream: seq<Buffer>, resend: bool)
    requires !c.removing && c.status == Ok && -1 <= c.bufpos && Sound(c, |stream|, stream, resend)
    ensures Sound(BeginFlush(c, |stream|), |stream|, stream, resend)
  {
    RecordKept(c, BeginFlush(c, |stream|), stream, resend);
    BeginFlushNumbers(c, |stream|);
    BeginFlushServing(c, |stream|);
  }

  /** A client may be given up for any reason but being slow, which is found by a queueing pass. */
  lemma GivenUpLeaves(c: ClientView, status: Status, total: nat, stream: seq<Buffer>, resend: bool)
    requires !c.removing && status != Slow && Sound(c, total, stream, resend)
    ensures Leaving(c.(status := status), total, stream, resend)
  {
    ConcludedKept(c, c.(status := status), MarkNow(c, total), stream, resend);
  }

  lemma StatusSettled(c: ClientView, status: Status, stream: seq<Buffer>, resend: bool)
    requires Settled(c, stream, resend)
    ensures Settled(c.(status := status), stream, resend)
  {
    ConcludedKept(c, c.(status := status), c.trail.end, stream, resend);
  }

  lemma BeginRemovalSettles(c: ClientView, total: nat, stream: seq<Buffer>, resend: bool)
    requires Leaving(c, total, stream, resend)
    ensures Settled(BeginRemoval(c, total), stream, resend)
  {
    assert Queued(BeginRemoval(c, total)) == Queued(c);
  }

  /** A longer stream keeps what is recorded; only the position waits for the visit of the queueing pass. */
  lemma StreamGrows(c: ClientView, total: nat, stream: seq<Buffer>, resend: bool, b: Buffer)
    requires Sound(c, total, stream, resend)
    ensures Sound(c, total, stream + [b], resend)
  {
  }

  lemma SettledGrows(c: ClientView, stream: seq<Buffer>, resend: bool, b: Buffer)
    requires Settled(c, stream, resend)
    ensures Settled(c, stream + [b], resend)
  {
  }

  // ---- A visit of the queueing pass ----

  /** One visit, whether it is the first for this buffer (`total` one short) or a repeated one. */
  lemma VisitNumbers(c: ClientView, lim: Limit, first: bool, total: nat)
    requires |lim.queue| > 0 && total > 0
    requires NumbersHold(c, if first then total - 1 else total)
    ensures NumbersHold(Advance(c, lim), total)
  {
    var r := Advance(c, lim);
    var before := if first then total - 1 else total;
    assert Extra(r, total) == Extra(c, before) + if first then 0 else 1;
    assert Next(r, total) == Next(c, before) + (r.dropped - c.dropped) - (if first then 0 else 1);
  }

  /** A visit touches the cursor, the drops and the visits, and nothing that is recorded. */
  lemma VisitSending(c: ClientView, lim: Limit, first: bool, total: nat, stream: seq<Buffer>, resend: bool)
    requires |lim.queue| > 0 && total > 0 && Sending(c, if first then total - 1 else total, stream, resend)
    ensures Sending(Advance(c, lim), total, stream, resend)
  {
    VisitNumbers(c, lim, first, total);
    RecordKept(c, Advance(c, lim), stream, resend);
  }

  lemma VisitSettled(c: ClientView, lim: Limit, stream: seq<Buffer>, resend: bool)
    requires |lim.queue| > 0 && Settled(c, stream, resend)
    ensures Settled(Advance(c, lim), stream, resend)
  {
    ConcludedKept(c, Advance(c, lim), c.trail.end, stream, resend);
  }

  lemma VisitServing(c: ClientView, lim: Limit)
    requires |lim.queue| > 0 && -1 <= c.bufpos && Serving(c)
    ensures Serving(Woken(Advance(c, lim)))
  {
  }

  lemma WokenSame(c: ClientView, total: nat)
    ensures var r := Woken(c);
            SameRecord(c, r) && SameAccounts(c, r) && r.caps == c.caps && MarkNow(r, total) == MarkNow(c, total)
  {
  }

  lemma WokenSending(c: ClientView, total: nat, stream: seq<Buffer>, resend: bool)
    requires Sending(c, total, stream, resend)
    ensures Sending(Woken(c), total, stream, resend)
  {
    WokenSame(c, total);
    SendingKept(c, Woken(c), total, total, stream, resend);
  }

  lemma WokenSettled(c: ClientView, stream: seq<Buffer>, resend: bool)
    requires Settled(c, stream, resend)
    ensures Settled(Woken(c), stream, resend)
  {
    ConcludedKept(c, Woken(c), c.trail.end, stream, resend);
  }

  lemma VisitStart(c: ClientView, lim: Limit, stream: seq<Buffer>)
    requires |lim.queue| > 0 && KeyframeFirst(c, stream)
    ensures KeyframeFirst(Woken(Advance(c, lim)), stream)
    ensures Woken(Advance(c, lim)).removing == c.removing && Woken(Advance(c, lim)).status == c.status
  {
  }

  lemma VisitSound(c: ClientView, lim: Limit, first: bool, total: nat, stream: seq<Buffer>, resend: bool)
    requires |lim.queue| > 0 && total > 0 && -1 <= c.bufpos
    requires Sound(c, if first then total - 1 else total, stream, resend)
    ensures Sound(Woken(Advance(c, lim)), total, stream, resend)
  {
    VisitStart(c, lim, stream);
    if c.removing {
      VisitSettled(c, lim, stream, resend);
      WokenSettled(Advance(c, lim), stream, resend);
    } else {
      VisitSending(c, lim, first, total, stream, resend);
      WokenSending(Advance(c, lim), total, stream, resend);
      VisitServing(c, lim);
    }
  }

  /** A client whose removal another thread has begun stays settled when a pass finds it too slow. */
  lemma EvictedSettled(c: ClientView, total: nat, stream: seq<Buffer>, resend: bool, lim: Limit)
    requires |lim.queue| > 0 && Settled(c, stream, resend)
    ensures Settled(Evicted(Advance(c, lim), total), stream, resend)
  {
    ConcludedKept(c, Evicted(Advance(c, lim), total), c.trail.end, stream, resend);
  }

  /** A client that a pass finds too slow can be removed; its numbers are accounted for up to the visit. */
  lemma EvictedLeaves(c: ClientView, lim: Limit, first: bool, total: nat, stream: seq<Buffer>, resend: bool)
    requires |lim.queue| > 0 && total > 0 && !c.removing
    requires Sound(c, if first then total - 1 else total, stream, resend)
    ensures Leaving(Evicted(Advance(c, lim), total), total, stream, resend)
  {
    var r := Advance(c, lim);
    VisitSending(c, lim, first, total, stream, resend);
    VisitStart(c, lim, stream);
    ConcludedKept(r, Evicted(r, total), MarkNow(r, total), stream, resend);
  }
}

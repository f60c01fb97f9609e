/** Both data paths together: what a client of the sink can make of the bytes it receives. */
module EndToEnd {
  import opened Basics
  import opened Buffers
  import opened Clients
  import opened Headers
  import opened ClientSafety
  import opened Sink
  import opened Runs
  import opened FdMemories
  import opened Payload

  /** Every buffer was queued to the client under caps without headers. */
  ghost predicate WithoutHeaders(items: seq<Item>) {
    forall k :: 0 <= k < |items| && items[k].Data? ==> items[k].caps.header == None
  }

  /** Then nothing but these buffers was queued. */
  lemma OnlyData(items: seq<Item>, resend: bool)
    requires LaidOut(items, resend) && WithoutHeaders(items)
    ensures forall k :: 0 <= k < |items| ==> items[k].Data?
  {
    forall k | 0 <= k < |items|
      ensures items[k].Data?
    {
      assert InOrder(items, k, resend);
    }
  }

  lemma {:induction false} DataIsAll(items: seq<Item>)
    requires forall k :: 0 <= k < |items| ==> items[k].Data?
    ensures BuffersOf(items) == DataOf(items)
  {
    if items != [] {
      var before, last := items[..|items| - 1], items[|items| - 1];
      DataIsAll(before);
      BuffersOfAppend(before, [last]);
      assert items == before + [last];
      assert BuffersOf([last]) == [last.buf];
    }
  }

  /** Every buffer is one message long. */
  ghost predicate MessageSized(bs: seq<Buffer>) { forall k :: 0 <= k < |bs| ==> bs[k].Size() == MESSAGE_SIZE }

  lemma {:induction false} MessageAt(bs: seq<Buffer>, j: nat)
    requires MessageSized(bs) && j < |bs|
    ensures |BytesOf(bs)| == MESSAGE_SIZE * |bs|
    ensures BytesOf(bs)[MESSAGE_SIZE * j..MESSAGE_SIZE * (j + 1)] == bs[j].bytes
  {
    var all, rest := BytesOf(bs), BytesOf(bs[1..]);
    assert all == bs[0].bytes + rest;
    if j > 0 {
      MessageAt(bs[1..], j - 1);
      assert all[MESSAGE_SIZE * j..MESSAGE_SIZE * (j + 1)] == rest[MESSAGE_SIZE * (j - 1)..MESSAGE_SIZE * j];
    } else {
      AllMessages(bs[1..]);
    }
  }

  lemma {:induction false} AllMessages(bs: seq<Buffer>)
    requires MessageSized(bs)
    ensures |BytesOf(bs)| == MESSAGE_SIZE * |bs|
  {
    if bs != [] {
      AllMessages(bs[1..]);
    }
  }

  /** The data buffers queued to the client, each a message. */
  lemma QueuedMessages(cfg: Config, caps: Caps, es: seq<Event>, c: ClientView)
    requires Known(After(cfg, caps, es), c) && MessageSized(After(cfg, caps, es).past.stream)
    requires WithoutHeaders(c.trail.items)
    ensures var bs := DataOf(c.trail.items);
            && Queued(c) == BytesOf(bs) && MessageSized(bs) && |bs| == |c.trail.log| && c.trail.wire <= Queued(c)
            && forall k :: 0 <= k < |bs| ==>
                 var n := c.trail.log[k];
                 0 <= n < |After(cfg, caps, es).past.stream| && bs[k] == After(cfg, caps, es).past.stream[n]
  {
    AfterInv(cfg, caps, es);
    EverybodyIsRecorded(cfg, After(cfg, caps, es), c);
    OnlyData(c.trail.items, cfg.resend);
    DataIsAll(c.trail.items);
  }

  /** Whatever the sockets replied and however the stream was cut into sends: if every buffer of the stream is a
      message, each complete message among the bytes a client received, listed or gone, is that of the buffer its log
      names. */
  lemma MessagesArrive(cfg: Config, caps: Caps, es: seq<Event>, c: ClientView, msgs: seq<FDMessage>, j: nat)
    requires Known(After(cfg, caps, es), c) && WithoutHeaders(c.trail.items)
    requires var stream := After(cfg, caps, es).past.stream;
             && |msgs| == |stream|
             && forall n :: 0 <= n < |msgs| ==> Encodable(msgs[n]) && stream[n].bytes == Encode(msgs[n])
    requires MESSAGE_SIZE * (j + 1) <= |c.trail.wire|
    ensures j < |c.trail.log| && 0 <= c.trail.log[j] < |msgs|
    ensures Decode(c.trail.wire[MESSAGE_SIZE * j..MESSAGE_SIZE * (j + 1)]) == msgs[c.trail.log[j]]
  {
    QueuedMessages(cfg, caps, es, c);
    var bs, wire, from, to := DataOf(c.trail.items), c.trail.wire, MESSAGE_SIZE * j, MESSAGE_SIZE * (j + 1);
    AllMessages(bs);
    assert MESSAGE_SIZE * (j + 1) <= MESSAGE_SIZE * |bs|;
    MessageAt(bs, j);
    assert wire == BytesOf(bs)[..|wire|];
    assert wire[from..to] == BytesOf(bs)[from..to];
    MessageRoundTrip(msgs[c.trail.log[j]]);
  }

  /** A client that has sent all it picked has received as many messages as its log names. */
  lemma AllPickedArrive(cfg: Config, caps: Caps, es: seq<Event>, c: ClientView)
    requires Known(After(cfg, caps, es), c) && WithoutHeaders(c.trail.items)
    requires MessageSized(After(cfg, caps, es).past.stream)
    ensures |c.trail.wire| <= MESSAGE_SIZE * |c.trail.log|
    ensures c.trail.flushed || (!c.removing && c.sending == []) ==> |c.trail.wire| == MESSAGE_SIZE * |c.trail.log|
  {
    QueuedMessages(cfg, caps, es, c);
    AllMessages(DataOf(c.trail.items));
    AfterInv(cfg, caps, es);
    NumbersOfEverybody(cfg, After(cfg, caps, es), c);
    DeliveryIsExact(cfg, caps, es, c);
  }

  /** Every media buffer can be read, and its file and its timestamp fit the message. */
  ghost predicate Payloadable(media: seq<seq<Memory>>, times: seq<nat>) {
    && |times| == |media|
    && (forall n, i :: 0 <= n < |media| && 0 <= i < |media[n]| ==> Shows(media[n][i]))
    && (forall n :: 0 <= n < |media| ==> times[n] < TWO_64 && |Payloaded(media[n]).file| < TWO_64)
  }

  /** What the payloader makes of each media buffer. */
  function Messages(media: seq<seq<Memory>>, times: seq<nat>): seq<FDMessage>
    requires Payloadable(media, times)
  {
    seq(|media|, n requires 0 <= n < |media| => MessageFor(Payloaded(media[n]), times[n]))
  }

  lemma MessagesEncode(media: seq<seq<Memory>>, times: seq<nat>, n: nat)
    requires Payloadable(media, times) && n < |media|
    ensures Encodable(Messages(media, times)[n])
    ensures Messages(media, times)[n] == MessageFor(Payloaded(media[n]), times[n])
  {
  }

  /** The message for a media buffer is accepted with its file, and names the buffer's bytes. */
  ghost predicate Names(msg: FDMessage, ms: seq<Memory>, timestamp: nat)
    requires forall i :: 0 <= i < |ms| ==> Shows(ms[i])
  {
    var file := Payloaded(ms).file;
    && msg.captureTimestamp == timestamp && LongEnough(file, msg)
    && Fits(Window(msg.offset, msg.size), |file|)
    && Exposed(file, Window(msg.offset, msg.size)) == AllContents(ms)
  }

  lemma MessageNames(ms: seq<Memory>, timestamp: nat)
    requires (forall i :: 0 <= i < |ms| ==> Shows(ms[i])) && timestamp < TWO_64 && |Payloaded(ms).file| < TWO_64
    ensures Names(MessageFor(Payloaded(ms), timestamp), ms, timestamp)
  {
    WindowRoundTrip(ms, timestamp);
    MessageRoundTrip(MessageFor(Payloaded(ms), timestamp));
  }

  /** From frame to frame: if the stream is what the payloader makes of `media`, each complete message a client received
      is accepted with the file sent for it, and shows the bytes of the media buffer its log names. */
  lemma FramesArrive(cfg: Config, caps: Caps, es: seq<Event>, c: ClientView, media: seq<seq<Memory>>, times: seq<nat>,
                     j: nat)
    requires Known(After(cfg, caps, es), c) && WithoutHeaders(c.trail.items) && Payloadable(media, times)
    requires var stream := After(cfg, caps, es).past.stream;
             && |media| == |stream|
             && forall n :: 0 <= n < |media| ==> stream[n].bytes == Encode(MessageFor(Payloaded(media[n]), times[n]))
    requires MESSAGE_SIZE * (j + 1) <= |c.trail.wire|
    ensures j < |c.trail.log| && 0 <= c.trail.log[j] < |media|
    ensures var n, msg := c.trail.log[j], Decode(c.trail.wire[MESSAGE_SIZE * j..MESSAGE_SIZE * (j + 1)]);
            Names(msg, media[n], times[n])
  {
    var msgs := Messages(media, times);
    forall n | 0 <= n < |msgs|
      ensures Encodable(msgs[n]) && msgs[n] == MessageFor(Payloaded(media[n]), times[n])
    {
      MessagesEncode(media, times, n);
    }
    MessagesArrive(cfg, caps, es, c, msgs, j);
    MessageNames(media[c.trail.log[j]], times[c.trail.log[j]]);
  }
}

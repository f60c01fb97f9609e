/** Stream headers: which of them a client has been sent before each of its buffers. */
module Headers {
  import opened Basics
  import opened Buffers
  import opened Positions
  import opened Clients

  /** The headers most recently sent. */
  function LastBlock(items: seq<Item>): Option<seq<Buffer>> {
    if items == [] then None
    else if items[|items| - 1].Block? then Some(items[|items| - 1].headers)
    else LastBlock(items[..|items| - 1])
  }

  /** Each data buffer whose caps carry headers follows exactly those headers. */
  ghost predicate HeadersInForce(items: seq<Item>) {
    forall k :: 0 <= k < |items| && items[k].Data? && items[k].caps.header != None
                ==> LastBlock(items[..k]) == items[k].caps.header
  }

  ghost predicate HeaderLink(c: ClientView) {
    && HeadersInForce(c.trail.items)
    && (c.caps != None && c.caps.value.header != None ==> LastBlock(c.trail.items) == c.caps.value.header)
  }

  // ---- The order of the items ----

  /** Headers have to be sent in front of a buffer: it is the first one under caps with headers since the client was
      added or since one under caps without, or its headers differ from those of the buffer before it and are to be sent
      again. `k` is where what is sent for the buffer begins. */
  ghost predicate IsDue(items: seq<Item>, k: nat, header: Option<seq<Buffer>>, resend: bool)
    requires k <= |items|
  {
    header != None
    && (k == 0 || (items[k - 1].Data? && (items[k - 1].caps.header == None
                                          || (resend && items[k - 1].caps.header != header))))
  }

  /** A block stands right in front of a buffer under caps with these headers, and only where they are due; a buffer
      without a block in front of it stands where none are. */
  ghost predicate InOrder(items: seq<Item>, k: nat, resend: bool)
    requires k < |items|
  {
    match items[k]
    case Block(headers) =>
      && k + 1 < |items| && items[k + 1].Data? && items[k + 1].caps.header == Some(headers)
      && IsDue(items, k, Some(headers), resend)
    case Data(_, caps) => (k > 0 && items[k - 1].Block?) || !IsDue(items, k, caps.header, resend)
  }

  ghost predicate LaidOut(items: seq<Item>, resend: bool) {
    forall k :: 0 <= k < |items| ==> InOrder(items, k, resend)
  }

  /** The client has the caps of the last buffer queued to it. */
  ghost predicate CapsLink(c: ClientView) {
    var items := c.trail.items;
    if items == [] then c.caps == None
    else items[|items| - 1].Data? && c.caps == Some(items[|items| - 1].caps)
  }

  lemma AppendInOrder(items: seq<Item>, more: seq<Item>, k: nat, resend: bool)
    requires k < |items| && InOrder(items, k, resend)
    ensures InOrder(items + more, k, resend)
  {
  }

  lemma QueueToLaidOut(c: ClientView, buf: Buffer, caps: Caps, resend: bool)
    requires LaidOut(c.trail.items, resend) && CapsLink(c)
    ensures LaidOut(QueueTo(c, buf, caps, resend).trail.items, resend) && CapsLink(QueueTo(c, buf, caps, resend))
  {
    var items, more := c.trail.items, NewItems(c.caps, buf, caps, resend);
    forall k | 0 <= k < |items + more|
      ensures InOrder(items + more, k, resend)
    {
      if k < |items| {
        AppendInOrder(items, more, k, resend);
      }
    }
  }

  /** Where the last block before item `k` is, or -1. */
  function BlockBefore(items: seq<Item>, k: nat): (j: int)
    requires k <= |items|
    ensures -1 <= j < k && (j != -1 ==> items[j].Block?)
    ensures forall m :: j < m < k ==> items[m].Data?
  {
    if k == 0 then -1 else if items[k - 1].Block? then k - 1 else BlockBefore(items, k - 1)
  }

  lemma {:induction false} BlockBeforeIsLast(items: seq<Item>, k: nat)
    requires k <= |items|
    ensures var j := BlockBefore(items, k); LastBlock(items[..k]) == if j == -1 then None else Some(items[j].headers)
  {
    if k > 0 {
      assert items[..k][..k - 1] == items[..k - 1];
      BlockBeforeIsLast(items, k - 1);
    }
  }

  /** Headers that changed were held back from item `m`. */
  ghost predicate HeldBackAt(items: seq<Item>, m: nat) {
    && 0 < m < |items| && items[m - 1].Data? && items[m].Data?
    && items[m - 1].caps.header != None && items[m].caps.header != None
    && items[m - 1].caps.header != items[m].caps.header
  }

  /** From the last block up to a buffer under caps with headers there are only such buffers. */
  lemma {:induction false} BlockComesFirst(items: seq<Item>, k: nat, resend: bool)
    requires LaidOut(items, resend) && k < |items| && items[k].Data? && items[k].caps.header != None
    ensures BlockBefore(items, k) != -1
    ensures forall m :: BlockBefore(items, k) < m <= k ==> items[m].Data? && items[m].caps.header != None
  {
    assert InOrder(items, k, resend);
    if items[k - 1].Data? {
      BlockComesFirst(items, k - 1, resend);
    } else {
      assert InOrder(items, k - 1, resend);
    }
  }

  lemma {:induction false} SameUnlessHeldBack(items: seq<Item>, j: nat, k: nat)
    requires j <= k < |items| && forall m :: j <= m <= k ==> items[m].Data? && items[m].caps.header != None
    ensures items[k].caps.header == items[j].caps.header || exists m :: j < m <= k && HeldBackAt(items, m)
    decreases k
  {
    if j < k {
      SameUnlessHeldBack(items, j, k - 1);
      if items[k].caps.header != items[k - 1].caps.header {
        assert HeldBackAt(items, k);
      }
    }
  }

  /** A buffer under caps with headers follows a block, and has its own headers in force exactly if they are those of
      the first buffer behind that block; so they are unless changed headers have been held back since. */
  lemma InForceIff(items: seq<Item>, k: nat, resend: bool)
    requires LaidOut(items, resend) && k < |items| && items[k].Data? && items[k].caps.header != None
    ensures var j := BlockBefore(items, k);
            && 0 <= j && items[j + 1].Data?
            && (LastBlock(items[..k]) == items[k].caps.header <==> items[j + 1].caps.header == items[k].caps.header)
            && (LastBlock(items[..k]) == items[k].caps.header || exists m :: j + 1 < m <= k && HeldBackAt(items, m))
    ensures resend ==> LastBlock(items[..k]) == items[k].caps.header
  {
    var j := BlockBefore(items, k);
    BlockBeforeIsLast(items, k);
    BlockComesFirst(items, k, resend);
    assert InOrder(items, j, resend);
    SameUnlessHeldBack(items, j + 1, k);
    if resend {
      forall m | j + 1 < m <= k
        ensures !HeldBackAt(items, m)
      {
        assert InOrder(items, m, resend);
      }
    }
  }

  // ---- One buffer more ----

  lemma LastBlockOfMore(items: seq<Item>, i: Item)
    ensures LastBlock(items + [i]) == if i.Block? then Some(i.headers) else LastBlock(items)
  {
    assert (items + [i])[..|items|] == items;
  }

  lemma HeadersInForceOfMore(items: seq<Item>, i: Item)
    requires HeadersInForce(items)
    requires i.Data? && i.caps.header != None ==> LastBlock(items) == i.caps.header
    ensures HeadersInForce(items + [i])
  {
    var more := items + [i];
    forall k | 0 <= k < |more| && more[k].Data? && more[k].caps.header != None
      ensures LastBlock(more[..k]) == more[k].caps.header
    {
      assert more[..k] == items[..k];
      if k == |items| {
        assert items[..k] == items;
      }
    }
  }

  lemma QueueToHeaders(c: ClientView, buf: Buffer, caps: Caps)
    requires HeaderLink(c)
    ensures HeaderLink(QueueTo(c, buf, caps, true))
  {
    var items, due := c.trail.items, HeadersDue(c.caps, caps, true);
    var data := Data(buf, caps);
    match due
    case None =>
      HeadersInForceOfMore(items, data);
      LastBlockOfMore(items, data);
    case Some(headers) =>
      LastBlockOfMore(items, Block(headers));
      HeadersInForceOfMore(items, Block(headers));
      HeadersInForceOfMore(items + [Block(headers)], data);
      LastBlockOfMore(items + [Block(headers)], data);
      assert items + [Block(headers), data] == items + [Block(headers)] + [data];
  }

  /** The headers of new caps differ from those the client has, and are not to be sent again. */
  predicate HoldsBack(c: ClientView, caps: Caps, resend: bool) {
    && !resend && c.caps != None && c.caps.value.header != None && caps.header != None
    && c.caps.value.header != caps.header
  }

  /** Then the headers last sent are the old ones, while the client counts as having the new caps. */
  lemma HeldBackBreaksLink(c: ClientView, buf: Buffer, caps: Caps, resend: bool)
    requires HeaderLink(c) && HoldsBack(c, caps, resend)
    ensures !HeaderLink(QueueTo(c, buf, caps, resend))
  {
    var items, r := c.trail.items, QueueTo(c, buf, caps, resend);
    assert r.trail.items == items + [Data(buf, caps)] && r.caps == Some(caps);
    LastBlockOfMore(items, Data(buf, caps));
    assert LastBlock(items) == c.caps.value.header;
  }

  lemma SameAsResend(c: ClientView, buf: Buffer, caps: Caps, resend: bool)
    requires !HoldsBack(c, caps, resend)
    ensures QueueTo(c, buf, caps, resend) == QueueTo(c, buf, caps, true)
  {
    assert HeadersDue(c.caps, caps, resend) == HeadersDue(c.caps, caps, true);
  }

  /** Headers stay in force when a buffer is queued exactly unless headers that changed are not to be sent again. */
  lemma HeadersStayInForceIff(c: ClientView, buf: Buffer, caps: Caps, resend: bool)
    requires HeaderLink(c)
    ensures HeaderLink(QueueTo(c, buf, caps, resend)) <==> !HoldsBack(c, caps, resend)
  {
    if HoldsBack(c, caps, resend) {
      HeldBackBreaksLink(c, buf, caps, resend);
    } else {
      SameAsResend(c, buf, caps, resend);
      QueueToHeaders(c, buf, caps);
    }
  }
}

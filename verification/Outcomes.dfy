/** How a write event ends, told from the answers of the socket. */
module Outcomes {
  import opened Basics
  import opened Buffers
  import opened Vectors
  import opened Positions
  import opened Clients
  import opened ClientSafety
  import opened WriteSafety
  import opened Draining

  /** The first answer by which a socket does not accept bytes, or the number of answers. */
  function FirstRefusal(replies: seq<Reply>): (k: nat)
    ensures k <= |replies| && (k < |replies| ==> !replies[k].Accepts?)
    ensures forall j :: 0 <= j < k ==> replies[j].Accepts?
  {
    if replies == [] || !replies[0].Accepts? then 0 else FirstRefusal(replies[1..]) + 1
  }

  predicate OnlyAccepts(replies: seq<Reply>) { forall j :: 0 <= j < |replies| ==> replies[j].Accepts? }

  // ---- While the socket accepts bytes ----

  /** What a write event leaves of a client while the socket refuses nothing: its flush has ended with nothing left to
      send, or it stays with its status; with nothing left to send it then waits for the next buffer, unwatched. */
  ghost predicate Unrefused(w: Written, c: ClientView) {
    if w.stays then
      && w.client.status == c.status && w.client.trail.flushed == c.trail.flushed
      && (w.client.sending == [] ==> w.client.bufpos == -1 && !w.client.source)
    else
      w.client.status == Removed && w.client.trail.flushed && c.flushcount != -1 && w.client.sending == []
  }

  /** Only a client that is placed, or is not to be, can be flushing. */
  ghost predicate Writable(c: ClientView, sc: Scene) {
    CursorInside(c, sc.queue) && OffsetInside(c) && -1 <= c.flushcount && (Unplaced(c) ==> c.flushcount == -1)
  }

  /** What the first half of a round makes of a client. */
  ghost predicate LoadsAs(r: Ready, c: ClientView) {
    && r.client.status == c.status && r.client.trail.flushed == c.trail.flushed
    && r.client.flushcount == (if r.Loaded? && c.sending == [] && c.flushcount != -1 then c.flushcount - 1
                               else c.flushcount)
    && (c.flushcount != -1 ==> r.client.flushcount - r.client.bufpos == c.flushcount - c.bufpos)
    && (Unplaced(r.client) ==> Unplaced(c))
    && (r.Wait? ==> r.client.sending == [] && r.client.bufpos == -1 && !r.client.source
                    && c.flushcount != 0 && (c.bufpos == -1 || c.flushcount == -1))
    && (r.Flushed? ==> r.client.sending == [] && c.flushcount == 0)
    && (r.Loaded? ==> r.client.sending != [] && (c.sending == [] ==> c.flushcount != 0))
  }

  lemma PickLoads(c: ClientView, sc: Scene)
    requires 0 <= c.bufpos < |sc.queue| && c.sending == []
    ensures LoadsAs(PickUnlessFlushed(c, sc), c)
    ensures PickUnlessFlushed(c, sc).Loaded? <==> c.flushcount != 0
  {
    if c.flushcount != 0 {
      PickFields(c, sc);
    }
  }

  lemma PlaceLoads(c: ClientView, p: Placement, sc: Scene)
    requires -1 <= p.position < |sc.queue| && -1 <= p.bufpos < |sc.queue| && (p.position == -1 ==> p.bufpos == -1)
    requires OffsetInside(c) && c.sending == [] && c.flushcount == -1
    ensures LoadsAs(Place(c, p, sc), c)
  {
    if p.position >= 0 {
      PickLoads(StartAt(c.(bufpos := p.bufpos, sync := p.sync), p.position, sc.total), sc);
    }
  }

  lemma LoadUnrefused(c: ClientView, sc: Scene)
    requires Writable(c, sc)
    ensures LoadsAs(Load(c, sc), c) && Writable(Load(c, sc).client, sc)
  {
    if c.sending == [] && c.bufpos != -1 {
      if Unplaced(c) {
        PlaceLoads(c, NewPosition(sc.queue, c.bufpos, c.sync, c.burst), sc);
      } else {
        PickLoads(c, sc);
      }
    }
  }

  /** The round in which the socket accepts bytes. */
  lemma AcceptsGoesOn(c: ClientView, sc: Scene, replies: seq<Reply>) returns (r: ClientView)
    requires Writable(c, sc) && Load(c, sc).Loaded? && replies != [] && replies[0].Accepts?
    ensures Writable(r, sc) && Write(c, sc, replies) == Write(r, sc, replies[1..])
    ensures r.status == c.status && r.trail.flushed == c.trail.flushed
    ensures r.flushcount != -1 ==> c.flushcount != -1
    ensures r == AfterSend(Load(c, sc).client, Accepted(Load(c, sc).client, replies[0].bytes))
  {
    LoadUnrefused(c, sc);
    WriteStep(c, sc, replies);
    r := Answer(Load(c, sc).client, replies[0]).client;
  }

  lemma {:induction false} WriteUnrefused(c: ClientView, sc: Scene, replies: seq<Reply>)
    requires Writable(c, sc) && OnlyAccepts(replies)
    ensures Unrefused(Write(c, sc, replies), c)
    decreases |replies|
  {
    LoadUnrefused(c, sc);
    if Load(c, sc).Loaded? && replies != [] {
      var r := AcceptsGoesOn(c, sc, replies);
      WriteUnrefused(r, sc, replies[1..]);
    } else {
      WriteStep(c, sc, replies);
    }
  }

  // ---- At the first answer that refuses ----

  /** What is left at the answer that refuses: nothing to send, so that the answer is not asked for, or what it says. */
  function AtRefusal(before: Written, answer: Option<Reply>): Written {
    if !before.stays || before.client.sending == [] || answer == None then before
    else match answer.value
      case Reset => Written(before.client.(status := Closed), false)
      case Broken => Written(before.client.(status := Failed), false)
      case _ => before
  }

  function AnswerAt(replies: seq<Reply>, k: nat): Option<Reply> { if k < |replies| then Some(replies[k]) else None }

  /** A write event whose first answer refuses, or that has none. */
  lemma WriteStops(c: ClientView, sc: Scene, replies: seq<Reply>)
    requires Writable(c, sc) && FirstRefusal(replies) == 0
    ensures Write(c, sc, replies) == AtRefusal(Write(c, sc, []), AnswerAt(replies, 0))
  {
    LoadUnrefused(c, sc);
    WriteStep(c, sc, replies);
    WriteStep(c, sc, []);
  }

  /** With nothing to send no answer is asked for. */
  lemma WriteAsksNothing(c: ClientView, sc: Scene, replies: seq<Reply>, others: seq<Reply>, answer: Option<Reply>)
    requires Writable(c, sc) && !Load(c, sc).Loaded?
    ensures Write(c, sc, replies) == AtRefusal(Write(c, sc, others), answer)
  {
    LoadUnrefused(c, sc);
    WriteStep(c, sc, replies);
    WriteStep(c, sc, others);
  }

  /** A write event is what it is for the answers before the first refusal, and then what that refusal says. */
  lemma {:induction false} WriteEnds(c: ClientView, sc: Scene, replies: seq<Reply>)
    requires Writable(c, sc)
    ensures var k := FirstRefusal(replies);
            Write(c, sc, replies) == AtRefusal(Write(c, sc, replies[..k]), AnswerAt(replies, k))
    decreases |replies|
  {
    var k := FirstRefusal(replies);
    if k == 0 {
      assert replies[..k] == [];
      WriteStops(c, sc, replies);
    } else if Load(c, sc).Loaded? {
      var rest := replies[1..];
      var r := AcceptsGoesOn(c, sc, replies);
      var r1 := AcceptsGoesOn(c, sc, replies[..k]);
      assert replies[..k][1..] == rest[..k - 1] && AnswerAt(replies, k) == AnswerAt(rest, k - 1);
      WriteEnds(r, sc, rest);
    } else {
      WriteAsksNothing(c, sc, replies, replies[..k], AnswerAt(replies, k));
    }
  }

  /** What the refusal decides about a client that the answers before it left as in `before`. */
  ghost predicate Decides(w: Written, before: ClientView, status: Status, answer: Option<Reply>) {
    var asked := answer != None && before.sending != [];
    && (!w.stays <==> w.client.trail.flushed || (asked && (answer.value == Reset || answer.value == Broken)))
    && (w.stays ==> w.client == before && w.client.status == status)
    && (w.client.trail.flushed ==> w.client == before && w.client.status == Removed && w.client.sending == [])
    && (!w.stays && !w.client.trail.flushed ==>
          w.client == before.(status := if answer.value == Reset then Closed else Failed))
  }

  lemma RefusalDecides(before: Written, c: ClientView, answer: Option<Reply>)
    requires Unrefused(before, c) && !c.trail.flushed && (answer != None ==> !answer.value.Accepts?)
    ensures Decides(AtRefusal(before, answer), before.client, c.status, answer)
  {
  }

  /** A client leaves by a write event exactly if its flush ends, or if the first answer that refuses is asked for while
      there is something to send, and is a reset or a failure; its status says which. Otherwise it stays as the answers
      before left it, with its status and with everything unsent still on its list. */
  lemma ClientLeavesIff(c: ClientView, sc: Scene, replies: seq<Reply>)
    requires Writable(c, sc) && !c.trail.flushed
    ensures var k := FirstRefusal(replies);
            Decides(Write(c, sc, replies), Write(c, sc, replies[..k]).client, c.status, AnswerAt(replies, k))
  {
    var k := FirstRefusal(replies);
    WriteUnrefused(c, sc, replies[..k]);
    WriteEnds(c, sc, replies);
    RefusalDecides(Write(c, sc, replies[..k]), c, AnswerAt(replies, k));
  }

  // ---- How far a write event gets ----

  /** The bytes ahead of a placed client: on its list, in the headers due, and in the queue up to its cursor. */
  function BytesAhead(c: ClientView, sc: Scene): nat
    requires CursorInside(c, sc.queue) && OffsetInside(c)
  {
    |RestOf(c.sending, c.bufoffset)| + HeaderBytes(c, sc) + ByteSum(sc.queue, c.bufpos + 1)
  }

  /** A placed client that can be written to, with `left` bytes to send in addition to those sent so far. */
  ghost predicate Ahead(c: ClientView, sc: Scene, left: int) {
    && CursorInside(c, sc.queue) && OffsetInside(c) && CanSend(c) && !Unplaced(c)
    && BytesAhead(c, sc) + c.bytesSent == left
  }

  lemma LoadConserves(c: ClientView, sc: Scene, left: int)
    requires SceneSendable(sc) && Ahead(c, sc, left)
    ensures Ahead(Load(c, sc).client, sc, left)
  {
    if c.sending == [] && c.bufpos != -1 && c.flushcount != 0 {
      PickConserves(c, sc, left);
    }
  }

  lemma PickConserves(c: ClientView, sc: Scene, left: int)
    requires SceneSendable(sc) && Ahead(c, sc, left) && c.sending == [] && c.bufpos != -1
    ensures Ahead(Pick(c, sc), sc, left)
  {
    PickFields(c, sc);
    PickBacklog(c, sc);
    assert BytesAhead(c, sc) == Backlog(c, sc) && BytesAhead(Pick(c, sc), sc) == Backlog(Pick(c, sc), sc);
  }

  lemma AnswerConserves(c: ClientView, sc: Scene, reply: Reply, left: int)
    requires Ahead(c, sc, left) && c.sending != []
    ensures match Answer(c, reply)
            case Goes(r) => Ahead(r, sc, left)
            case Ends(w) => w.client == c.(status := w.client.status)
  {
    if reply.Accepts? {
      var n := Accepted(c, reply.bytes);
      SentIsOff(c, n);
      SentCanSend(c, n);
    }
  }

  /** No byte is lost or sent twice: what is sent in a write event, however its answers cut it up, and what is left to
      send is what there was. */
  lemma {:induction false} WriteConserves(c: ClientView, sc: Scene, replies: seq<Reply>, left: int)
    requires SceneSendable(sc) && Ahead(c, sc, left)
    ensures var r := Write(c, sc, replies).client;
            CursorInside(r, sc.queue) && OffsetInside(r) && BytesAhead(r, sc) + r.bytesSent == left
    decreases |replies|
  {
    LoadConserves(c, sc, left);
    WriteStep(c, sc, replies);
    var r := Load(c, sc);
    if r.Loaded? && replies != [] {
      AnswerConserves(r.client, sc, replies[0], left);
      if replies[0].Accepts? {
        WriteConserves(Answer(r.client, replies[0]).client, sc, replies[1..], left);
      }
    }
  }

  /** All buffers that were counted when the flush began are ahead of the client. */
  predicate CanBeFlushed(c: ClientView) { 0 <= c.flushcount <= c.bufpos + 1 }

  lemma LoadKeepsFlush(r: Ready, c: ClientView)
    requires LoadsAs(r, c) && -1 <= c.flushcount && -1 <= c.bufpos
    ensures match r
            case Loaded(c1) => CanBeFlushed(c1) <==> CanBeFlushed(c)
            case Flushed(_) => CanBeFlushed(c)
            case Wait(_) => !CanBeFlushed(c)
  {
  }

  /** A round in which the socket takes bytes. */
  lemma DrainStep(c: ClientView, sc: Scene, replies: seq<Reply>) returns (r: ClientView)
    requires Writable(c, sc) && CanSend(c) && SceneSendable(sc) && Load(c, sc).Loaded?
    requires replies != [] && replies[0].Accepts? && replies[0].bytes > 0
    ensures Writable(r, sc) && CanSend(r) && Backlog(r, sc) < Backlog(c, sc)
    ensures (CanBeFlushed(r) <==> CanBeFlushed(c)) && Write(c, sc, replies) == Write(r, sc, replies[1..])
  {
    LoadBacklog(c, sc);
    LoadUnrefused(c, sc);
    LoadKeepsFlush(Load(c, sc), c);
    r := AcceptsGoesOn(c, sc, replies);
    SendProgresses(Load(c, sc).client, sc, replies[0].bytes);
  }

  /** With nothing to send the write event ends. */
  lemma DrainEnds(c: ClientView, sc: Scene, replies: seq<Reply>)
    requires Writable(c, sc) && !Load(c, sc).Loaded?
    ensures Write(c, sc, replies).stays <==> !CanBeFlushed(c)
  {
    LoadUnrefused(c, sc);
    LoadKeepsFlush(Load(c, sc), c);
    WriteStep(c, sc, replies);
  }

  lemma LoadedHasBytes(c: ClientView, sc: Scene)
    requires Writable(c, sc) && CanSend(c) && SceneSendable(sc) && Load(c, sc).Loaded?
    ensures Backlog(c, sc) > 0
  {
    LoadBacklog(c, sc);
    var r := Load(c, sc).client;
    assert |RestOf(r.sending, r.bufoffset)| > 0;
  }

  /** A socket that goes on taking bytes ends the flush of a client exactly if there are as many buffers ahead of it as
      are left to flush; any other client stays, and waits for the next buffer. */
  lemma {:induction false} DrainFlushesIff(c: ClientView, sc: Scene, replies: seq<Reply>)
    requires Writable(c, sc) && CanSend(c) && SceneSendable(sc)
    requires forall i :: 0 <= i < |replies| ==> replies[i].Accepts? && replies[i].bytes > 0
    requires |replies| >= Backlog(c, sc)
    ensures Write(c, sc, replies).stays <==> !CanBeFlushed(c)
    decreases |replies|
  {
    if Load(c, sc).Loaded? {
      LoadedHasBytes(c, sc);
      var r := DrainStep(c, sc, replies);
      DrainFlushesIff(r, sc, replies[1..]);
    } else {
      DrainEnds(c, sc, replies);
    }
  }
}

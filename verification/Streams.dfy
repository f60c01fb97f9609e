/** What of the rendered buffers becomes the stream, and what is kept as stream headers. */
module Streams {
  import opened Basics
  import opened Buffers
  import opened Clients
  import opened Sink
  import opened SinkSafety
  import opened QueueSafety
  import opened Runs
  import opened RunFacts
  import opened Retention

  // ---- The stream ----

  /** The data buffers rendered during a run while the element runs, which is from a start to the next stop; a stop that
      does not take place does not count. */
  ghost function Played(cfg: Config, s: SinkView, es: seq<Event>, running: bool): seq<Buffer>
    requires Inv(cfg, s)
    decreases |es|
  {
    if es == [] then []
    else if !Enabled(s, es[0]) then Played(cfg, s, es[1..], running)
    else
      StepInv(cfg, s, es[0]);
      var rest := Played(cfg, Step(cfg, s, es[0]), es[1..], es[0] == StartE || (running && es[0] != StopE));
      if running && es[0].RenderE? && !es[0].buf.header then [es[0].buf] + rest else rest
  }

  /** What one event adds to the stream. */
  function Adds(s: SinkView, e: Event): seq<Buffer> {
    if s.running && e.RenderE? && !e.buf.header then [e.buf] else []
  }

  ghost predicate StepPlays(s: SinkView, e: Event, t: SinkView) {
    && t.past.stream == s.past.stream + Adds(s, e)
    && (t.running <==> e == StartE || (s.running && e != StopE))
  }

  lemma RenderPlays(cfg: Config, s: SinkView, b: Buffer)
    ensures StepPlays(s, RenderE(b), Render(cfg, s, b))
  {
    if s.running && !b.header {
      QueueBufferFrame(cfg, Noted(s, b), b);
    }
  }

  lemma StartPlays(cfg: Config, s: SinkView)
    requires Inv(cfg, s)
    ensures StepPlays(s, StartE, Sink.Start(s))
  {
    StartInv(cfg, s);
    assert s.past.stream + [] == s.past.stream;
  }

  lemma StopPlays(cfg: Config, s: SinkView)
    requires Inv(cfg, s)
    ensures StepPlays(s, StopE, Stop(s))
  {
    StopKeeps(s);
    assert !Stop(s).running && s.past.stream + [] == s.past.stream;
  }

  lemma OtherPlays(cfg: Config, s: SinkView, e: Event)
    requires Inv(cfg, s) && CursorsInside(s) && !e.RenderE? && e != StartE && e != StopE
    ensures StepPlays(s, e, Step(cfg, s, e))
  {
    StepMild(cfg, s, e);
    assert s.past.stream + [] == s.past.stream;
  }

  lemma StepIsPlayed(cfg: Config, s: SinkView, e: Event)
    requires Inv(cfg, s) && CursorsInside(s)
    ensures StepPlays(s, e, Step(cfg, s, e))
  {
    if e.RenderE? {
      RenderPlays(cfg, s, e.buf);
      ByEvent(cfg, s, e, (t: SinkView) => StepPlays(s, e, t));
    } else if e == StartE {
      StartPlays(cfg, s);
      ByEvent(cfg, s, e, (t: SinkView) => StepPlays(s, e, t));
    } else if e == StopE {
      StopPlays(cfg, s);
      ByEvent(cfg, s, e, (t: SinkView) => StepPlays(s, e, t));
    } else {
      OtherPlays(cfg, s, e);
    }
  }

  lemma PlayedUnfolds(cfg: Config, s: SinkView, es: seq<Event>)
    requires Inv(cfg, s) && es != [] && Enabled(s, es[0]) && CursorsInside(s) && Inv(cfg, Step(cfg, s, es[0]))
    ensures var running := es[0] == StartE || (s.running && es[0] != StopE);
            Played(cfg, s, es, s.running) == Adds(s, es[0]) + Played(cfg, Step(cfg, s, es[0]), es[1..], running)
  {
    var rest := Played(cfg, Step(cfg, s, es[0]), es[1..], es[0] == StartE || (s.running && es[0] != StopE));
    assert [] + rest == rest;
  }

  lemma PlayedStep(cfg: Config, s: SinkView, es: seq<Event>)
    requires Inv(cfg, s) && es != [] && Enabled(s, es[0])
    ensures CursorsInside(s) && Inv(cfg, Step(cfg, s, es[0]))
    ensures var t := Step(cfg, s, es[0]);
            && t.past.stream == s.past.stream + Adds(s, es[0])
            && Played(cfg, s, es, s.running) == Adds(s, es[0]) + Played(cfg, t, es[1..], t.running)
  {
    StepInv(cfg, s, es[0]);
    StepIsPlayed(cfg, s, es[0]);
    PlayedUnfolds(cfg, s, es);
  }

  lemma Associates(a: seq<Buffer>, b: seq<Buffer>, c: seq<Buffer>)
    ensures (a + b) + c == a + (b + c)
  {
  }

  lemma {:induction false} RunIsPlayed(cfg: Config, s: SinkView, es: seq<Event>)
    requires Inv(cfg, s)
    ensures Run(cfg, s, es).past.stream == s.past.stream + Played(cfg, s, es, s.running)
    decreases |es|
  {
    if es != [] {
      if Enabled(s, es[0]) {
        PlayedStep(cfg, s, es);
        var t := Step(cfg, s, es[0]);
        RunIsPlayed(cfg, t, es[1..]);
        Associates(s.past.stream, Adds(s, es[0]), Played(cfg, t, es[1..], t.running));
      } else {
        RunIsPlayed(cfg, s, es[1..]);
      }
    }
  }

  /** The stream is every data buffer rendered while the element ran, in order, and nothing else. */
  lemma StreamIsRendered(cfg: Config, caps: Caps, es: seq<Event>)
    ensures Inv(cfg, Initial(caps))
    ensures After(cfg, caps, es).past.stream == Played(cfg, Initial(caps), es, false)
  {
    InitialInv(cfg, caps);
    RunIsPlayed(cfg, Initial(caps), es);
    assert [] + Played(cfg, Initial(caps), es, false) == Played(cfg, Initial(caps), es, false);
  }

  // ---- The caps ----

  /** The caps last set in a run. */
  function CapsAfter(caps: Caps, es: seq<Event>): Caps
    decreases |es|
  {
    if es == [] then caps else CapsAfter(if es[0].CapsE? then es[0].caps else caps, es[1..])
  }

  lemma SocketKeepsCaps(cfg: Config, s: SinkView, h: Handle, cond: Condition, incoming: seq<ReadReply>,
                        replies: seq<Reply>, window: bool)
    requires CursorsInside(s)
    ensures SocketCondition(cfg, s, h, cond, incoming, replies, window).caps == s.caps
  {
  }

  lemma ClientsStepCaps(cfg: Config, s: SinkView, e: Event)
    requires CursorsInside(s) && IsAboutClients(e)
    ensures Step(cfg, s, e).caps == s.caps
  {
    ClearKeeps(s, 0);
    ByEvent(cfg, s, e, (t: SinkView) => t.caps == s.caps);
  }

  lemma RenderKeepsCaps(cfg: Config, s: SinkView, b: Buffer)
    ensures Render(cfg, s, b).caps == s.caps
  {
    PassFrame(Walk(Prepend(Noted(s, b), b), 0, 0), LimitOf(cfg, [b] + s.queue));
  }

  lemma StartStopKeepCaps(s: SinkView)
    ensures Sink.Start(s).caps == s.caps && Stop(s).caps == s.caps
  {
    ClearKeeps(s, 0);
  }

  lemma StepCaps(cfg: Config, s: SinkView, e: Event)
    requires CursorsInside(s)
    ensures Step(cfg, s, e).caps == if e.CapsE? then e.caps else s.caps
  {
    if IsAboutClients(e) {
      ClientsStepCaps(cfg, s, e);
    } else {
      match e {
        case CapsE(_) =>
        case RenderE(b) => RenderKeepsCaps(cfg, s, b);
        case SocketE(h, cond, incoming, replies, window) => SocketKeepsCaps(cfg, s, h, cond, incoming, replies, window);
        case _ => StartStopKeepCaps(s);
      }
      ByEvent(cfg, s, e, (t: SinkView) => t.caps == if e.CapsE? then e.caps else s.caps);
    }
  }

  lemma {:induction false} RunCaps(cfg: Config, s: SinkView, es: seq<Event>)
    requires Inv(cfg, s)
    ensures Run(cfg, s, es).caps == CapsAfter(s.caps, es)
    decreases |es|
  {
    if es != [] {
      StepInv(cfg, s, es[0]);
      if Enabled(s, es[0]) {
        StepCaps(cfg, s, es[0]);
        RunCaps(cfg, Step(cfg, s, es[0]), es[1..]);
      } else {
        RunCaps(cfg, s, es[1..]);
      }
    }
  }

  /** The caps under which buffers are queued to clients are those last set. */
  lemma CapsAreLastSet(cfg: Config, caps: Caps, es: seq<Event>)
    ensures After(cfg, caps, es).caps == CapsAfter(caps, es)
  {
    InitialInv(cfg, caps);
    RunCaps(cfg, Initial(caps), es);
  }

  // ---- Stream headers ----

  /** Buffers rendered one after the other. */
  function RenderAll(cfg: Config, s: SinkView, bs: seq<Buffer>): SinkView {
    if bs == [] then s else Render(cfg, RenderAll(cfg, s, bs[..|bs| - 1]), bs[|bs| - 1])
  }

  /** The header buffers that no data buffer follows. */
  function OpenHeaders(bs: seq<Buffer>): seq<Buffer> {
    if bs == [] || !bs[|bs| - 1].header then [] else OpenHeaders(bs[..|bs| - 1]) + [bs[|bs| - 1]]
  }

  /** The last header buffers without data between them. */
  function LastHeaders(bs: seq<Buffer>): seq<Buffer> {
    if bs == [] then []
    else if bs[|bs| - 1].header then OpenHeaders(bs)
    else LastHeaders(bs[..|bs| - 1])
  }

  lemma OpenAreLast(bs: seq<Buffer>)
    ensures bs != [] && bs[|bs| - 1].header ==> LastHeaders(bs) == OpenHeaders(bs)
    ensures bs != [] && !bs[|bs| - 1].header ==> OpenHeaders(bs) == []
  {
  }

  lemma RenderKeepsHeaders(cfg: Config, s: SinkView, b: Buffer)
    requires s.running
    ensures var r := Render(cfg, s, b);
            && r.running && r.prevHeader == b.header
            && r.streamheader == (if !b.header then s.streamheader
                                  else if s.prevHeader then s.streamheader + [b] else [b])
  {
    if !b.header {
      PassFrame(Walk(Prepend(Noted(s, b), b), 0, 0), LimitOf(cfg, [b] + s.queue));
    } else {
      assert [] + [b] == [b];
    }
  }

  /** The stream headers kept are the header buffers rendered last without data between them; those before are given up
      when the first of them comes. */
  lemma {:induction false} LastHeadersAreKept(cfg: Config, s: SinkView, bs: seq<Buffer>)
    requires s.running && !s.prevHeader && s.streamheader == []
    ensures var r := RenderAll(cfg, s, bs);
            && r.running && r.streamheader == LastHeaders(bs)
            && r.prevHeader == (bs != [] && bs[|bs| - 1].header)
    decreases |bs|
  {
    if bs != [] {
      var before, b := bs[..|bs| - 1], bs[|bs| - 1];
      LastHeadersAreKept(cfg, s, before);
      RenderKeepsHeaders(cfg, RenderAll(cfg, s, before), b);
      OpenAreLast(before);
      if b.header && !RenderAll(cfg, s, before).prevHeader {
        assert OpenHeaders(before) == [];
      }
    }
  }
}

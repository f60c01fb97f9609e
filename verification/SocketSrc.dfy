/** The reconnecting reader: at the end of one socket the application may install another before the end is passed
    on. */
module SocketSources {
  import opened Basics

  /** A socket, and which data it still has to deliver before its peer's close. */
  type Socket = nat
  type Network = map<Socket, seq<byte>>

  /** The result of one receive call: at most so many bytes (at least one if there are any), a cancellation, an
      error. */
  datatype Receive = Gets(bytes: nat) | Cancelled | Broken

  /** What the handler of the end of a socket does to the source: nothing, or another socket, or none. */
  datatype Handler = Leaves | Installs(socket: Option<Socket>)

  datatype Flow = FlowOk | FlowEos | FlowFlushing | FlowError

  /** The source: its socket, what the sockets still hold, the bytes passed on so far, and all bytes the sockets
      installed so far held when they were installed (`output` and `offered` are history). */
  datatype SourceView = SourceView(socket: Option<Socket>, net: Network, output: seq<byte>, offered: seq<byte>)

  function Pending(s: SourceView): seq<byte> {
    match s.socket
    case None => []
    case Some(socket) => if socket in s.net then s.net[socket] else []
  }

  /** A socket is installed: what it holds is offered from now on. */
  function Install(s: SourceView, socket: Option<Socket>): SourceView {
    var s1 := s.(socket := socket);
    s1.(offered := s1.offered + Pending(s1))
  }

  /** The next answers of the receive calls and of the handler. */
  datatype Script = Script(receives: seq<Receive>, handlers: seq<Handler>)

  /** Bytes a receive call delivers into a buffer of `room` bytes: at least one if there is one. */
  function Delivered(pending: seq<byte>, room: nat, bytes: nat): (n: nat)
    requires room > 0
    ensures n <= room && n <= |pending| && (n == 0 <==> pending == [])
  {
    Min(Max(bytes, 1), Min(room, |pending|))
  }

  /** What a call comes to; `last` is the socket it read from last. */
  datatype Filled = Filled(source: SourceView, flow: Flow, bytes: seq<byte>, last: Option<Socket>)

  /** One call for data. A receive call beyond the last answer delivers what fits; a handler beyond the last one
      leaves the source alone. */
  function Fill(s: SourceView, room: nat, script: Script): Filled
    requires room > 0
    decreases |script.handlers|
  {
    if s.socket == None then Filled(s, FlowError, [], s.socket)
    else
      var answer := if script.receives == [] then Gets(room) else script.receives[0];
      var rest := if script.receives == [] then [] else script.receives[1..];
      match answer
      case Cancelled => Filled(s, FlowFlushing, [], s.socket)
      case Broken => Filled(s, FlowError, [], s.socket)
      case Gets(bytes) =>
        var pending := Pending(s);
        var n := Delivered(pending, room, bytes);
        if n > 0 then
          Filled(s.(net := s.net[s.socket.value := pending[n..]], output := s.output + pending[..n]), FlowOk,
                 pending[..n], s.socket)
        else if script.handlers == [] then Filled(s, FlowEos, [], s.socket)
        else
          match script.handlers[0]
          case Leaves => Filled(s, FlowEos, [], s.socket)
          case Installs(socket) =>
            if socket == s.socket then Filled(s, FlowEos, [], s.socket)
            else if socket == None then Filled(Install(s, socket), FlowEos, [], s.socket)
            else Fill(Install(s, socket), room, Script(rest, script.handlers[1..]))
  }

  /** What was passed on, followed by what the current socket still holds, is all that was ever offered. */
  ghost predicate NothingLost(s: SourceView) { s.output + Pending(s) == s.offered }

  lemma {:induction false} FillLosesNothing(s: SourceView, room: nat, script: Script)
    requires room > 0 && NothingLost(s)
    ensures var f := Fill(s, room, script);
            && NothingLost(f.source)
            && f.source.output == s.output + f.bytes
            && (f.flow == FlowOk <==> f.bytes != [])
            && (f.flow == FlowEos ==>
                  && Pending(f.source) == []
                  && f.last != None && (f.source.socket == None || f.source.socket == f.last))
    decreases |script.handlers|
  {
    if s.socket != None {
      var answer := if script.receives == [] then Gets(room) else script.receives[0];
      var rest := if script.receives == [] then [] else script.receives[1..];
      if answer.Gets? {
        var pending := Pending(s);
        var n := Delivered(pending, room, answer.bytes);
        if n > 0 {
          assert pending == pending[..n] + pending[n..];
          assert (s.output + pending[..n]) + pending[n..] == s.output + pending;
        } else if script.handlers != [] && script.handlers[0].Installs? && script.handlers[0].socket != s.socket {
          assert s.output == s.offered;
          if script.handlers[0].socket != None {
            FillLosesNothing(Install(s, script.handlers[0].socket), room, Script(rest, script.handlers[1..]));
          }
        }
      }
    }
  }

  // ---- Which flow a call returns ----

  function ReceiveAt(script: Script, room: nat, k: nat): Receive {
    if k < |script.receives| then script.receives[k] else Gets(room)
  }

  /** The socket that is read from in the `k`-th attempt: the one there was, or the one the handler before installed. */
  function SocketAt(s: SourceView, script: Script, k: nat): Option<Socket>
    requires k <= |script.handlers|
  {
    if k == 0 then s.socket
    else match script.handlers[k - 1] case Leaves => None case Installs(socket) => socket
  }

  function HeldBy(s: SourceView, socket: Option<Socket>): seq<byte> {
    if socket != None && socket.value in s.net then s.net[socket.value] else []
  }

  /** The `k`-th attempt is followed by another: its socket is at the end, and the handler installs a different one. */
  predicate Retries(s: SourceView, room: nat, script: Script, k: nat)
    requires k <= |script.handlers|
  {
    && k < |script.handlers| && ReceiveAt(script, room, k).Gets? && HeldBy(s, SocketAt(s, script, k)) == []
    && script.handlers[k].Installs? && script.handlers[k].socket != None
    && script.handlers[k].socket != SocketAt(s, script, k)
  }

  /** The last attempt from the `k`-th on. */
  function LastAttempt(s: SourceView, room: nat, script: Script, k: nat): (n: nat)
    requires k <= |script.handlers|
    ensures k <= n <= |script.handlers| && !Retries(s, room, script, n)
    ensures forall j :: k <= j < n ==> Retries(s, room, script, j)
    decreases |script.handlers| - k
  {
    if Retries(s, room, script, k) then LastAttempt(s, room, script, k + 1) else k
  }

  /** What is left of a script after its first attempt. */
  function RestOfScript(script: Script): Script
    requires script.handlers != []
  {
    Script(if script.receives == [] then [] else script.receives[1..], script.handlers[1..])
  }

  lemma RetryShifts(s: SourceView, room: nat, script: Script, k: nat)
    requires Retries(s, room, script, 0) && k + 1 <= |script.handlers|
    ensures var s1, rest := Install(s, script.handlers[0].socket), RestOfScript(script);
            && ReceiveAt(script, room, k + 1) == ReceiveAt(rest, room, k)
            && SocketAt(s, script, k + 1) == SocketAt(s1, rest, k)
            && (Retries(s, room, script, k + 1) <==> Retries(s1, room, rest, k))
  {
  }

  lemma {:induction false} LastAttemptShifts(s: SourceView, room: nat, script: Script, k: nat)
    requires Retries(s, room, script, 0) && k < |script.handlers|
    ensures LastAttempt(s, room, script, k + 1)
            == LastAttempt(Install(s, script.handlers[0].socket), room, RestOfScript(script), k) + 1
    decreases |script.handlers| - k
  {
    RetryShifts(s, room, script, k);
    if Retries(s, room, script, k + 1) {
      LastAttemptShifts(s, room, script, k + 1);
    }
  }

  /** What the last attempt comes to: data, if its socket has any, or the end of the stream, if the receive call is not
      cancelled and does not fail. */
  ghost predicate AttemptYields(f: Filled, answer: Receive, held: seq<byte>, room: nat) {
    match answer
    case Cancelled => f.flow == FlowFlushing && f.bytes == []
    case Broken => f.flow == FlowError && f.bytes == []
    case Gets(n) =>
      if held == [] then f.flow == FlowEos && f.bytes == []
      else f.flow == FlowOk && f.bytes == held[..Min(Max(n, 1), Min(room, |held|))]
  }

  /** An attempt that is followed by another. */
  lemma FillRetries(s: SourceView, room: nat, script: Script)
    requires room > 0 && s.socket != None && Retries(s, room, script, 0)
    ensures Fill(s, room, script) == Fill(Install(s, script.handlers[0].socket), room, RestOfScript(script))
  {
  }

  /** An attempt that is the last one. */
  lemma FillStops(s: SourceView, room: nat, script: Script)
    requires room > 0 && s.socket != None && !Retries(s, room, script, 0)
    ensures Fill(s, room, script).last == s.socket
    ensures AttemptYields(Fill(s, room, script), ReceiveAt(script, room, 0), HeldBy(s, s.socket), room)
  {
  }

  /** What a socket holds does not depend on which one is installed. */
  lemma InstallHolds(s: SourceView, socket: Option<Socket>, other: Option<Socket>)
    ensures HeldBy(Install(s, socket), other) == HeldBy(s, other)
  {
  }

  /** A call that has a socket goes through sockets that are at their end as long as the handler installs different
      ones; the last one decides what it returns. */
  lemma {:induction false} FillYields(s: SourceView, room: nat, script: Script)
    requires room > 0 && s.socket != None
    ensures var f, k := Fill(s, room, script), LastAttempt(s, room, script, 0);
            && f.last == SocketAt(s, script, k)
            && AttemptYields(f, ReceiveAt(script, room, k), HeldBy(s, SocketAt(s, script, k)), room)
    decreases |script.handlers|
  {
    if Retries(s, room, script, 0) {
      var s1, rest := Install(s, script.handlers[0].socket), RestOfScript(script);
      var k := LastAttempt(s1, room, rest, 0);
      FillRetries(s, room, script);
      LastAttemptShifts(s, room, script, 0);
      RetryShifts(s, room, script, k);
      InstallHolds(s, script.handlers[0].socket, SocketAt(s1, rest, k));
      FillYields(s1, room, rest);
    } else {
      FillStops(s, room, script);
    }
  }

  /** A call without a socket fails; else the flow tells how the last attempt went. */
  lemma FlowIff(s: SourceView, room: nat, script: Script)
    requires room > 0
    ensures var f, k := Fill(s, room, script), LastAttempt(s, room, script, 0);
            var answer, held := ReceiveAt(script, room, k), HeldBy(s, SocketAt(s, script, k));
            && (f.flow == FlowOk <==> s.socket != None && answer.Gets? && held != [])
            && (f.flow == FlowEos <==> s.socket != None && answer.Gets? && held == [])
            && (f.flow == FlowFlushing <==> s.socket != None && answer == Cancelled)
            && (f.flow == FlowError <==> s.socket == None || answer == Broken)
  {
    if s.socket != None {
      FillYields(s, room, script);
    }
  }

  /** One call after the other. */
  datatype Calls = Calls(source: SourceView, flows: seq<Flow>, received: seq<byte>)

  function FillAll(s: SourceView, room: nat, scripts: seq<Script>): Calls
    requires room > 0
    decreases |scripts|
  {
    if scripts == [] then Calls(s, [], [])
    else
      var f := Fill(s, room, scripts[0]);
      var r := FillAll(f.source, room, scripts[1..]);
      Calls(r.source, [f.flow] + r.flows, f.bytes + r.received)
  }

  /** Over every run of calls, with sockets replaced by the handler only: what the caller received is what the
      installed sockets held, in order, up to what the last one still holds. */
  lemma ReceivedIsWhatSocketsHeld(s: SourceView, room: nat, scripts: seq<Script>)
    requires room > 0 && NothingLost(s) && s.output == []
    ensures var r := FillAll(s, room, scripts);
            r.received + Pending(r.source) == r.source.offered && r.source.output == r.received
  {
    RunLosesNothing(s, room, scripts);
    assert s.output + FillAll(s, room, scripts).received == FillAll(s, room, scripts).received;
  }

  lemma {:induction false} RunLosesNothing(s: SourceView, room: nat, scripts: seq<Script>)
    requires room > 0 && NothingLost(s)
    ensures var r := FillAll(s, room, scripts);
            NothingLost(r.source) && r.source.output == s.output + r.received
    decreases |scripts|
  {
    if scripts != [] {
      var f := Fill(s, room, scripts[0]);
      FillLosesNothing(s, room, scripts[0]);
      RunLosesNothing(f.source, room, scripts[1..]);
      Associates(s.output, f.bytes, FillAll(f.source, room, scripts[1..]).received);
    }
  }

  lemma Associates(a: seq<byte>, b: seq<byte>, c: seq<byte>)
    ensures (a + b) + c == a + (b + c)
  {
  }

  /** An application that replaces the socket at another time loses exactly what the old one still held. */
  lemma EarlyReplacementLoses(s: SourceView, socket: Option<Socket>)
    requires NothingLost(s)
    ensures NothingLost(Install(s, socket)) <==> Pending(s) == []
  {
    var r := Install(s, socket);
    assert r.offered == s.output + Pending(s) + Pending(r);
    if NothingLost(r) {
      assert |r.output + Pending(r)| == |s.output| + |Pending(r)|;
    }
  }

  class SocketSrc {
    var socket: Option<Socket>
    var net: Network
    ghost var output: seq<byte>
    ghost var offered: seq<byte>

    ghost function View(): SourceView
      reads this
    {
      SourceView(socket, net, output, offered)
    }

    constructor (net: Network)
      ensures View() == SourceView(None, net, [], []) && NothingLost(View())
    {
      socket := None;
      this.net, output, offered := net, [], [];
    }

    /** The socket property. */
    method SetSocket(newSocket: Option<Socket>)
      modifies this`socket, this`offered
      ensures View() == Install(old(View()), newSocket)
    {
      socket := newSocket;
      offered := offered + Pending(View());
    }

    /** Receives what the network delivers, at most `room` bytes. */
    method ReceiveMessage(room: nat, bytes: nat) returns (data: seq<byte>)
      requires room > 0 && socket != None
      modifies this`net, this`output
      ensures var pending := Pending(old(View()));
              var n := Delivered(pending, room, bytes);
              && data == pending[..n]
              && View() == if n == 0 then old(View())
                           else old(View()).(net := old(net)[socket.value := pending[n..]],
                                             output := old(output) + data)
    {
      var pending := if socket.value in net then net[socket.value] else [];
      var n := Delivered(pending, room, bytes);
      data := pending[..n];
      if n > 0 {
        net := net[socket.value := pending[n..]];
        output := output + data;
      }
    }

    /** The handler of the end of a socket runs; it may set the socket property. */
    method EmitSocketEos(handlers: seq<Handler>)
      requires Pending(View()) == []
      modifies this`socket, this`offered
      ensures View() == if handlers != [] && handlers[0].Installs? then Install(old(View()), handlers[0].socket)
                        else old(View())
    {
      if handlers != [] && handlers[0].Installs? {
        SetSocket(handlers[0].socket);
      }
    }

    /** One call for data: at the end of a socket the handler runs, and if it has installed another socket the call
        goes on with that one. */
    method FillBuffer(room: nat, script: Script) returns (flow: Flow, data: seq<byte>, ghost last: Option<Socket>)
      requires room > 0
      modifies this
      ensures Filled(View(), flow, data, last) == Fill(old(View()), room, script)
    {
      if socket == None {
        return FlowError, [], None;
      }
      var current, receives, handlers := socket.value, script.receives, script.handlers;
      while true
        invariant socket == Some(current)
        invariant Fill(View(), room, Script(receives, handlers)) == Fill(old(View()), room, script)
        decreases |handlers|
      {
        var answer := if receives == [] then Gets(room) else receives[0];
        if answer.Cancelled? {
          return FlowFlushing, [], Some(current);
        }
        if answer.Broken? {
          return FlowError, [], Some(current);
        }
        ghost var s := View();
        data := ReceiveMessage(room, answer.bytes);
        if data != [] {
          return FlowOk, data, Some(current);
        }
        EmitSocketEos(handlers);
        if socket == None || socket.value == current {
          assert offered == s.offered + [];
          return FlowEos, [], Some(current);
        }
        current := socket.value;
        receives, handlers := if receives == [] then [] else receives[1..], handlers[1..];
      }
    }
  }
}

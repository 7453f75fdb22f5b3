/** BareSock: a non-blocking UDP transport over one OS datagram socket.

    Each public operation is a pure function from the transport's fields, its
    arguments and the outcomes of the OS socket calls it makes, to the new
    fields, the effects it had (socket calls, pool Get/Put, log calls) and how
    it ended (a return value or a propagated exception). */
module BareSock {
  import opened SockTypes
  import opened SockBase

  /** The fields of a BareSock instance. */
  datatype Transport = Transport(
    sock: Option<Socket>,      // SysSock; None once closed
    remote: Option<Endpoint>,  // _remoteEndPoint
    connectedMode: bool,       // _connectedMode
    created: nat               // sockets created so far; the next fresh handle
  )

  /** The socket has not been closed; every operation but Close needs this. */
  predicate Open(t: Transport)
  {
    t.sock.Some?
  }

  /** The current socket's handle was allocated from the counter (it lies below
      created), and an open transport in connected mode knows its peer. */
  predicate Valid(t: Transport)
  {
    && (t.sock.Some? ==> t.sock.value.id < t.created)
    && (t.sock.Some? && t.connectedMode ==> t.remote.Some?)
  }

  /** What an operation leaves behind: new fields, effects, and how it ended. */
  datatype Step<+T> = Step(state: Transport, effects: Effects, outcome: Outcome<T>)

  /** The constructor: one fresh, unbound, non-blocking socket of the given family. */
  function New(family: Family): (t: Transport)
    ensures Open(t) && Valid(t)
    ensures t.sock.value.family == family && !t.sock.value.bound
    ensures t.remote.None? && !t.connectedMode
  {
    Transport(Some(Socket(0, family, false)), None, false, 1)
  }

  /** The RemoteEndPoint property: the cached endpoint, never a socket query.
      Under the invariant, an open transport in connected mode always has one. */
  function RemoteEndPoint(t: Transport): (r: Option<Endpoint>)
    ensures Valid(t) && Open(t) && t.connectedMode ==> r.Some?
  {
    t.remote
  }

  /** No pool traffic and no log line. */
  predicate Quiet(e: Effects)
  {
    e.gets == [] && e.puts == [] && e.logged == []
  }

  /** Connect(address, port). Building the endpoint rejects a port out of
      range before anything changes. The remote endpoint is recorded first; a socket
      that is already bound is swapped for a fresh unbound one of the same
      family (the old one is not closed); then the OS connect runs. A failure
      of either OS call propagates unlogged and leaves the new endpoint, and
      any replacement socket, in place. */
  function Connect(t: Transport, address: Address, port: int, open: SockResult<()>, connect: SockResult<()>)
    : (r: Step<()>)
    requires Open(t)
    ensures Open(r.state) && r.state.sock.value.family == t.sock.value.family
    ensures Quiet(r.effects)
    ensures Valid(t) ==> Valid(r.state)
    // an out-of-range port is rejected with no change and no socket call
    ensures !ValidPort(port) ==> r == Step(t, NoEffects, Thrown(PortOutOfRange(port)))
    ensures ValidPort(port) ==> RemoteEndPoint(r.state) == Some(Endpoint(address, port))
    // a bound socket is replaced by one with the next handle, if it can be created
    ensures Valid(t) && ValidPort(port) ==>
              (r.state.sock.value.id != t.sock.value.id <==> t.sock.value.bound && open.Ok?)
    ensures ValidPort(port) && t.sock.value.bound && open.Ok? ==>
              r.state.sock.value.id == t.created && r.state.created == t.created + 1
    ensures !(ValidPort(port) && t.sock.value.bound && open.Ok?) ==> r.state.created == t.created
    // creating the replacement failed: nothing but the endpoint changes
    ensures ValidPort(port) && t.sock.value.bound && open.Raised? ==>
              && r.outcome == Thrown(SocketFailure(open.code))
              && r.state == t.(remote := Some(Endpoint(address, port)))
              && r.effects.calls == [SockOpen(t.created, t.sock.value.family)]
    // otherwise the OS connect runs on the socket now held
    ensures ValidPort(port) && (!t.sock.value.bound || open.Ok?) ==>
              && r.effects.calls
                 == (if t.sock.value.bound then [SockOpen(r.state.sock.value.id, t.sock.value.family)] else [])
                    + [SockConnect(r.state.sock.value.id, Endpoint(address, port))]
              && (r.outcome.Returned? <==> connect.Ok?)
              && (connect.Ok? ==> r.state.connectedMode && r.state.sock.value.bound)
              && (connect.Raised? ==>
                    && r.outcome == Thrown(SocketFailure(connect.code))
                    && r.state.connectedMode == t.connectedMode
                    && !r.state.sock.value.bound)
  {
    var ep := Endpoint(address, port);
    var current := t.sock.value;
    if !ValidPort(port) then
      Step(t, NoEffects, Thrown(PortOutOfRange(port)))
    else if current.bound && open.Raised? then
      Step(t.(remote := Some(ep)), Call(SockOpen(t.created, current.family)), Thrown(SocketFailure(open.code)))
    else
      var s := if current.bound then Socket(t.created, current.family, false) else current;
      var created := if current.bound then t.created + 1 else t.created;
      var opens := if current.bound then Call(SockOpen(s.id, s.family)) else NoEffects;
      var effects := Then(opens, Call(SockConnect(s.id, ep)));
      match connect
      case Ok(_) =>
        Step(Transport(Some(s.(bound := true)), Some(ep), true, created), effects, Returned(()))
      case Raised(code) =>
        Step(Transport(Some(s), Some(ep), t.connectedMode, created), effects, Thrown(SocketFailure(code)))
  }

  /** Listen(port). Building the endpoint rejects a port out of range before
      anything changes. Otherwise the remote endpoint becomes the family's
      wildcard address on that port before the OS bind; a failed bind
      propagates unlogged and leaves connected mode as it was. */
  function Listen(cfg: Config, t: Transport, port: int, bind: SockResult<()>): (r: Step<()>)
    requires Open(t)
    ensures Open(r.state)
    ensures r.state.sock.value.id == t.sock.value.id && r.state.sock.value.family == t.sock.value.family
    ensures r.state.created == t.created
    ensures Quiet(r.effects)
    ensures !ValidPort(port) ==> r == Step(t, NoEffects, Thrown(PortOutOfRange(port)))
    ensures ValidPort(port) ==>
              && RemoteEndPoint(r.state) == Some(Endpoint(cfg.anyAddress(t.sock.value.family), port))
              && r.effects.calls == [SockBind(t.sock.value.id, Endpoint(cfg.anyAddress(t.sock.value.family), port))]
    ensures ValidPort(port) && bind.Ok? ==>
              r.outcome == Returned(()) && r.state.sock.value.bound && !r.state.connectedMode
    ensures ValidPort(port) && bind.Raised? ==>
              && r.outcome == Thrown(SocketFailure(bind.code))
              && r.state.sock == t.sock
              && r.state.connectedMode == t.connectedMode
    ensures Valid(t) ==> Valid(r.state)
  {
    var s := t.sock.value;
    var ep := Endpoint(cfg.anyAddress(s.family), port);
    var effects := Call(SockBind(s.id, ep));
    if !ValidPort(port) then
      Step(t, NoEffects, Thrown(PortOutOfRange(port)))
    else
      match bind
      case Ok(_) =>
        Step(t.(sock := Some(s.(bound := true)), remote := Some(ep), connectedMode := false), effects, Returned(()))
      case Raised(code) =>
        Step(t.(remote := Some(ep)), effects, Thrown(SocketFailure(code)))
  }

  /** The ownership and error policy both Send overloads keep once their
      socket call has been made: the buffer goes back to the pool exactly once
      when the caller asked for it and never otherwise, nothing is borrowed,
      harmless codes vanish, and any other code is logged once and rethrown. */
  predicate SendPolicy(cfg: Config, buffer: Buffer, putBufferToPool: bool, send: SockResult<int>, r: Step<()>)
  {
    && r.effects.puts == (if putBufferToPool then [buffer] else [])
    && r.effects.gets == []
    && (r.outcome.Thrown? <==> send.Raised? && !Harmless(cfg, send.code))
    && (if r.outcome.Thrown?
        then r.outcome.error == SocketFailure(send.code) && r.effects.logged == [send.code]
        else r.effects.logged == [])
  }

  /** The try/catch/finally around one send primitive. */
  function GuardedSend(cfg: Config, t: Transport, call: SockCall, buffer: Buffer, putBufferToPool: bool,
                       send: SockResult<int>): (r: Step<()>)
    ensures r.state == t && r.effects.calls == [call]
    ensures SendPolicy(cfg, buffer, putBufferToPool, send, r)
  {
    var caught := if send.Raised? then Caught(cfg, send.code) else NoEffects;
    var release := if putBufferToPool then Put(buffer) else NoEffects;
    Step(t, Then(Then(Call(call), caught), release),
         if send.Raised? && !Harmless(cfg, send.code) then Thrown(SocketFailure(send.code)) else Returned(()))
  }

  /** Send(endPoint, buffer, offset, length, putBufferToPool). The length is
      validated before the try block, so a rejected length throws with no
      socket call and without returning the buffer to the pool. Unconnected
      transports use SendTo(endPoint); connected ones use the plain send and
      ignore endPoint. A successful SendTo binds an unbound socket implicitly
      to an ephemeral local port, so afterwards the socket counts as bound. */
  function SendToEndPoint(cfg: Config, t: Transport, endPoint: Endpoint, buffer: Buffer, offset: int, length: int,
                          putBufferToPool: bool, send: SockResult<int>): (r: Step<()>)
    requires Open(t)
    ensures Open(r.state)
    ensures r.state.sock.value.id == t.sock.value.id && r.state.sock.value.family == t.sock.value.family
    ensures r.state.remote == t.remote && r.state.connectedMode == t.connectedMode && r.state.created == t.created
    ensures r.state.sock.value.bound
        <==> t.sock.value.bound || (cfg.validLength(length) && !t.connectedMode && send.Ok?)
    ensures Valid(t) ==> Valid(r.state)
    ensures !cfg.validLength(length) ==> r.outcome == Thrown(LengthRejected(length)) && r.effects == NoEffects
    ensures cfg.validLength(length) ==>
              && SendPolicy(cfg, buffer, putBufferToPool, send, r)
              && r.effects.calls
                 == [if t.connectedMode then SockSend(t.sock.value.id, buffer, offset, length)
                     else SockSendTo(t.sock.value.id, buffer, offset, length, endPoint)]
  {
    if !cfg.validLength(length) then
      Step(t, NoEffects, Thrown(LengthRejected(length)))
    else
      var id := t.sock.value.id;
      var call := if t.connectedMode then SockSend(id, buffer, offset, length)
                  else SockSendTo(id, buffer, offset, length, endPoint);
      var sent := GuardedSend(cfg, t, call, buffer, putBufferToPool, send);
      if !t.connectedMode && send.Ok? then sent.(state := t.(sock := Some(t.sock.value.(bound := true))))
      else sent
  }

  /** Send(buffer, offset, length, putBufferToPool): always the plain
      connected send, and no length validation at all. */
  function Send(cfg: Config, t: Transport, buffer: Buffer, offset: int, length: int,
                putBufferToPool: bool, send: SockResult<int>): (r: Step<()>)
    requires Open(t)
    ensures r.state == t
    ensures SendPolicy(cfg, buffer, putBufferToPool, send, r)
    ensures r.effects.calls == [SockSend(t.sock.value.id, buffer, offset, length)]
    ensures r.outcome.Thrown? ==> !r.outcome.error.LengthRejected?
  {
    GuardedSend(cfg, t, SockSend(t.sock.value.id, buffer, offset, length), buffer, putBufferToPool, send)
  }

  /** The outcomes of the calls one Receive makes: the Available query, the
      buffer the pool hands out, the receive call, and the sender reported by
      ReceiveFrom (read only in unconnected mode). */
  datatype RecvInput = RecvInput(available: SockResult<int>, buffer: Buffer, received: SockResult<int>, source: Endpoint)

  /** What Receive leaves behind: its effects, the by-reference packet, its result. */
  datatype Received = Received(effects: Effects, packet: Packet, outcome: Outcome<bool>)

  /** The Available check lets execution reach the pool Get: a non-zero count,
      or a harmless error, which falls through rather than returning false. */
  predicate PassesAvailable(cfg: Config, available: SockResult<int>)
  {
    match available
    case Ok(n) => n != 0
    case Raised(code) => Harmless(cfg, code)
  }

  /** The truncation rule: only a non-empty read of at most MTU bytes is a datagram. */
  predicate Accepted(cfg: Config, bytesReceived: int)
  {
    0 < bytesReceived <= cfg.mtu
  }

  /** ReceiveFrom checks its arguments and the socket before reading. Without
      a cached remote endpoint it is handed a null reference; on a socket that
      was never bound it refuses to read. Either way the exception is not a
      SocketException. The plain receive of connected mode makes no such check. */
  function ReceiveFromRefusal(t: Transport): Option<Error>
    requires Open(t)
  {
    if t.connectedMode then None
    else if t.remote.None? then Some(NullArgument)
    else if !t.sock.value.bound then Some(NotBound)
    else None
  }

  /** The inputs under which Receive hands a datagram to its caller. */
  predicate Delivers(cfg: Config, t: Transport, inp: RecvInput)
    requires Open(t)
  {
    && PassesAvailable(cfg, inp.available)
    && ReceiveFromRefusal(t).None?
    && inp.received.Ok? && Accepted(cfg, inp.received.value)
  }

  /** The inputs under which Receive propagates an exception. */
  predicate FailsFatally(cfg: Config, t: Transport, inp: RecvInput)
    requires Open(t)
  {
    || (inp.available.Raised? && !Harmless(cfg, inp.available.code))
    || (&& PassesAvailable(cfg, inp.available)
        && (ReceiveFromRefusal(t).Some? || (inp.received.Raised? && !Harmless(cfg, inp.received.code))))
  }

  /** The part of Receive after the Available check: borrow an MTUSafe
      buffer, read one datagram into it, and keep the buffer only when the
      truncation rule accepts the read; every other exit returns it, including
      a refused ReceiveFrom, which the SocketException handler lets through
      unlogged. */
  function ReceiveDatagram(cfg: Config, t: Transport, packet: Packet, buffer: Buffer,
                           received: SockResult<int>, source: Endpoint): (r: Received)
    requires Open(t)
    ensures r.outcome == Returned(true)
        <==> ReceiveFromRefusal(t).None? && received.Ok? && Accepted(cfg, received.value)
    ensures r.outcome == Returned(true) ==>
              r.packet == Packet(Some(buffer), 0, received.value, if t.connectedMode then t.remote else Some(source))
    ensures r.outcome != Returned(true) ==> r.packet == packet
    ensures r.effects.gets == [buffer] && r.effects.requested == [cfg.mtuSafe]
    ensures r.effects.puts == if r.outcome == Returned(true) then [] else [buffer]
    ensures r.effects.calls
         == if ReceiveFromRefusal(t).Some? then []
            else [if t.connectedMode then SockReceive(t.sock.value.id, buffer, cfg.mtuSafe)
                  else SockReceiveFrom(t.sock.value.id, buffer, cfg.mtuSafe)]
    ensures ReceiveFromRefusal(t).Some? ==>
              r.outcome == Thrown(ReceiveFromRefusal(t).value) && r.effects.logged == []
    ensures ReceiveFromRefusal(t).None? ==> (r.outcome.Thrown? <==> received.Raised? && !Harmless(cfg, received.code))
    ensures ReceiveFromRefusal(t).None? && r.outcome.Thrown? ==>
              r.outcome == Thrown(SocketFailure(received.code)) && r.effects.logged == [received.code]
    ensures r.outcome.Returned? ==> r.effects.logged == []
  {
    var id := t.sock.value.id;
    var call := if t.connectedMode then SockReceive(id, buffer, cfg.mtuSafe) else SockReceiveFrom(id, buffer, cfg.mtuSafe);
    var from := if t.connectedMode then t.remote else Some(source);
    var borrow := Get(cfg.mtuSafe, buffer);
    var read := Then(borrow, Call(call));
    match ReceiveFromRefusal(t)
    case Some(refused) =>
      Received(Then(borrow, Put(buffer)), packet, Thrown(refused))
    case None =>
      match received
      case Ok(n) =>
        if Accepted(cfg, n) then Received(read, Packet(Some(buffer), 0, n, from), Returned(true))
        else Received(Then(read, Put(buffer)), packet, Returned(false))
      case Raised(code) =>
        Received(Then(Then(read, Caught(cfg, code)), Put(buffer)), packet,
                 if Harmless(cfg, code) then Returned(false) else Thrown(SocketFailure(code)))
  }

  /** Receive(ref packet): poll for one datagram without blocking. */
  function Receive(cfg: Config, t: Transport, packet: Packet, inp: RecvInput): (r: Received)
    requires Open(t)
    ensures r.outcome == Returned(true) <==> Delivers(cfg, t, inp)
    ensures Delivers(cfg, t, inp) ==>
              r.packet == Packet(Some(inp.buffer), 0, inp.received.value,
                                 if t.connectedMode then t.remote else Some(inp.source))
    ensures !Delivers(cfg, t, inp) ==> r.packet == packet
    ensures inp.available == Ok(0) ==>
              r.outcome == Returned(false) && r.effects == Call(SockAvailable(t.sock.value.id))
    ensures r.effects.gets == (if PassesAvailable(cfg, inp.available) then [inp.buffer] else [])
    ensures r.effects.gets == r.effects.puts + (if Delivers(cfg, t, inp) then [inp.buffer] else [])
    ensures r.effects.NetBorrows() == if Delivers(cfg, t, inp) then 1 else 0
    ensures PassesAvailable(cfg, inp.available) ==>
              && r.effects.requested == [cfg.mtuSafe]
              && r.effects.calls
                 == [SockAvailable(t.sock.value.id)]
                    + if ReceiveFromRefusal(t).Some? then []
                      else [if t.connectedMode then SockReceive(t.sock.value.id, inp.buffer, cfg.mtuSafe)
                            else SockReceiveFrom(t.sock.value.id, inp.buffer, cfg.mtuSafe)]
    ensures r.outcome.Thrown? <==> FailsFatally(cfg, t, inp)
    ensures r.outcome.Thrown? && r.outcome.error.SocketFailure? ==>
              r.effects.logged == [r.outcome.error.code] && !Harmless(cfg, r.outcome.error.code)
    ensures r.outcome.Thrown? && !r.outcome.error.SocketFailure? ==>
              Some(r.outcome.error) == ReceiveFromRefusal(t) && r.effects.logged == []
    ensures r.effects.logged != [] ==>
              && r.outcome.Thrown? && r.outcome.error.SocketFailure?
              && r.effects.logged == [r.outcome.error.code]
              && !Harmless(cfg, r.outcome.error.code)
    ensures r.outcome.Returned? ==> r.effects.logged == []
  {
    var probe := Call(SockAvailable(t.sock.value.id));
    if inp.available == Ok(0) then
      Received(probe, packet, Returned(false))
    else if inp.available.Raised? && !Harmless(cfg, inp.available.code) then
      Received(Then(probe, Log(inp.available.code)), packet, Thrown(SocketFailure(inp.available.code)))
    else
      var rest := ReceiveDatagram(cfg, t, packet, inp.buffer, inp.received, inp.source);
      Received(Then(probe, rest.effects), rest.packet, rest.outcome)
  }

  /** The oversized-buffer trick: a platform that silently fills the whole
      MTUSafe buffer reports MTUSafe bytes, which the MTU test rejects, and the
      buffer goes back to the pool. */
  lemma FilledBufferIsDropped(cfg: Config, t: Transport, packet: Packet, inp: RecvInput)
    requires Open(t)
    requires cfg.mtu < cfg.mtuSafe
    requires PassesAvailable(cfg, inp.available) && inp.received == Ok(cfg.mtuSafe)
    ensures Receive(cfg, t, packet, inp).outcome != Returned(true)
    ensures ReceiveFromRefusal(t).None? ==> Receive(cfg, t, packet, inp).outcome == Returned(false)
    ensures Receive(cfg, t, packet, inp).packet == packet
    ensures Receive(cfg, t, packet, inp).effects.puts == [inp.buffer]
  {
  }

  /** Close(): closes the socket if there is one, then clears the endpoint.
      Connected mode is left as it was. */
  function Close(t: Transport): (r: Step<()>)
    ensures r.outcome == Returned(())
    ensures !Open(r.state) && RemoteEndPoint(r.state).None?
    ensures r.effects.calls == (if Open(t) then [SockClose(t.sock.value.id)] else [])
    ensures Quiet(r.effects)
    ensures r.state.connectedMode == t.connectedMode && r.state.created == t.created
    ensures Valid(t) ==> Valid(r.state)
  {
    var effects := if t.sock.Some? then Call(SockClose(t.sock.value.id)) else NoEffects;
    Step(t.(sock := None, remote := None), effects, Returned(()))
  }

  /** Close is idempotent: a second Close changes nothing and closes no socket. */
  lemma CloseIdempotent(t: Transport)
    ensures Close(Close(t).state) == Step(Close(t).state, NoEffects, Returned(()))
  {
  }
}

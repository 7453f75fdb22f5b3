/** Sequences of calls on one transport: the caller's receive poll loop, and
    an arbitrary sequence of public calls driven until the first exception. */
module Session {
  import opened SockTypes
  import opened SockBase
  import opened BareSock

  /** What a poll loop leaves behind: all effects, the by-reference packet,
      the buffers handed to the caller (one per datagram, in order), and the
      exception that stopped the loop, if any. */
  datatype Polled = Polled(effects: Effects, packet: Packet, delivered: seq<Buffer>, error: Option<Error>)

  /** Call Receive once per input, stopping at the first exception. */
  function Poll(cfg: Config, t: Transport, packet: Packet, inputs: seq<RecvInput>): (r: Polled)
    requires Open(t)
    decreases |inputs|
  {
    if |inputs| == 0 then Polled(NoEffects, packet, [], None)
    else
      var one := Receive(cfg, t, packet, inputs[0]);
      if one.outcome.Thrown? then Polled(one.effects, one.packet, [], Some(one.outcome.error))
      else
        var rest := Poll(cfg, t, one.packet, inputs[1..]);
        Polled(Then(one.effects, rest.effects), rest.packet,
               (if one.outcome.value then [inputs[0].buffer] else []) + rest.delivered, rest.error)
  }

  /** Pool balance of a poll loop: every buffer taken from the pool was either
      returned to it or handed to the caller with a datagram, so the loop
      leaves exactly one borrow outstanding per delivered datagram. */
  lemma {:induction false} PollBalance(cfg: Config, t: Transport, packet: Packet, inputs: seq<RecvInput>)
    requires Open(t)
    ensures var r := Poll(cfg, t, packet, inputs);
            && multiset(r.effects.gets) == multiset(r.effects.puts) + multiset(r.delivered)
            && r.effects.NetBorrows() == |r.delivered|
    decreases |inputs|
  {
    if |inputs| > 0 {
      var one := Receive(cfg, t, packet, inputs[0]);
      if !one.outcome.Thrown? {
        PollBalance(cfg, t, one.packet, inputs[1..]);
      }
    }
  }

  /** A poll loop logs at most one error: the fatal socket error that stopped
      it. A refused ReceiveFrom stops it without a log line. */
  lemma {:induction false} PollLogsOnlyFatal(cfg: Config, t: Transport, packet: Packet, inputs: seq<RecvInput>)
    requires Open(t)
    ensures var r := Poll(cfg, t, packet, inputs);
            && (r.error.None? ==> r.effects.logged == [])
            && (r.error.Some? && r.error.value.SocketFailure? ==>
                  r.effects.logged == [r.error.value.code] && !Harmless(cfg, r.error.value.code))
            && (r.effects.logged != [] ==>
                  && r.error.Some? && r.error.value.SocketFailure?
                  && r.effects.logged == [r.error.value.code]
                  && !Harmless(cfg, r.error.value.code))
    decreases |inputs|
  {
    if |inputs| > 0 {
      var one := Receive(cfg, t, packet, inputs[0]);
      if !one.outcome.Thrown? {
        PollLogsOnlyFatal(cfg, t, one.packet, inputs[1..]);
      }
    }
  }

  /** Polling a socket with nothing pending never touches the pool, never
      logs, and leaves the caller's packet alone. */
  lemma {:induction false} IdlePollIsFree(cfg: Config, t: Transport, packet: Packet, inputs: seq<RecvInput>)
    requires Open(t)
    requires forall i :: 0 <= i < |inputs| ==> inputs[i].available == Ok(0)
    ensures var r := Poll(cfg, t, packet, inputs);
            && r.effects.gets == [] && r.effects.puts == [] && r.effects.logged == []
            && r.packet == packet && r.delivered == [] && r.error.None?
            && |r.effects.calls| == |inputs|
    decreases |inputs|
  {
    if |inputs| > 0 {
      IdlePollIsFree(cfg, t, packet, inputs[1..]);
    }
  }

  /** After a successful Connect, RemoteEndPoint is the peer, and a send
      through either overload goes out with the plain send primitive on the
      very socket that was connected, whatever endpoint the caller passes. */
  lemma ConnectedSendsGoToPeer(cfg: Config, t: Transport, address: Address, port: int,
                               endPoint: Endpoint, buffer: Buffer, offset: int, length: int,
                               putBufferToPool: bool, send: SockResult<int>)
    requires Open(t) && cfg.validLength(length)
    ensures var c := Connect(t, address, port, Ok(()), Ok(()));
            var id := c.state.sock.value.id;
            ValidPort(port) ==>
            && c.outcome == Returned(())
            && RemoteEndPoint(c.state) == Some(Endpoint(address, port))
            && c.effects.calls[|c.effects.calls| - 1] == SockConnect(id, Endpoint(address, port))
            && SendToEndPoint(cfg, c.state, endPoint, buffer, offset, length, putBufferToPool, send).effects.calls
               == [SockSend(id, buffer, offset, length)]
            && Send(cfg, c.state, buffer, offset, length, putBufferToPool, send).effects.calls
               == [SockSend(id, buffer, offset, length)]
  {
  }

  /** After a successful Listen, a datagram of 0 < size <= MTU bytes is handed
      to the caller with its sender's endpoint, in the MTUSafe buffer the pool
      lent, leaving that one borrow outstanding. */
  lemma ListenThenReceive(cfg: Config, t: Transport, port: int, packet: Packet,
                          buffer: Buffer, size: int, sender: Endpoint, available: int)
    requires Open(t)
    requires available != 0 && 0 < size <= cfg.mtu
    ensures var l := Listen(cfg, t, port, Ok(()));
            var r := Receive(cfg, l.state, packet, RecvInput(Ok(available), buffer, Ok(size), sender));
            ValidPort(port) ==>
            && l.outcome == Returned(())
            && r.outcome == Returned(true)
            && r.packet == Packet(Some(buffer), 0, size, Some(sender))
            && r.effects.gets == [buffer] && r.effects.requested == [cfg.mtuSafe] && r.effects.puts == []
            && r.effects.calls[1] == SockReceiveFrom(l.state.sock.value.id, buffer, cfg.mtuSafe)
  {
  }

  /** A fresh transport that sends one datagram with SendTo is implicitly
      bound, so a later Connect replaces its socket with a new handle. */
  lemma SendToThenConnectReplacesSocket(cfg: Config, family: Family, endPoint: Endpoint, buffer: Buffer,
                                        offset: int, length: int, putBufferToPool: bool, sent: int,
                                        address: Address, port: int)
    requires cfg.validLength(length)
    ensures var s := SendToEndPoint(cfg, New(family), endPoint, buffer, offset, length, putBufferToPool, Ok(sent));
            var c := Connect(s.state, address, port, Ok(()), Ok(()));
            && s.state.sock.value.bound
            && (ValidPort(port) ==>
            && c.state.sock.value.id != New(family).sock.value.id
            && c.effects.calls
               == [SockOpen(c.state.sock.value.id, family), SockConnect(c.state.sock.value.id, Endpoint(address, port))])
  {
  }

  /** A fresh transport that has neither connected nor listened has no remote
      endpoint, so once Available lets Receive through, ReceiveFrom is handed a
      null endpoint: the borrowed buffer goes straight back, no read is made,
      nothing is logged, and the exception reaches the caller. */
  lemma FreshReceiveIsRefused(cfg: Config, family: Family, packet: Packet, inp: RecvInput)
    requires PassesAvailable(cfg, inp.available)
    ensures var r := Receive(cfg, New(family), packet, inp);
            && r.outcome == Thrown(NullArgument)
            && r.effects.calls == [SockAvailable(New(family).sock.value.id)]
            && r.effects.gets == [inp.buffer] && r.effects.puts == [inp.buffer]
            && r.effects.logged == [] && r.packet == packet
  {
  }

  /** One public call together with the outcomes of the socket calls it makes. */
  datatype Call =
    | ConnectCall(address: Address, port: int, open: SockResult<()>, connect: SockResult<()>)
    | ListenCall(port: int, bind: SockResult<()>)
    | SendToEndPointCall(endPoint: Endpoint, buffer: Buffer, offset: int, length: int,
                         putBufferToPool: bool, send: SockResult<int>)
    | SendCall(buffer: Buffer, offset: int, length: int, putBufferToPool: bool, send: SockResult<int>)
    | ReceiveCall(input: RecvInput)
    | CloseCall

  /** What one call or a run of calls leaves behind. */
  datatype Ran = Ran(state: Transport, effects: Effects, packet: Packet, error: Option<Error>)

  function ErrorOf<T>(o: Outcome<T>): Option<Error>
  {
    if o.Thrown? then Some(o.error) else None
  }

  /** Perform one call. */
  function Apply(cfg: Config, t: Transport, packet: Packet, c: Call): (r: Ran)
    requires Open(t) || c.CloseCall?
    ensures !c.CloseCall? ==> Open(r.state)
    ensures Valid(t) ==> Valid(r.state)
    ensures r.error.None? ==> r.effects.logged == []
    ensures r.error.Some? && r.effects.logged != [] ==>
              && r.error.value.SocketFailure?
              && r.effects.logged == [r.error.value.code]
              && !Harmless(cfg, r.error.value.code)
  {
    match c
    case ConnectCall(address, port, open, connect) =>
      var s := Connect(t, address, port, open, connect);
      Ran(s.state, s.effects, packet, ErrorOf(s.outcome))
    case ListenCall(port, bind) =>
      var s := Listen(cfg, t, port, bind);
      Ran(s.state, s.effects, packet, ErrorOf(s.outcome))
    case SendToEndPointCall(endPoint, buffer, offset, length, putBufferToPool, send) =>
      var s := SendToEndPoint(cfg, t, endPoint, buffer, offset, length, putBufferToPool, send);
      Ran(s.state, s.effects, packet, ErrorOf(s.outcome))
    case SendCall(buffer, offset, length, putBufferToPool, send) =>
      var s := Send(cfg, t, buffer, offset, length, putBufferToPool, send);
      Ran(s.state, s.effects, packet, ErrorOf(s.outcome))
    case ReceiveCall(input) =>
      var s := Receive(cfg, t, packet, input);
      Ran(t, s.effects, s.packet, ErrorOf(s.outcome))
    case CloseCall =>
      var s := Close(t);
      Ran(s.state, s.effects, packet, ErrorOf(s.outcome))
  }

  predicate OnlyCloses(calls: seq<Call>)
  {
    forall i :: 0 <= i < |calls| ==> calls[i].CloseCall?
  }

  /** Nothing but Close follows a Close: the transport is not used after it. */
  predicate ClosesLast(calls: seq<Call>)
  {
    forall i, j :: 0 <= i < j < |calls| && calls[i].CloseCall? ==> calls[j].CloseCall?
  }

  /** Perform the calls in order, stopping at the first exception. */
  function Run(cfg: Config, t: Transport, packet: Packet, calls: seq<Call>): (r: Ran)
    requires Open(t) || OnlyCloses(calls)
    requires ClosesLast(calls)
    decreases |calls|
  {
    if |calls| == 0 then Ran(t, NoEffects, packet, None)
    else
      var a := Apply(cfg, t, packet, calls[0]);
      if a.error.Some? then a
      else
        assert ClosesLast(calls[1..]) by {
          forall i, j | 0 <= i < j < |calls[1..]| && calls[1..][i].CloseCall?
            ensures calls[1..][j].CloseCall?
          {
            assert calls[1..][i] == calls[i + 1] && calls[1..][j] == calls[j + 1];
          }
        }
        assert Open(a.state) || OnlyCloses(calls[1..]) by {
          if calls[0].CloseCall? {
            forall i | 0 <= i < |calls[1..]| ensures calls[1..][i].CloseCall? {
              assert calls[1..][i] == calls[i + 1];
            }
          }
        }
        var rest := Run(cfg, a.state, a.packet, calls[1..]);
        Ran(rest.state, Then(a.effects, rest.effects), rest.packet, rest.error)
  }

  /** Every sequence of calls keeps the transport invariant: the current handle
      was allocated from the counter, and a connected open transport always has
      a remote endpoint. */
  lemma {:induction false} RunKeepsValid(cfg: Config, t: Transport, packet: Packet, calls: seq<Call>)
    requires Open(t) || OnlyCloses(calls)
    requires ClosesLast(calls)
    requires Valid(t)
    ensures Valid(Run(cfg, t, packet, calls).state)
    decreases |calls|
  {
    if |calls| > 0 {
      var a := Apply(cfg, t, packet, calls[0]);
      if a.error.None? {
        RunKeepsValid(cfg, a.state, a.packet, calls[1..]);
      }
    }
  }

  /** Across any sequence of calls, harmless socket errors are never logged,
      and at most one error is logged: the fatal socket error that ended the
      run. Failures of Connect, Listen and length validation end the run
      without a log line. */
  lemma {:induction false} RunLogsOnlyFatal(cfg: Config, t: Transport, packet: Packet, calls: seq<Call>)
    requires Open(t) || OnlyCloses(calls)
    requires ClosesLast(calls)
    ensures var r := Run(cfg, t, packet, calls);
            && (r.error.None? ==> r.effects.logged == [])
            && (r.effects.logged != [] ==>
                  && r.error.Some? && r.error.value.SocketFailure?
                  && r.effects.logged == [r.error.value.code]
                  && !Harmless(cfg, r.error.value.code))
    decreases |calls|
  {
    if |calls| > 0 {
      var a := Apply(cfg, t, packet, calls[0]);
      if a.error.None? {
        RunLogsOnlyFatal(cfg, a.state, a.packet, calls[1..]);
      }
    }
  }
}

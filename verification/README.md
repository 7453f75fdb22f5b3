# BareSock bookkeeping model

A Dafny model of `BareSock`, the non-blocking UDP transport of Pixockets.
It covers the bookkeeping around the socket, not the network itself:

- the transport's fields: `SysSock` (present or closed, bound or not, its
  address family), `_remoteEndPoint` and `_connectedMode`;
- which OS socket primitive each operation calls, and on which socket;
- the buffer-ownership discipline with the buffer pool (`Get`/`Put`);
- the truncation rule for received datagrams (`0 < bytesReceived <= MTU`,
  read into an `MTUSafe` buffer);
- the split between harmless socket errors (swallowed, not logged) and all
  other socket errors (logged once, rethrown).

Every operation is a pure function. Its inputs are the transport's fields,
the caller's arguments, and the outcome of each OS call it makes, supplied as
`SockResult` = `Ok(value)` or `Raised(code)`. Its result holds the new fields,
an `Effects` record and how the operation ended (`Returned(v)` or
`Thrown(error)`). The `Effects` record lists, each in order, the socket
calls, the buffers taken from the pool with the size asked for, the buffers
returned to the pool, and the error codes logged. Whether a code is harmless
is not an input: the model decides it from the configured harmless set, as the
code does.

Files:

- `socktypes.dfy` (module `SockTypes`): endpoints, buffers, sockets, socket
  call outcomes, exceptions, the packet record, socket calls and `Effects`.
- `sockbase.dfy` (module `SockBase`): what `BareSock` takes from its base
  class `SockBase`. `SockBase.cs` is not part of this model, so `MTU`,
  `MTUSafe`, `HarmlessErrors`, `ValidateLength` and `AnyAddress` are fields
  of a `Config` value and are left abstract. The shared catch clause
  (`Caught`) is here too.
- `baresock.dfy` (module `BareSock`): the constructor, `Connect`, `Listen`,
  both `Send` overloads, `Receive`, `Close` and `RemoteEndPoint`.
- `session.dfy` (module `Session`): the caller's receive poll loop and
  arbitrary sequences of calls, with lemmas about them.

The two `Send` overloads cannot share a name in Dafny. `Send(endPoint, …)` is
`SendToEndPoint` and `Send(buffer, …)` is `Send`.

Behaviours of the code a caller may not expect:

- `ValidateLength` runs before the `try`/`finally` in `Send(endPoint, …)`. A
  rejected length throws without returning the buffer to the pool, even when
  `putBufferToPool` is set.
- A harmless error raised by the `Available` query does not make `Receive`
  return `false`. Execution falls through to the pool `Get` and the receive
  attempt.
- `Connect` and `Listen` have no `catch`. Any failure of the socket
  creation, the OS connect or the bind propagates without a log line,
  harmless or not. By then
  `_remoteEndPoint` has already been overwritten, and `Connect` may already
  have replaced the socket.
- The connected overload `Send(buffer, …)` does no length validation.
- `Close` clears the socket and the remote endpoint but leaves
  `_connectedMode` as it was.
- `Connect` replaces a bound socket with a new one without closing the old
  socket, so no OS close is issued for it.
- In unconnected mode `Receive` passes `_remoteEndPoint` to `ReceiveFrom` by
  reference. When no `Connect` or `Listen` has set it, that reference is null
  and `ReceiveFrom` throws `ArgumentNullException` before reading. On a socket
  that is not bound, it throws `InvalidOperationException`. Neither is a
  `SocketException`, so both leave unlogged; the `finally` still returns the
  buffer to the pool.

Three modelling assumptions go beyond `BareSock.cs`, all about how .NET's
`Socket` tracks whether it is bound (`Socket.IsBound`):

- a successful OS connect leaves the socket bound, so a second `Connect`
  replaces the socket whenever creating the new one succeeds;
- a successful `SendTo` on an unbound socket binds it implicitly to an
  ephemeral local port, so a `Connect` after such a send also replaces the
  socket. A failed `SendTo` leaves the binding as it was;
- `ReceiveFrom` refuses a socket that is not bound, as it does in .NET.

## Model

| member | source | states |
|---|---|---|
| `BareSock.New` | Pixockets/BareSock.cs:29-35 | A new transport has one open, unbound socket of the requested family, no remote endpoint, is not in connected mode, and satisfies the transport invariant. |
| `BareSock.RemoteEndPoint` | Pixockets/BareSock.cs:18-21 | The cached `_remoteEndPoint`; under the transport invariant an open transport in connected mode always has one. |
| `BareSock.Connect` | Pixockets/BareSock.cs:37-49 | A port outside 0..65535 is rejected by the endpoint constructor: it throws an out-of-range error with no socket call, no log line and the transport unchanged. For a valid port, afterwards `RemoteEndPoint` is `(address, port)`, whatever the OS calls did. The socket is replaced by a new socket of the same family, with the next handle from the counter of created sockets, exactly when it was already bound and creating the new socket succeeds. The old socket is not closed. If creating it fails, that error is rethrown unlogged, no connect is attempted, and only the endpoint has changed. Otherwise the OS connect targets the socket now held. Success sets connected mode and leaves the socket bound. A failed connect is rethrown unlogged, and connected mode keeps its old value. No pool traffic. The invariant is preserved. |
| `BareSock.Listen` | Pixockets/BareSock.cs:51-56 | A port outside 0..65535 throws the out-of-range error with no bind and the transport unchanged. For a valid port, afterwards `RemoteEndPoint` is the family's wildcard address on `port`. The bind is issued on the same socket to that endpoint. Success leaves the socket bound and connected mode off. A failed bind is rethrown unlogged, with the socket and connected mode unchanged. The invariant is preserved. |
| `SockBase.Caught` | Pixockets/BareSock.cs:70-78 | The shared catch clause: a harmless code leaves no trace at all; any other code is logged exactly once. It makes no socket call and no pool traffic. |
| `BareSock.GuardedSend` | Pixockets/BareSock.cs:62-83 | The try/catch/finally around one send primitive. There is exactly that one socket call. The buffer is `Put` exactly once if `putBufferToPool` and never otherwise, whatever the call did, and nothing is borrowed. A harmless code is neither logged nor propagated. Any other code is logged once and rethrown. |
| `BareSock.SendToEndPoint` | Pixockets/BareSock.cs:58-84 | A length that `ValidateLength` rejects throws before any socket call, with no pool `Put` and no log line. Otherwise `SendTo(endPoint)` is used exactly when not in connected mode; in connected mode it is the plain send, and `endPoint` is ignored. Either way the put-exactly-once and harmless/fatal policy holds. A validated `SendTo` that succeeds leaves the socket bound; nothing else about the transport changes (same handle and family, same remote endpoint and connected mode), and the invariant is preserved. |
| `BareSock.Send` | Pixockets/BareSock.cs:86-107 | Always the plain send on the current socket, with no length validation: it can never throw a length error. The put-exactly-once and harmless/fatal policy holds for every socket outcome. |
| `BareSock.ReceiveDatagram` | Pixockets/BareSock.cs:128-169 | One `Get(MTUSafe)`, then `Receive` in connected mode or `ReceiveFrom` otherwise. In unconnected mode with no remote endpoint, `ReceiveFrom` throws the null-argument error; on an unbound socket it throws the not-bound error. In both cases no read is made, the buffer is put back, nothing is logged and the packet is untouched. Otherwise it returns true exactly when the read gave `0 < n <= MTU` bytes. Then the packet is `(buffer, 0, n, source)`, where the source is the cached remote endpoint in connected mode, and the buffer is not put back. Otherwise the buffer is put back exactly once and the packet is untouched. A fatal code is logged once and rethrown. |
| `BareSock.Receive` | Pixockets/BareSock.cs:109-170 | Returns true exactly when `Available` let it through (a non-zero count or a harmless error), `ReceiveFrom` did not refuse, and the read was accepted. `Available == 0` gives false after one socket call, with no pool traffic and the packet unchanged. Buffers taken equal buffers put back plus the one handed over, so net borrows are +1 exactly on true and 0 otherwise. It throws exactly on a fatal code from `Available` or from the read, which is then the one code logged, or on a refused `ReceiveFrom`, which is not logged. Nothing is logged on normal return, and anything logged is the fatal code thrown. |
| `BareSock.FilledBufferIsDropped` | Pixockets/BareSock.cs:139-142 | Given `MTU < MTUSafe`, a read that fills the whole `MTUSafe` buffer is not surfaced: `Receive` does not return true (it returns false unless `ReceiveFrom` refused), the packet is untouched and the buffer goes back to the pool. |
| `BareSock.Close` | Pixockets/BareSock.cs:172-181 | Afterwards the socket is absent and `RemoteEndPoint` is null. The OS close is issued exactly when a socket was present, with no pool or log traffic. Connected mode is unchanged. |
| `BareSock.CloseIdempotent` | Pixockets/BareSock.cs:174-180 | A second `Close` leaves the state as the first left it and makes no socket call. |
| `Session.PollBalance` | Pixockets/BareSock.cs:128-169 | Over any sequence of `Receive` calls up to the first exception, the multiset of buffers taken from the pool equals the buffers returned plus the buffers handed to the caller. Net borrows equal the number of datagrams delivered. |
| `Session.PollLogsOnlyFatal` | Pixockets/BareSock.cs:118-126 | A poll loop logs nothing unless it stops on an exception. When that exception is a socket error, it logs exactly that non-harmless code; a refused `ReceiveFrom` stops it without a log line. |
| `Session.FreshReceiveIsRefused` | Pixockets/BareSock.cs:130-137 | On a new transport that has neither connected nor listened, a `Receive` that gets past `Available` throws the null-argument error. It makes no read, returns the buffer, logs nothing and leaves the packet untouched. |
| `Session.IdlePollIsFree` | Pixockets/BareSock.cs:111-116 | Polling while `Available` is 0 makes one socket call per poll. There is no pool traffic, no log line and no delivery, and the packet stays unchanged. |
| `Session.ConnectedSendsGoToPeer` | Pixockets/BareSock.cs:64-68 | For a valid port and successful OS calls, `Connect(address, port)` returns normally and `RemoteEndPoint` is that endpoint. Both `Send` overloads issue the plain send on the socket that was just connected, whatever endpoint is passed. |
| `Session.SendToThenConnectReplacesSocket` | Pixockets/BareSock.cs:41-45 | A fresh transport that has sent one datagram with `SendTo` is bound, so a following `Connect` to a valid port opens a new socket with a different handle and connects that one. |
| `Session.ListenThenReceive` | Pixockets/BareSock.cs:134-150 | After `Listen` on a valid port succeeds, a datagram of `0 < size <= MTU` bytes arrives through `ReceiveFrom` into an `MTUSafe` pool buffer. It is delivered as `(buffer, 0, size, sender)`, and the buffer stays borrowed. |
| `Session.Apply` | Pixockets/BareSock.cs:37-181 | Any single public call keeps the socket open unless it is `Close`, and preserves the transport invariant. It logs nothing unless it throws, and then logs only the non-harmless socket code it rethrows. |
| `Session.RunKeepsValid` | Pixockets/BareSock.cs:26-27 | Every sequence of calls, up to the first exception, keeps the invariant: the current socket handle was allocated from the counter of created sockets, and an open transport in connected mode has a remote endpoint. |
| `Session.RunLogsOnlyFatal` | Pixockets/BareSock.cs:70-78 | Across any sequence of calls, harmless codes are never logged. At most one code is logged: the fatal socket code that ended the run. |

## Left out

- Real OS socket behaviour: socket creation, non-blocking semantics, bind, connect, `SendTo`/`ReceiveFrom` and the `Available` query. These are supplied outcomes, not network effects.
- `BareSock.New`: socket creation in the constructor is assumed to succeed, because a failure there leaves no transport behind.
- `BareSock.Connect`: setting `Blocking = false` on the replacement socket is assumed to succeed; only the creation of the socket has a supplied outcome.
- `BareSock.ReceiveDatagram`: the address-family check that `ReceiveFrom` applies to `_remoteEndPoint` is not modelled, because addresses carry no family here.
- `LocalEndPoint` (Pixockets/BareSock.cs:13-16): it only queries the OS binding.
- `SockBase`: the members of `HarmlessErrors`, the values of `MTU` and `MTUSafe`, the rule inside `ValidateLength` and the address `AnyAddress` returns are parameters. Any relation between them, such as `MTU < MTUSafe`, is a precondition where it is used. Anything `ValidateLength` itself might log is not modelled.
- Pool internals and the logger, beyond recording each `Get` (with its size), `Put` and log call. The buffer returned by `Get` is a supplied input, and its capacity is not modelled.
- `IPEndPoint`/`IPAddress` internals and address families: these are opaque values. Of the `IPEndPoint` constructor's checks, only the port range is modelled.
- Byte contents of buffers, and datagram delivery between two transports.
- Other exceptions that are not `SocketException`s from the OS calls, such as `ObjectDisposedException`, and argument checks on buffer bounds. Use after `Close`, where the null socket would fault, is excluded by the precondition `Open`.
- Concurrency: the class has a single owner.
- `BareSock.GuardedSend`: does not state that the log call comes before the pool `Put`, because `Effects` keeps the order within each kind of effect but not across kinds.
- `BareSock.Receive`: does not state that the log call comes before the pool `Put`, for the same reason.

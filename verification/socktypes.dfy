/** Values exchanged between the transport and its collaborators: endpoints,
    pool buffers, socket handles, the outcome of each OS socket call, and the
    observable events (pool traffic, log calls, socket calls) an operation emits.
    Endpoint, address and buffer internals are deliberately opaque. */
module SockTypes {

  datatype Option<+T> = None | Some(value: T)

  /** An OS socket error code (System.Net.Sockets.SocketError). */
  type ErrorCode = int

  /** Opaque network address and address family. */
  datatype Address = Address(raw: nat)
  datatype Family = Family(code: nat)

  /** An IP endpoint: address plus port. */
  datatype Endpoint = Endpoint(address: Address, port: int)

  /** The port range the IPEndPoint constructor accepts (IPEndPoint.MinPort
      and IPEndPoint.MaxPort); any other port makes it throw. */
  const MinPort := 0
  const MaxPort := 0xFFFF

  predicate ValidPort(port: int)
  {
    MinPort <= port <= MaxPort
  }

  /** A byte buffer owned either by the pool or by whoever borrowed it. */
  datatype Buffer = Buffer(id: nat)

  /** An OS datagram socket: a handle, its address family, and whether it is bound. */
  datatype Socket = Socket(id: nat, family: Family, bound: bool)

  /** What one OS socket call did: returned a value, or raised a SocketException. */
  datatype SockResult<+T> = Ok(value: T) | Raised(code: ErrorCode)

  /** Exceptions that leave a transport operation. */
  datatype Error =
    | LengthRejected(length: int)   // thrown by the length validation of SockBase
    | PortOutOfRange(port: int)       // ArgumentOutOfRangeException from the IPEndPoint constructor
    | SocketFailure(code: ErrorCode)  // a SocketException rethrown to the caller
    | NullArgument                    // ArgumentNullException: ReceiveFrom given a null endpoint
    | NotBound                        // InvalidOperationException: ReceiveFrom on an unbound socket

  /** How an operation ends: a normal return or a propagated exception. */
  datatype Outcome<+T> = Returned(value: T) | Thrown(error: Error)

  /** The caller-owned packet record that Receive fills in by reference. */
  datatype Packet = Packet(buffer: Option<Buffer>, offset: int, length: int, endPoint: Option<Endpoint>)

  /** One call into the OS socket. */
  datatype SockCall =
    | SockOpen(socket: nat, family: Family)
    | SockConnect(socket: nat, endPoint: Endpoint)
    | SockBind(socket: nat, endPoint: Endpoint)
    | SockSendTo(socket: nat, buffer: Buffer, offset: int, length: int, endPoint: Endpoint)
    | SockSend(socket: nat, buffer: Buffer, offset: int, length: int)
    | SockAvailable(socket: nat)
    | SockReceive(socket: nat, buffer: Buffer, size: int)
    | SockReceiveFrom(socket: nat, buffer: Buffer, size: int)
    | SockClose(socket: nat)

  /** Everything an operation does outside its own fields: its socket calls in
      order, the buffers it takes from the pool, the sizes it asks the pool
      for, the buffers it returns to the pool, and the error codes it hands to
      the logger, each in order. */
  datatype Effects = Effects(
    calls: seq<SockCall>,
    gets: seq<Buffer>,
    requested: seq<int>,   // the size argument of each Get
    puts: seq<Buffer>,
    logged: seq<ErrorCode>
  )
  {
    /** Net number of pool borrows left outstanding. */
    function NetBorrows(): int
    {
      |gets| - |puts|
    }
  }

  /** No effect at all. */
  const NoEffects := Effects([], [], [], [], [])

  function Call(c: SockCall): Effects { NoEffects.(calls := [c]) }
  function Get(size: int, b: Buffer): Effects { NoEffects.(gets := [b], requested := [size]) }
  function Put(b: Buffer): Effects { NoEffects.(puts := [b]) }
  function Log(code: ErrorCode): Effects { NoEffects.(logged := [code]) }

  /** The effects of doing a, then b. */
  function Then(a: Effects, b: Effects): (r: Effects)
    ensures r.NetBorrows() == a.NetBorrows() + b.NetBorrows()
  {
    Effects(a.calls + b.calls, a.gets + b.gets, a.requested + b.requested, a.puts + b.puts, a.logged + b.logged)
  }
}

/** Socket helpers of the server: how a bind failure becomes an RPC status,
    the wildcard address listeners bind, the local address a UDP dial binds,
    and the `Dialer` that remembers a backend address and how to reach it.
    The operating system's bind and connect calls are passed in as oracle
    functions; everything here is a pure function of them. */
module Socket {
  import opened Wrappers
  import Rpc

  /** A 16-bit port number (`u16`). */
  newtype Port = x: int | 0 <= x < 0x1_0000

  /** A selection of the kinds of `std::io::ErrorKind` (which is
      non-exhaustive). Kinds not listed here, such as HostUnreachable or
      NetworkDown, are represented by `Other`; `MapBindError` treats them all
      in its catch-all arm, so it loses nothing by the selection. */
  datatype ErrorKind =
    | NotFound | PermissionDenied | ConnectionRefused | ConnectionReset
    | ConnectionAborted | NotConnected | AddrInUse | AddrNotAvailable
    | BrokenPipe | AlreadyExists | WouldBlock | InvalidInput | InvalidData
    | TimedOut | WriteZero | Interrupted | Unsupported | UnexpectedEof
    | OutOfMemory | Other

  /** `std::net::SocketAddr`: an IPv4 or IPv6 address with a port. */
  datatype SocketAddr = V4(ip4: bv32, port: Port) | V6(ip6: bv128, port: Port)

  /** The address is the unspecified one of its family (`0.0.0.0` or `::`). */
  predicate IsUnspecified(a: SocketAddr) {
    match a
    case V4(ip, _) => ip == 0
    case V6(ip, _) => ip == 0
  }

  /** The host `"0.0.0.0"` paired with a port, as listeners bind it. */
  function WildcardV4(port: Port): SocketAddr { V4(0, port) }

  /** Classifies a bind failure as the RPC status sent back to the client:
      an address already in use and a permission error each have their own
      code and message, every other kind is an internal error. */
  function MapBindError(kind: ErrorKind): (s: Rpc.Status)
    ensures s.code in {Rpc.Code.AlreadyExists, Rpc.Code.PermissionDenied, Rpc.Code.Internal}
    ensures s.code == Rpc.Code.AlreadyExists <==> kind == ErrorKind.AddrInUse
    ensures s.code == Rpc.Code.PermissionDenied <==> kind == ErrorKind.PermissionDenied
    ensures s.code == Rpc.Code.Internal <==> kind !in {ErrorKind.AddrInUse, ErrorKind.PermissionDenied}
    ensures kind == ErrorKind.AddrInUse ==> s.message == "port is already in use"
    ensures kind == ErrorKind.PermissionDenied ==> s.message == "permission denied"
    ensures kind !in {ErrorKind.AddrInUse, ErrorKind.PermissionDenied} ==> s.message == "failed to bind port"
  {
    match kind
    case AddrInUse => Rpc.Status.AlreadyExists("port is already in use")
    case PermissionDenied => Rpc.Status.PermissionDenied("permission denied")
    case _ => Rpc.Status.Internal("failed to bind port")
  }

  /** Two bind failures give the same status exactly when they fall in the
      same class (in use, denied, anything else). */
  lemma MapBindErrorClasses(k1: ErrorKind, k2: ErrorKind)
    ensures MapBindError(k1) == MapBindError(k2) <==>
      (k1 == k2 || (k1 !in {ErrorKind.AddrInUse, ErrorKind.PermissionDenied} &&
                    k2 !in {ErrorKind.AddrInUse, ErrorKind.PermissionDenied}))
  {
  }

  /** Creates a listening TCP listener or UDP socket on `port`: `bind` is the
      operating system's bind of the socket type at hand. The wildcard host
      `0.0.0.0` is bound with the requested port, and a failure reaches the
      caller only as the status `MapBindError` gives its kind. */
  function CreateListener<L>(port: Port, bind: SocketAddr -> Result<L, ErrorKind>): (r: Result<L, Rpc.Status>)
    ensures r.Ok? <==> bind(V4(0, port)).Ok?
    ensures r.Ok? ==> r.value == bind(V4(0, port)).value
    ensures r.Err? ==> r.error == MapBindError(bind(V4(0, port)).error)
  {
    match bind(WildcardV4(port))
    case Ok(listener) => Ok(listener)
    case Err(kind) => Err(MapBindError(kind))
  }

  /** A listener that fails to come up reports one of the three bind codes,
      never, for instance, resource exhaustion. */
  lemma CreateListenerErrorCodes<L>(port: Port, bind: SocketAddr -> Result<L, ErrorKind>)
    ensures CreateListener(port, bind).Err? ==>
      CreateListener(port, bind).error.code in {Rpc.Code.AlreadyExists, Rpc.Code.PermissionDenied, Rpc.Code.Internal}
  {
  }

  /** The local address a UDP dial binds before connecting to `target`: the
      unspecified address of the target's family with port 0, so that the
      operating system picks an ephemeral port. */
  function UdpLocalAddr(target: SocketAddr): (local: SocketAddr)
    ensures local.V4? <==> target.V4?
    ensures IsUnspecified(local)
    ensures local.port == 0
  {
    if target.V4? then V4(0, 0) else V6(0, 0)
  }

  /** The three properties of `UdpLocalAddr` pin the address down. */
  lemma UdpLocalAddrUnique(target: SocketAddr, local: SocketAddr)
    requires local.V4? <==> target.V4?
    requires IsUnspecified(local) && local.port == 0
    ensures local == UdpLocalAddr(target)
  {
  }

  /** An OS socket handle. */
  type SocketId = nat

  /** `AsyncUdpSocket`: a connected UDP socket used as a byte transport. */
  datatype AsyncUdpSocket = AsyncUdpSocket(socket: SocketId)

  /** The reader and writer halves a dial hands back (`Box<dyn AsyncRead>`,
      `Box<dyn AsyncWrite>`). */
  datatype Transport =
    | TcpReadHalf(stream: SocketId)
    | TcpWriteHalf(stream: SocketId)
    | UdpConnected(udp: AsyncUdpSocket)

  type DialResult = Result<(Transport, Transport), ErrorKind>

  /** `dial_tcp`: connects to the backend and splits the stream into a read
      half and a write half of the same connection. */
  function DialTcp(target: SocketAddr, connect: SocketAddr -> Result<SocketId, ErrorKind>): (r: DialResult)
    ensures r.Ok? <==> connect(target).Ok?
    ensures r.Ok? ==> r.value.0.TcpReadHalf? && r.value.1.TcpWriteHalf?
    ensures r.Ok? ==> r.value.0.stream == r.value.1.stream == connect(target).value
    ensures r.Err? ==> r.error == connect(target).error
  {
    match connect(target)
    case Err(e) => Err(e)
    case Ok(stream) => Ok((TcpReadHalf(stream), TcpWriteHalf(stream)))
  }

  /** `dial_udp`: binds a UDP socket at `UdpLocalAddr(target)`, connects it
      to the target, and hands out that one socket as both the reader and
      the writer. The first failing step's error is returned. */
  function DialUdp(target: SocketAddr,
                   bind: SocketAddr -> Result<SocketId, ErrorKind>,
                   connect: (SocketId, SocketAddr) -> Result<(), ErrorKind>): (r: DialResult)
    ensures r.Ok? <==> bind(UdpLocalAddr(target)).Ok? && connect(bind(UdpLocalAddr(target)).value, target).Ok?
    ensures r.Ok? ==> r.value.0 == r.value.1 == UdpConnected(AsyncUdpSocket(bind(UdpLocalAddr(target)).value))
    ensures bind(UdpLocalAddr(target)).Err? ==> r == Err(bind(UdpLocalAddr(target)).error)
    ensures bind(UdpLocalAddr(target)).Ok? && connect(bind(UdpLocalAddr(target)).value, target).Err? ==>
      r == Err(connect(bind(UdpLocalAddr(target)).value, target).error)
  {
    match bind(UdpLocalAddr(target))
    case Err(e) => Err(e)
    case Ok(socket) =>
      match connect(socket, target)
      case Err(e) => Err(e)
      case Ok(_) => Ok((UdpConnected(AsyncUdpSocket(socket)), UdpConnected(AsyncUdpSocket(socket))))
  }

  /** A successful UDP dial used a socket bound at an unspecified address of
      the target's family with an ephemeral port, and connected it to the
      target itself. */
  lemma DialUdpLocalFamily(target: SocketAddr,
                           bind: SocketAddr -> Result<SocketId, ErrorKind>,
                           connect: (SocketId, SocketAddr) -> Result<(), ErrorKind>)
    ensures DialUdp(target, bind, connect).Ok? ==>
      exists local: SocketAddr :: (local.V4? <==> target.V4?) && IsUnspecified(local) && local.port == 0 &&
        bind(local).Ok? && connect(bind(local).value, target).Ok? &&
        DialUdp(target, bind, connect).value.0 == UdpConnected(AsyncUdpSocket(bind(local).value))
  {
  }

  /** How a `Dialer` reaches its address (`DialFn`). */
  type DialFn = SocketAddr -> DialResult

  /** `Dialer`: an immutable pair of a dial function and a backend address. */
  datatype Dialer = Dialer(dialFn: DialFn, addr: SocketAddr) {

    /** `Dialer::new` */
    static function New(dial: DialFn, addr: SocketAddr): (d: Dialer)
      ensures d.Addr() == addr
      ensures d.Dial() == dial(addr)
    {
      Dialer(dial, addr)
    }

    /** `Dialer::addr` */
    function Addr(): SocketAddr { addr }

    /** `Dialer::dial`: calls the stored function on the stored address. */
    function Dial(): DialResult { dialFn(addr) }
  }

  /** The outcome of one poll of an asynchronous operation. */
  datatype Poll<T> = Ready(value: T) | Pending

  /** `poll_flush` on a UDP transport: datagrams are never buffered, so it
      is ready and successful at once. */
  function PollFlush(s: AsyncUdpSocket): (p: Poll<Result<(), ErrorKind>>)
    ensures p.Ready? && p.value.Ok?
  {
    Ready(Ok(()))
  }

  /** `poll_shutdown` on a UDP transport: there is no connection to close, so
      it is ready and successful at once. */
  function PollShutdown(s: AsyncUdpSocket): (p: Poll<Result<(), ErrorKind>>)
    ensures p.Ready? && p.value.Ok?
  {
    Ready(Ok(()))
  }
}

# Public-port selection and socket helpers of the castle tunnel server

This project models, in Dafny, two sequential pieces of the castle
reverse-tunnel server:

- **Port selection for TCP and UDP tunnels** (`create_socket` in
  `src/server/tunnel/mod.rs`). A client asks for a public port. A non-zero
  port is bound directly. Port 0 means "any": the server draws candidates
  from its `PortManager` pool, removes each candidate that fails to bind,
  and stops at the first one that binds or when the pool is empty
  (`resource_exhausted("no available port")`). The pool is a class with a
  `set` of ports that the method mutates; the socket creator of the tunnel
  kind (`SocketCreator::create_socket`) is a function parameter that says,
  per port, whether the bind succeeds and with which socket or status.
- **Socket helpers** (`src/socket.rs`): the mapping from a bind's
  `io::ErrorKind` to an RPC status, the wildcard address `0.0.0.0:port`
  that listeners bind, the local address `dial_udp` binds before
  connecting, `dial_tcp`, the `Dialer` record, and the no-op flush and
  shutdown of a UDP transport. Operating-system calls (bind, connect) are
  oracle function parameters.

Files: `wrappers.dfy` (Option, Result), `status.dfy` (gRPC codes and
tonic's `Status`), `socket.dfy` (module `Socket`), `tunnel.dfy` (module
`Tunnel`).

A port-0 ("any") request is served from the server's own port pool; the
operating system is not asked for an ephemeral port.

## Model

| member | source | states |
|---|---|---|
| Tunnel.CreateSocket | src/server/tunnel/mod.rs:88-113 | a non-zero port is bound as requested, the pool is untouched, success returns that port and its socket, a failure is returned unchanged; for port 0 every removed port failed to bind, the bindable ports of the pool all stay, the result is exhaustion exactly when no port of the pool binds (and then the pool is empty and the status is `resource_exhausted("no available port")`), success returns a port still in the pool with the socket bound to it, and the number of bind attempts is at most the number of unbindable ports plus one; termination follows from the pool shrinking on each failure |
| Tunnel.CreateUdpTunnelSocket | src/server/tunnel/udp.rs:118-123 | port selection with the UDP socket creator, whose `create_udp_socket` is modelled as `CreateListener`: an explicit port binds `0.0.0.0:port` with the pool untouched, and its failure carries one of the three bind codes; for port 0 the pool only shrinks, every removed port failed to bind, success returns a port of the original pool that is still in the pool, with its socket, failure happens exactly when no port of the pool binds and is then `resource_exhausted("no available port")` with an empty pool |
| Tunnel.PortManager.Get | src/server/tunnel/mod.rs:99-104 | the drawn candidate is in the pool, and `None` is returned exactly when the pool is empty |
| Tunnel.PortManager.Remove | src/server/tunnel/mod.rs:105-108 | the failed candidate is gone from the pool and nothing else changes |
| Tunnel.FailedRemovalsBounded | src/server/tunnel/mod.rs:98-111 | removing only ports that failed to bind keeps every bindable port in the pool, and the number of such removals is bounded by the unbindable ports the pool held |
| Socket.MapBindError | src/socket.rs:29-38 | the status code is one of already-exists, permission-denied, internal; already-exists exactly for `AddrInUse` with "port is already in use", permission-denied exactly for `PermissionDenied` with "permission denied", internal with "failed to bind port" for every other kind |
| Socket.MapBindErrorClasses | src/socket.rs:30-37 | two error kinds map to the same status exactly when they are equal or both fall in the catch-all class |
| Socket.CreateListener | src/socket.rs:16-27 | a TCP listener or UDP socket binds host `0.0.0.0` with the requested port; it succeeds exactly when that bind does, with that socket, and a failure is the `MapBindError` image of the bind's error kind |
| Socket.CreateListenerErrorCodes | src/socket.rs:16-38 | a listener that fails reports only one of the three bind codes |
| Socket.UdpLocalAddr | src/socket.rs:139-144 | the local address has the target's family, is the unspecified address and has port 0 (ephemeral) |
| Socket.UdpLocalAddrUnique | src/socket.rs:139-144 | those three properties determine the local address uniquely |
| Socket.DialUdp | src/socket.rs:138-152 | success exactly when binding the local address and connecting to the target both succeed; then reader and writer are the same connected socket; otherwise the first failing step's error |
| Socket.DialUdpLocalFamily | src/socket.rs:138-152 | a successful UDP dial used a socket bound at an unspecified address of the target's family with port 0 and connected to the target |
| Socket.DialTcp | src/socket.rs:131-135 | success exactly when the connect succeeds; reader and writer are the two halves of that one stream; otherwise the connect's error |
| Socket.Dialer.New | src/socket.rs:98-114 | the dialer's address is the one given, and dialing calls the stored function on exactly that address |
| Socket.PollFlush | src/socket.rs:74-79 | flushing a UDP transport is immediately ready and successful |
| Socket.PollShutdown | src/socket.rs:81-86 | shutting down a UDP transport is immediately ready and successful |

## Left out

- The bodies of `PortManager` (`super::port`) and of `Available` are not part of this model. `Get` is modelled as leaving the pool unchanged and drawing an unspecified port; `Available`, a wrapper built from a `u16` (`port.into()`), is represented by the bare port number.
- `Tunnel.CreateSocket` takes the tunnel kind's socket creator (`SocketCreator::create_socket`) as its parameter `create`, assumed to give the same answer for the same port within one call; for UDP it is instantiated in `Tunnel.CreateUdpTunnelSocket`. The TCP creator is not part of this model.
- Tunnel.CreateUdpTunnelSocket — the UDP socket creator (src/server/tunnel/udp.rs:118-123) calls a `create_udp_socket` taken from `crate::helper`, which is not part of this model; the model assumes it behaves like `create_udp_socket` in src/socket.rs:23-27 (bind `0.0.0.0:port`, errors through `map_bind_error`).
- `TcpListener::bind`, `UdpSocket::bind`/`connect` and `TcpStream::connect` are operating-system calls; they are oracle function parameters.
- The error of a dial (`Box<dyn Error + Send + Sync>`) is represented only by its `io::ErrorKind`; the error's message and source chain are not modelled.
- The parse of the fixed literals `"0.0.0.0:0"` and `"[::]:0"` in `dial_udp` cannot fail and is modelled by building the address directly; IPv6 flow info and scope id are not modelled.
- `Box::leak` of the UDP socket in `dial_udp` is represented by handing the same socket handle to both the reader and the writer; that the leaked socket is never dropped or closed is not modelled.
- The `error!` log line in `map_bind_error` is not modelled.
- `poll_read` and `poll_write` of the UDP transport, and all byte transfer, are I/O and are not modelled.
- `init_data_sender_bridge` (src/server/tunnel/mod.rs:30-80) is a cross-task channel handshake with a spawned remover task; its point is concurrency.
- The UDP relay (`Udp::serve`, `transfer`), the TCP manager, the bridge and event types, and the client and server command-line entry points are asynchronous plumbing or argument parsing and are not modelled.

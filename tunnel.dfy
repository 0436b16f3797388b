/** Public-port selection for TCP and UDP tunnels: the server either binds
    the port the client asked for, or, when asked for "any" port (0), draws
    candidates from its pool of available ports until one binds. */
module Tunnel {
  import opened Wrappers
  import Rpc
  import opened Socket

  /** The pool of ports the server may hand out for "any port" requests
      (`PortManager`). Only the two operations port selection uses are
      modelled: drawing a candidate and removing a port. */
  class PortManager {
    var ports: set<Port>

    constructor (initial: set<Port>)
      ensures ports == initial
    {
      ports := initial;
    }

    /** `get`: some port still in the pool, or `None` when the pool is empty.
        Which port is drawn is left open. */
    method Get() returns (candidate: Option<Port>)
      ensures candidate.None? <==> ports == {}
      ensures candidate.Some? ==> candidate.value in ports
    {
      if ports == {} {
        candidate := None;
      } else {
        var p :| p in ports;
        candidate := Some(p);
      }
    }

    /** `remove`: takes `p` out of the pool. */
    method Remove(p: Port)
      modifies this
      ensures ports == old(ports) - {p}
    {
      ports := ports - {p};
    }
  }

  /** The ports of `pool` that the socket creator can bind. */
  ghost function Bindable<S>(pool: set<Port>, create: Port -> Result<S, Rpc.Status>): set<Port> {
    set p | p in pool && create(p).Ok?
  }

  /** The status returned when every port of the pool has been tried. */
  const NoAvailablePort: Rpc.Status := Rpc.Status.ResourceExhausted("no available port")

  /** Taking out of the pool only ports that failed to bind keeps every
      bindable port in it, and there were at most as many such removals as
      the pool held unbindable ports. */
  lemma {:induction false} FailedRemovalsBounded<S>(pool: set<Port>, remaining: set<Port>,
                                                  create: Port -> Result<S, Rpc.Status>)
    requires remaining <= pool
    requires forall p :: p in pool && p !in remaining ==> create(p).Err?
    ensures Bindable(remaining, create) == Bindable(pool, create)
    ensures |pool| - |remaining| <= |pool - Bindable(pool, create)|
  {
    var removed := pool - remaining;
    var unbindable := pool - Bindable(pool, create);
    assert removed <= unbindable;
    SubsetSmaller(removed, unbindable);
    assert removed * pool == removed;
    assert |removed| == |pool| - |remaining| by {
      assert pool == removed + remaining;
      assert removed * remaining == {};
    }
  }

  /** A subset has no more elements than its superset. */
  lemma {:induction false} SubsetSmaller<T>(a: set<T>, b: set<T>)
    requires a <= b
    ensures |a| <= |b|
    decreases |a|
  {
    if a != {} {
      var x :| x in a;
      SubsetSmaller(a - {x}, b - {x});
    }
  }

  /** `create_socket`: binds a public port for a tunnel. `create` is the
      socket creator of the tunnel's kind (TCP listener or UDP socket). A
      non-zero `port` is bound as requested and its failure is returned
      unchanged; the pool is not touched. Port 0 means "any": candidates are
      drawn from the pool, each one that fails to bind is removed before the
      next draw, the first one that binds is returned with its socket, and
      an empty pool ends the search with `resource_exhausted`. `attempts`
      counts the calls made to `create`. */
  method CreateSocket<S>(port: Port, pm: PortManager, create: Port -> Result<S, Rpc.Status>)
    returns (r: Result<(Port, S), Rpc.Status>, ghost attempts: nat)
    modifies pm
    ensures port > 0 ==> pm.ports == old(pm.ports) && attempts == 1
    ensures port > 0 ==> (r.Ok? <==> create(port).Ok?)
    ensures port > 0 && r.Ok? ==> r.value.0 == port && r.value.1 == create(port).value
    ensures port > 0 && r.Err? ==> r.error == create(port).error
    ensures port == 0 ==> pm.ports <= old(pm.ports)
    ensures port == 0 ==> forall p :: p in old(pm.ports) && p !in pm.ports ==> create(p).Err?
    ensures port == 0 ==> Bindable(pm.ports, create) == Bindable(old(pm.ports), create)
    ensures port == 0 ==> (r.Err? <==> Bindable(old(pm.ports), create) == {})
    ensures port == 0 && r.Err? ==> r.error == NoAvailablePort && pm.ports == {}
    ensures port == 0 && r.Ok? ==>
      r.value.0 in pm.ports && create(r.value.0).Ok? && r.value.1 == create(r.value.0).value
    ensures port == 0 ==> attempts == |old(pm.ports)| - |pm.ports| + (if r.Ok? then 1 else 0)
    ensures port == 0 ==> attempts <= |old(pm.ports) - Bindable(old(pm.ports), create)| + 1
  {
    if port > 0 {
      attempts := 1;
      var result := create(port);
      if result.Err? {
        r := Err(result.error);
      } else {
        r := Ok((port, result.value));
      }
      return;
    }
    attempts := 0;
    ghost var pool := pm.ports;
    while true
      invariant pm.ports <= pool
      invariant forall p :: p in pool && p !in pm.ports ==> create(p).Err?
      invariant attempts == |pool| - |pm.ports|
      decreases |pm.ports|
    {
      var candidate := pm.Get();
      if candidate.None? {
        FailedRemovalsBounded(pool, pm.ports, create);
        r := Err(NoAvailablePort);
        return;
      }
      var p := candidate.value;
      var result := create(p);
      attempts := attempts + 1;
      if result.Err? {
        pm.Remove(p);
        continue;
      }
      FailedRemovalsBounded(pool, pm.ports, create);
      r := Ok((p, result.value));
      return;
    }
  }

  /** `create_socket` for a UDP tunnel: the socket creator of `Udp`
      (`SocketCreator::create_socket`) calls `create_udp_socket`, which is
      modelled as `CreateListener` over the operating system's UDP bind. A failure on an
      explicit port therefore carries one of the three bind codes, and a
      failure on port 0 is always `resource_exhausted("no available port")`. */
  method CreateUdpTunnelSocket<L>(port: Port, pm: PortManager, bind: SocketAddr -> Result<L, ErrorKind>)
    returns (r: Result<(Port, L), Rpc.Status>)
    modifies pm
    ensures port > 0 ==> pm.ports == old(pm.ports)
    ensures port > 0 ==> (r.Ok? <==> bind(V4(0, port)).Ok?)
    ensures port > 0 && r.Ok? ==> r.value.0 == port && r.value.1 == bind(V4(0, port)).value
    ensures port > 0 && r.Err? ==>
      r.error == MapBindError(bind(V4(0, port)).error) &&
      r.error.code in {Rpc.Code.AlreadyExists, Rpc.Code.PermissionDenied, Rpc.Code.Internal}
    ensures port == 0 ==> pm.ports <= old(pm.ports)
    ensures port == 0 && r.Err? ==> r.error == NoAvailablePort && pm.ports == {}
    ensures port == 0 && r.Ok? ==> r.value.0 in old(pm.ports)
    ensures port == 0 && r.Ok? ==>
      r.value.0 in pm.ports && bind(V4(0, r.value.0)).Ok? && r.value.1 == bind(V4(0, r.value.0)).value
    ensures port == 0 ==> forall p :: p in old(pm.ports) && p !in pm.ports ==> bind(V4(0, p)).Err?
    ensures port == 0 ==> (r.Err? <==> forall p :: p in old(pm.ports) ==> bind(V4(0, p)).Err?)
  {
    var create := (p: Port) => CreateListener(p, bind);
    ghost var pool := pm.ports;
    ghost var attempts;
    r, attempts := CreateSocket(port, pm, create);
    if port == 0 {
      assert forall p :: p in pool ==> (p in Bindable(pool, create) <==> bind(V4(0, p)).Ok?);
    }
  }
}

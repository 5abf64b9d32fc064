/**
 * The swarm's external collaborators, modelled abstractly: the transport as a
 * set of oracles, the topology as an address book, and the connection manager
 * (`RawSwarm`) as a peer-state map, a listener list, a log of the calls the
 * swarm makes into it, and a finite supply of lifecycle events it will report.
 */
module Collaborators {
  import opened Types

  /** What the transport decides, given as functions of the address. */
  datatype Transport = Transport(
    /** The address actually bound when listening on an address, or None if unsupported. */
    listen: Multiaddr -> Option<Multiaddr>,
    /** Whether a dial of this address can begin. */
    dialable: Multiaddr -> bool,
    /** Translation of a (server address, observed address) pair into an externally reachable one. */
    natTraversal: (Multiaddr, Multiaddr) -> Option<Multiaddr>)

  /** The address book: local identity, known addresses per peer, our external addresses. */
  datatype Topology = Topology(
    localPeerId: PeerId,
    addresses: map<PeerId, seq<Multiaddr>>,
    externalAddrs: set<Multiaddr>)
  {
    /** The addresses known for a peer, in topology order; none for an unknown peer. */
    function AddressesOfPeer(peer: PeerId): (addrs: seq<Multiaddr>)
      ensures peer in addresses ==> addrs == addresses[peer]
      ensures peer !in addresses ==> addrs == []
    {
      if peer in addresses then addresses[peer] else []
    }

    /** Registers addresses under which we are reachable; nothing else in the book changes. */
    function AddLocalExternalAddrs(addrs: seq<Multiaddr>): (t: Topology)
      ensures forall a :: a in t.externalAddrs <==> a in externalAddrs || a in addrs
      ensures t.localPeerId == localPeerId && t.addresses == addresses
    {
      this.(externalAddrs := externalAddrs + set a | a in addrs)
    }
  }

  /** What the connection manager says about a peer. */
  datatype PeerState = PeerConnected | PeerPendingConnect | PeerNotConnected

  /** A lifecycle event reported by the connection manager. */
  datatype RawSwarmEvent =
    | NodeEvent(peer: PeerId, event: NodeOutEvent)
    | Connected(peer: PeerId, endpoint: ConnectedPoint)
    | NodeClosed(peer: PeerId, endpoint: ConnectedPoint)
    | NodeError(peer: PeerId, endpoint: ConnectedPoint)
    | Replaced(peer: PeerId, closedEndpoint: ConnectedPoint, endpoint: ConnectedPoint)
    | IncomingConnection(listenAddr: Multiaddr, sendBackAddr: Multiaddr)
    | ListenerClosed(listenAddr: Multiaddr)
    | IncomingConnectionError(listenAddr: Multiaddr, sendBackAddr: Multiaddr)
    | DialError(peer: PeerId, multiaddr: Multiaddr, remainAddrsAttempt: nat)
    | UnknownPeerDialError(multiaddr: Multiaddr)

  /** A request the swarm makes of the connection manager. */
  datatype ManagerCall =
    | ListenCall(addr: Multiaddr)
    | DialCall(addr: Multiaddr)
    | ConnectCall(peer: PeerId, addrs: seq<Multiaddr>)
    | SendCall(peer: PeerId, event: InEvent)
    | AcceptCall(listenAddr: Multiaddr, sendBackAddr: Multiaddr)

  /** True if some address of the list can be dialled by the transport. */
  predicate AnyDialable(t: Transport, addrs: seq<Multiaddr>)
  {
    exists i :: 0 <= i < |addrs| && t.dialable(addrs[i])
  }

  /** The list with every occurrence of an address removed. */
  function Without(addrs: seq<Multiaddr>, a: Multiaddr): (r: seq<Multiaddr>)
    ensures forall x :: x in r <==> x in addrs && x != a
    ensures |r| <= |addrs|
  {
    if addrs == [] then []
    else (if addrs[0] == a then [] else [addrs[0]]) + Without(addrs[1..], a)
  }

  /** Every translation the transport gives of `observed` against one of the `servers`. */
  function Translate(t: Transport, servers: seq<Multiaddr>, observed: Multiaddr): (r: seq<Multiaddr>)
    ensures forall x :: x in r <==>
      exists i :: 0 <= i < |servers| && t.natTraversal(servers[i], observed) == Some(x)
  {
    if servers == [] then []
    else
      var head := match t.natTraversal(servers[0], observed)
        case Some(x) => [x]
        case None => [];
      var tail := Translate(t, servers[1..], observed);
      head + tail
  }

  /** The connection manager, seen from the swarm. */
  datatype RawSwarm = RawSwarm(
    transport: Transport,
    localPeerId: PeerId,
    peers: map<PeerId, PeerState>,
    listeners: seq<Multiaddr>,
    /** The poll results the manager will report, in order; exhausted means not ready. */
    supply: seq<Async<RawSwarmEvent>>,
    /** Every request the swarm has made of the manager, in order. */
    calls: seq<ManagerCall>)
  {
    /** The state of a peer; a peer the manager does not track is not connected. */
    function Peer(peer: PeerId): PeerState
    {
      if peer in peers then peers[peer] else PeerNotConnected
    }

    /** Starts a listener; on success the bound address is added to the listeners. */
    function Listen(addr: Multiaddr): (r: (RawSwarm, Result<Multiaddr, Multiaddr>))
      ensures r.0.calls == calls + [ListenCall(addr)]
      ensures r.1.Err? ==> r.1.error == addr && r.0.listeners == listeners
      ensures r.1.Ok? ==> r.0.listeners == listeners + [r.1.value]
      ensures r.0.transport == transport && r.0.supply == supply && r.0.peers == peers
    {
      var m := this.(calls := calls + [ListenCall(addr)]);
      match transport.listen(addr)
      case Some(bound) => (m.(listeners := listeners + [bound]), Ok(bound))
      case None => (m, Err(addr))
    }

    /** Dials an address with no expected peer; fails with the address if unsupported. */
    function Dial(addr: Multiaddr): (r: (RawSwarm, Result<(), Multiaddr>))
      ensures r.0 == this.(calls := calls + [DialCall(addr)])
      ensures r.1.Err? <==> !transport.dialable(addr)
      ensures r.1.Err? ==> r.1.error == addr
    {
      (this.(calls := calls + [DialCall(addr)]),
       if transport.dialable(addr) then Ok(()) else Err(addr))
    }

    /** Connects a not-connected peer over a list of addresses; it becomes pending once one can be dialled. */
    function ConnectIter(peer: PeerId, addrs: seq<Multiaddr>): (m: RawSwarm)
      ensures m.calls == calls + [ConnectCall(peer, addrs)]
      ensures m.Peer(peer) == if AnyDialable(transport, addrs) then PeerPendingConnect else Peer(peer)
      ensures forall q :: q != peer ==> m.Peer(q) == Peer(q)
      ensures m.transport == transport && m.supply == supply && m.listeners == listeners
    {
      this.(calls := calls + [ConnectCall(peer, addrs)],
            peers := if AnyDialable(transport, addrs) then peers[peer := PeerPendingConnect] else peers)
    }

    /** Sends an event to a connected peer's handler. */
    function SendEvent(peer: PeerId, event: InEvent): RawSwarm
    {
      this.(calls := calls + [SendCall(peer, event)])
    }

    /** Accepts an incoming connection with a fresh handler. */
    function Accept(listenAddr: Multiaddr, sendBackAddr: Multiaddr): RawSwarm
    {
      this.(calls := calls + [AcceptCall(listenAddr, sendBackAddr)])
    }

    /** The manager's own bookkeeping when it reports an event. */
    function Observe(ev: RawSwarmEvent): (m: RawSwarm)
      ensures m.transport == transport && m.supply == supply && m.calls == calls
      ensures m.localPeerId == localPeerId
    {
      match ev
      case Connected(p, _) => this.(peers := peers[p := PeerConnected])
      case Replaced(p, _, _) => this.(peers := peers[p := PeerConnected])
      case NodeClosed(p, _) => this.(peers := peers - {p})
      case NodeError(p, _) => this.(peers := peers - {p})
      case DialError(p, _, remain) =>
        this.(peers := if remain == 0 then peers - {p} else peers[p := PeerPendingConnect])
      case ListenerClosed(a) => this.(listeners := Without(listeners, a))
      case _ => this
    }

    /** One non-blocking poll: the next entry of the supply, or not ready once it is exhausted. */
    function Poll(): (r: (RawSwarm, Async<RawSwarmEvent>))
      ensures supply == [] ==> r == (this, NotReady)
      ensures supply != [] ==> r.1 == supply[0] && r.0.supply == supply[1..]
      ensures r.0.transport == transport && r.0.calls == calls && r.0.localPeerId == localPeerId
    {
      if supply == [] then (this, NotReady)
      else
        var m := this.(supply := supply[1..]);
        match supply[0]
        case NotReady => (m, NotReady)
        case Ready(ev) => (m.Observe(ev), Ready(ev))
    }

    /** The externally reachable candidates for an observed address, against every listener. */
    function NatTraversal(observed: Multiaddr): (r: seq<Multiaddr>)
      ensures forall x :: x in r <==>
        exists i :: 0 <= i < |listeners| && transport.natTraversal(listeners[i], observed) == Some(x)
    {
      Translate(transport, listeners, observed)
    }
  }
}

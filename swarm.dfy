/**
 * The swarm as an object whose fields are updated in place, as the source
 * does. Every method is proved to follow the state machine of SwarmSpec.
 */
module SwarmCore {
  import opened Types
  import opened Collaborators
  import opened NetworkBehaviour
  import SwarmSpec

  class Swarm {
    var rawSwarm: RawSwarm
    var behaviour: Behaviour
    var topology: Topology
    /** The protocols of the handler built at construction; never refreshed. */
    const supportedProtocols: seq<ProtocolName>
    var listenedAddrs: seq<Multiaddr>

    /** The value the object stands for. */
    function Abs(): SwarmSpec.State
      reads this
    {
      SwarmSpec.State(rawSwarm, behaviour, topology, supportedProtocols, listenedAddrs)
    }

    constructor (transport: Transport, supply: seq<Async<RawSwarmEvent>>, behaviour: Behaviour, topology: Topology)
      ensures Abs() == SwarmSpec.New(transport, supply, behaviour, topology)
      ensures listenedAddrs == [] && supportedProtocols == behaviour.protocolsOfHandler(behaviour.handlersBuilt)
    {
      var (b, handler) := behaviour.NewHandler();
      supportedProtocols := handler.listenProtocols;
      rawSwarm := RawSwarm(transport, topology.localPeerId, map[], [], supply, []);
      this.behaviour := b;
      this.topology := topology;
      listenedAddrs := [];
    }

    /** The transport the swarm was built with. */
    function GetTransport(): Transport
      reads this
    {
      rawSwarm.transport
    }

    /** The addresses the manager is currently listening on. */
    function Listeners(): seq<Multiaddr>
      reads this
    {
      rawSwarm.listeners
    }

    /** The local identity the manager was bound to. */
    function LocalPeerId(): PeerId
      reads this
    {
      rawSwarm.localPeerId
    }

    function GetTopology(): Topology
      reads this
    {
      topology
    }

    /** What a caller holding the mutable topology reference can do: replace its contents. */
    method SetTopology(t: Topology)
      modifies this
      ensures topology == t
      ensures rawSwarm == old(rawSwarm) && behaviour == old(behaviour) && listenedAddrs == old(listenedAddrs)
    {
      topology := t;
    }

    method ListenOn(addr: Multiaddr) returns (result: Result<Multiaddr, Multiaddr>)
      modifies this
      ensures (Abs(), result) == SwarmSpec.ListenOn(old(Abs()), addr)
      ensures result.Ok? ==> listenedAddrs == old(listenedAddrs) + [result.value]
      ensures result.Err? ==> result.error == addr && listenedAddrs == old(listenedAddrs)
      ensures behaviour == old(behaviour) && topology == old(topology)
    {
      var (m, r) := rawSwarm.Listen(addr);
      rawSwarm := m;
      if r.Ok? {
        listenedAddrs := listenedAddrs + [r.value];
      }
      result := r;
    }

    method DialAddr(addr: Multiaddr) returns (result: Result<(), Multiaddr>)
      modifies this
      ensures (Abs(), result) == SwarmSpec.DialAddr(old(Abs()), addr)
      ensures result.Err? <==> !rawSwarm.transport.dialable(addr)
      ensures behaviour.log == old(behaviour.log) + [Callback.NewHandler]
      ensures rawSwarm.calls == old(rawSwarm.calls) + [DialCall(addr)]
    {
      var (b, handler) := behaviour.NewHandler();
      behaviour := b;
      var (m, r) := rawSwarm.Dial(addr);
      rawSwarm := m;
      result := r;
    }

    method Dial(peer: PeerId)
      modifies this
      ensures Abs() == SwarmSpec.Dial(old(Abs()), peer)
      ensures behaviour.log == old(behaviour.log) + [Callback.NewHandler]
      ensures old(rawSwarm.Peer(peer)) != PeerNotConnected ==> rawSwarm == old(rawSwarm)
      ensures old(rawSwarm.Peer(peer)) == PeerNotConnected ==>
        rawSwarm.calls == old(rawSwarm.calls) + [ConnectCall(peer, old(topology.AddressesOfPeer(peer)))]
    {
      var addrs := topology.AddressesOfPeer(peer);
      var (b, handler) := behaviour.NewHandler();
      behaviour := b;
      if rawSwarm.Peer(peer) == PeerNotConnected {
        rawSwarm := rawSwarm.ConnectIter(peer, addrs);
      }
    }

    /** Hands one manager event to the behaviour. */
    method DeliverEvent(ev: RawSwarmEvent)
      modifies this
      ensures Abs() == SwarmSpec.Deliver(old(Abs()), ev)
      ensures behaviour.log == old(behaviour.log) + SwarmSpec.Dispatched(ev)
    {
      match ev {
        case NodeEvent(peer, event) =>
          behaviour := behaviour.InjectNodeEvent(peer, event);
        case Connected(peer, endpoint) =>
          behaviour := behaviour.InjectConnected(peer, endpoint);
        case NodeClosed(peer, endpoint) =>
          behaviour := behaviour.InjectDisconnected(peer, endpoint);
        case NodeError(peer, endpoint) =>
          behaviour := behaviour.InjectDisconnected(peer, endpoint);
        case Replaced(peer, closedEndpoint, endpoint) =>
          behaviour := behaviour.InjectDisconnected(peer, closedEndpoint);
          behaviour := behaviour.InjectConnected(peer, endpoint);
        case IncomingConnection(listenAddr, sendBackAddr) =>
          var (b, handler) := behaviour.NewHandler();
          behaviour := b;
          rawSwarm := rawSwarm.Accept(listenAddr, sendBackAddr);
        case ListenerClosed(_) =>
        case IncomingConnectionError(_, _) =>
        case DialError(_, _, _) =>
        case UnknownPeerDialError(_) =>
      }
    }

    /** Polls the manager once and hands its event, if any, to the behaviour; tells whether it was not ready. */
    method PollManager() returns (rawSwarmNotReady: bool)
      modifies this
      ensures (Abs(), rawSwarmNotReady) == SwarmSpec.PollManager(old(Abs()))
    {
      rawSwarmNotReady := false;
      var (m, polled) := rawSwarm.Poll();
      rawSwarm := m;
      match polled {
        case NotReady => rawSwarmNotReady := true;
        case Ready(ev) => DeliverEvent(ev);
      }
    }

    /**
     * Polls the behaviour once and acts on its answer. `done` is the value
     * the pull returns, or None when the loop goes round again.
     */
    method PollBehaviour(rawSwarmNotReady: bool) returns (done: Option<Async<Option<OutEvent>>>)
      modifies this
      ensures Abs() == SwarmSpec.PollBehaviour(old(Abs()), rawSwarmNotReady).state
      ensures done == match SwarmSpec.PollBehaviour(old(Abs()), rawSwarmNotReady)
        case Return(_, outcome) => Some(outcome)
        case Continue(_) => None
    {
      var parameters := PollParameters(topology, supportedProtocols, listenedAddrs, rawSwarm.transport.natTraversal);
      var (b, behaviourPoll) := behaviour.Poll(parameters);
      behaviour := b;

      match behaviourPoll {
        case NotReady =>
          if rawSwarmNotReady {
            return Some(NotReady);
          }
        case Ready(GenerateEvent(event)) =>
          return Some(Ready(Some(event)));
        case Ready(DialAddress(address)) =>
          var ignored := DialAddr(address);
        case Ready(DialPeer(peer)) =>
          Dial(peer);
        case Ready(SendEvent(peer, event)) =>
          if rawSwarm.Peer(peer) == PeerConnected {
            rawSwarm := rawSwarm.SendEvent(peer, event);
          }
        case Ready(ReportObservedAddr(address)) =>
          topology := topology.AddLocalExternalAddrs(rawSwarm.NatTraversal(address));
      }
      done := None;
    }

    /**
     * One iteration of the drive loop. `done` is the value the pull returns,
     * or None when the loop goes round again.
     */
    method Step() returns (done: Option<Async<Option<OutEvent>>>)
      modifies this
      ensures Abs() == SwarmSpec.Step(old(Abs())).state
      ensures done == match SwarmSpec.Step(old(Abs()))
        case Return(_, outcome) => Some(outcome)
        case Continue(_) => None
    {
      var rawSwarmNotReady := PollManager();
      done := PollBehaviour(rawSwarmNotReady);
    }

    /** One external pull: runs iterations until one returns an event or suspends. */
    method Poll() returns (r: Async<Option<OutEvent>>)
      modifies this
      ensures (Abs(), r) == SwarmSpec.Pull(old(Abs()))
      ensures r != Ready(None)
      ensures listenedAddrs == old(listenedAddrs)
    {
      while true
        invariant SwarmSpec.Pull(Abs()) == SwarmSpec.Pull(old(Abs()))
        decreases |behaviour.script|, |rawSwarm.supply|
      {
        var done := Step();
        if done.Some? {
          return done.value;
        }
      }
    }
  }
}

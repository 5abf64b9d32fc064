/**
 * The contract between the swarm and a network behaviour: the actions a
 * behaviour may request, the parameters it is polled with, and a scripted
 * behaviour that records every call the swarm makes into it.
 */
module NetworkBehaviour {
  import opened Types
  import opened Collaborators

  /** What a behaviour asks the swarm to do, one per poll. */
  datatype NetworkBehaviourAction =
    | GenerateEvent(event: OutEvent)
    | DialAddress(address: Multiaddr)
    | DialPeer(peer: PeerId)
    | SendEvent(peer: PeerId, inEvent: InEvent)
    | ReportObservedAddr(address: Multiaddr)

  /** The view of the swarm a behaviour is given during one poll. */
  datatype PollParameters = PollParameters(
    topology: Topology,
    supportedProtocols: seq<ProtocolName>,
    listenedAddrs: seq<Multiaddr>,
    natTraversal: (Multiaddr, Multiaddr) -> Option<Multiaddr>)
  {
    /** The protocol names the swarm reports as supported on inbound substreams. */
    function SupportedProtocols(): seq<ProtocolName>
    {
      supportedProtocols
    }

    /** The addresses the swarm has successfully started listening on. */
    function ListenedAddresses(): seq<Multiaddr>
    {
      listenedAddrs
    }

    /** The identity of the local node, as the topology holds it. */
    function LocalPeerId(): PeerId
    {
      topology.localPeerId
    }

    /** The transport's translation of a server/observed address pair. */
    function NatTraversal(server: Multiaddr, observed: Multiaddr): Option<Multiaddr>
    {
      natTraversal(server, observed)
    }
  }

  /** A protocol handler; only the names of its listen protocol are modelled. */
  datatype Handler = Handler(listenProtocols: seq<ProtocolName>)

  /** One call the swarm made into the behaviour. */
  datatype Callback =
    | NewHandler
    | InjectConnected(peer: PeerId, endpoint: ConnectedPoint)
    | InjectDisconnected(peer: PeerId, endpoint: ConnectedPoint)
    | InjectNodeEvent(peer: PeerId, event: NodeOutEvent)
    | PollCall(params: PollParameters)

  /**
   * A behaviour whose n-th handler (counting from zero) listens on
   * `protocolsOfHandler(n)`, so that the protocols of later handlers may
   * differ from earlier ones; that has built `handlersBuilt` handlers so
   * far; that records every call in `log`; and whose polls return the
   * entries of `script` in order (not ready once the script is exhausted).
   */
  datatype Behaviour = Behaviour(
    protocolsOfHandler: nat -> seq<ProtocolName>,
    handlersBuilt: nat,
    log: seq<Callback>,
    script: seq<Async<NetworkBehaviourAction>>)
  {
    /** Builds the next handler, with the protocols this behaviour gives it now. */
    function NewHandler(): (r: (Behaviour, Handler))
      ensures r.0 == this.(log := log + [Callback.NewHandler], handlersBuilt := handlersBuilt + 1)
      ensures r.1.listenProtocols == protocolsOfHandler(handlersBuilt)
    {
      (this.(log := log + [Callback.NewHandler], handlersBuilt := handlersBuilt + 1),
       Handler(protocolsOfHandler(handlersBuilt)))
    }

    function InjectConnected(peer: PeerId, endpoint: ConnectedPoint): Behaviour
    {
      this.(log := log + [Callback.InjectConnected(peer, endpoint)])
    }

    function InjectDisconnected(peer: PeerId, endpoint: ConnectedPoint): Behaviour
    {
      this.(log := log + [Callback.InjectDisconnected(peer, endpoint)])
    }

    function InjectNodeEvent(peer: PeerId, event: NodeOutEvent): Behaviour
    {
      this.(log := log + [Callback.InjectNodeEvent(peer, event)])
    }

    /** One poll: records the parameters it was given and yields the next scripted result. */
    function Poll(params: PollParameters): (r: (Behaviour, Async<NetworkBehaviourAction>))
      ensures r.0.log == log + [PollCall(params)]
      ensures r.0.protocolsOfHandler == protocolsOfHandler && r.0.handlersBuilt == handlersBuilt
      ensures script == [] ==> r.1 == NotReady && r.0.script == []
      ensures script != [] ==> r.1 == script[0] && r.0.script == script[1..]
    {
      var b := this.(log := log + [PollCall(params)]);
      if script == [] then (b, NotReady) else (b.(script := script[1..]), script[0])
    }
  }
}

/**
 * The swarm as a state machine over values: construction, `listen_on`,
 * `dial_addr`, `dial`, and one iteration and one pull of the drive loop.
 * The class in swarm.dfy is proved to follow these functions.
 */
module SwarmSpec {
  import opened Types
  import opened Collaborators
  import opened NetworkBehaviour

  /** Everything the swarm owns: the manager, the behaviour, the topology and the two lists. */
  datatype State = State(
    rawSwarm: RawSwarm,
    behaviour: Behaviour,
    topology: Topology,
    supportedProtocols: seq<ProtocolName>,
    listenedAddrs: seq<Multiaddr>)

  /** Parts of the state that no operation of the swarm ever changes. */
  ghost predicate SameFrame(s': State, s: State)
  {
    s'.supportedProtocols == s.supportedProtocols &&
    s'.rawSwarm.transport == s.rawSwarm.transport &&
    s'.rawSwarm.localPeerId == s.rawSwarm.localPeerId &&
    s'.behaviour.protocolsOfHandler == s.behaviour.protocolsOfHandler
  }

  /**
   * Builds a swarm: the supported protocols are those of one freshly built
   * handler, the manager is bound to the topology's local identity, and no
   * address is listened on yet.
   */
  function New(transport: Transport, supply: seq<Async<RawSwarmEvent>>, behaviour: Behaviour, topology: Topology): (s: State)
    ensures s.listenedAddrs == []
    ensures s.supportedProtocols == behaviour.protocolsOfHandler(behaviour.handlersBuilt)
    ensures s.behaviour.handlersBuilt == behaviour.handlersBuilt + 1
    ensures s.behaviour.log == behaviour.log + [Callback.NewHandler]
    ensures s.behaviour.script == behaviour.script
    ensures s.rawSwarm.localPeerId == topology.localPeerId
    ensures s.rawSwarm.calls == [] && s.rawSwarm.listeners == [] && s.rawSwarm.supply == supply
    ensures s.rawSwarm.transport == transport && s.topology == topology
  {
    var (b, handler) := behaviour.NewHandler();
    State(RawSwarm(transport, topology.localPeerId, map[], [], supply, []), b, topology, handler.listenProtocols, [])
  }

  /** `listen_on`: the bound address is appended exactly when the manager succeeds. */
  function ListenOn(s: State, addr: Multiaddr): (r: (State, Result<Multiaddr, Multiaddr>))
    ensures r.1.Ok? <==> s.rawSwarm.transport.listen(addr).Some?
    ensures r.1.Ok? ==> r.0.listenedAddrs == s.listenedAddrs + [r.1.value]
    ensures r.1.Err? ==> r.1.error == addr && r.0.listenedAddrs == s.listenedAddrs
    ensures r.0.rawSwarm.calls == s.rawSwarm.calls + [ListenCall(addr)]
    ensures r.0.behaviour == s.behaviour && r.0.topology == s.topology
    ensures r.0.rawSwarm.supply == s.rawSwarm.supply && r.0.rawSwarm.peers == s.rawSwarm.peers
    ensures SameFrame(r.0, s)
  {
    var (m, result) := s.rawSwarm.Listen(addr);
    match result
    case Ok(bound) => (s.(rawSwarm := m, listenedAddrs := s.listenedAddrs + [bound]), result)
    case Err(_) => (s.(rawSwarm := m), result)
  }

  /** `dial_addr`: builds a fresh handler and dials the address with no expected peer. */
  function DialAddr(s: State, addr: Multiaddr): (r: (State, Result<(), Multiaddr>))
    ensures r.1.Err? <==> !s.rawSwarm.transport.dialable(addr)
    ensures r.1.Err? ==> r.1.error == addr
    ensures r.0.behaviour.log == s.behaviour.log + [Callback.NewHandler]
    ensures r.0.behaviour.handlersBuilt == s.behaviour.handlersBuilt + 1
    ensures r.0.behaviour.script == s.behaviour.script
    ensures r.0.rawSwarm == s.rawSwarm.(calls := s.rawSwarm.calls + [DialCall(addr)])
    ensures r.0.topology == s.topology && r.0.listenedAddrs == s.listenedAddrs
    ensures SameFrame(r.0, s)
  {
    var (b, _) := s.behaviour.NewHandler();
    var (m, result) := s.rawSwarm.Dial(addr);
    (s.(behaviour := b, rawSwarm := m), result)
  }

  /**
   * `dial`: a fresh handler is built in every case, but the manager is asked
   * to connect, over the topology's addresses for the peer, only when the
   * peer is not connected.
   */
  function Dial(s: State, peer: PeerId): (r: State)
    ensures r.behaviour.log == s.behaviour.log + [Callback.NewHandler]
    ensures r.behaviour.handlersBuilt == s.behaviour.handlersBuilt + 1
    ensures r.behaviour.script == s.behaviour.script
    ensures s.rawSwarm.Peer(peer) == PeerNotConnected ==>
      r.rawSwarm == s.rawSwarm.ConnectIter(peer, s.topology.AddressesOfPeer(peer))
    ensures s.rawSwarm.Peer(peer) != PeerNotConnected ==> r.rawSwarm == s.rawSwarm
    ensures r.topology == s.topology && r.listenedAddrs == s.listenedAddrs
    ensures SameFrame(r, s)
  {
    var addrs := s.topology.AddressesOfPeer(peer);
    var (b, _) := s.behaviour.NewHandler();
    var m := if s.rawSwarm.Peer(peer) == PeerNotConnected then s.rawSwarm.ConnectIter(peer, addrs) else s.rawSwarm;
    s.(behaviour := b, rawSwarm := m)
  }

  /** The fixed table of behaviour calls each manager event gives rise to. */
  function Dispatched(ev: RawSwarmEvent): seq<Callback>
  {
    match ev
    case NodeEvent(p, e) => [Callback.InjectNodeEvent(p, e)]
    case Connected(p, e) => [Callback.InjectConnected(p, e)]
    case NodeClosed(p, e) => [Callback.InjectDisconnected(p, e)]
    case NodeError(p, e) => [Callback.InjectDisconnected(p, e)]
    case Replaced(p, closed, e) => [Callback.InjectDisconnected(p, closed), Callback.InjectConnected(p, e)]
    case IncomingConnection(_, _) => [Callback.NewHandler]
    case ListenerClosed(_) => []
    case IncomingConnectionError(_, _) => []
    case DialError(_, _, _) => []
    case UnknownPeerDialError(_) => []
  }

  /** The four events the drive loop absorbs without any reaction. */
  predicate IsAbsorbed(ev: RawSwarmEvent)
  {
    ev.ListenerClosed? || ev.IncomingConnectionError? || ev.DialError? || ev.UnknownPeerDialError?
  }

  /** Step 2 of the drive loop: hands one manager event to the behaviour. */
  function Deliver(s: State, ev: RawSwarmEvent): (r: State)
    ensures r.behaviour.log == s.behaviour.log + Dispatched(ev)
    ensures r.behaviour.script == s.behaviour.script
    ensures r.rawSwarm == if ev.IncomingConnection? then s.rawSwarm.Accept(ev.listenAddr, ev.sendBackAddr) else s.rawSwarm
    ensures r.topology == s.topology && r.listenedAddrs == s.listenedAddrs
    ensures SameFrame(r, s)
  {
    match ev
    case NodeEvent(p, e) => s.(behaviour := s.behaviour.InjectNodeEvent(p, e))
    case Connected(p, e) => s.(behaviour := s.behaviour.InjectConnected(p, e))
    case NodeClosed(p, e) => s.(behaviour := s.behaviour.InjectDisconnected(p, e))
    case NodeError(p, e) => s.(behaviour := s.behaviour.InjectDisconnected(p, e))
    case Replaced(p, closed, e) => s.(behaviour := s.behaviour.InjectDisconnected(p, closed).InjectConnected(p, e))
    case IncomingConnection(l, sb) =>
      var (b, _) := s.behaviour.NewHandler();
      s.(behaviour := b, rawSwarm := s.rawSwarm.Accept(l, sb))
    case ListenerClosed(_) => s
    case IncomingConnectionError(_, _) => s
    case DialError(_, _, _) => s
    case UnknownPeerDialError(_) => s
  }

  /** The view handed to the behaviour: current topology, frozen protocols, listened addresses. */
  function Parameters(s: State): (p: PollParameters)
    ensures p.SupportedProtocols() == s.supportedProtocols
    ensures p.ListenedAddresses() == s.listenedAddrs
    ensures p.LocalPeerId() == s.topology.localPeerId
    ensures forall server, observed :: p.NatTraversal(server, observed) == s.rawSwarm.transport.natTraversal(server, observed)
  {
    PollParameters(s.topology, s.supportedProtocols, s.listenedAddrs, s.rawSwarm.transport.natTraversal)
  }

  /** Carries out an action other than `GenerateEvent`. */
  function Perform(s: State, a: NetworkBehaviourAction): (r: State)
    requires !a.GenerateEvent?
    ensures a.SendEvent? ==>
      r == if s.rawSwarm.Peer(a.peer) == PeerConnected
           then s.(rawSwarm := s.rawSwarm.(calls := s.rawSwarm.calls + [SendCall(a.peer, a.inEvent)]))
           else s
    ensures a.ReportObservedAddr? ==>
      r == s.(topology := s.topology.AddLocalExternalAddrs(s.rawSwarm.NatTraversal(a.address)))
    ensures a.DialAddress? ==> r == DialAddr(s, a.address).0
    ensures a.DialPeer? ==> r == Dial(s, a.peer)
    ensures r.behaviour.log == s.behaviour.log + (if a.DialAddress? || a.DialPeer? then [Callback.NewHandler] else [])
    ensures r.behaviour.script == s.behaviour.script && r.rawSwarm.supply == s.rawSwarm.supply
    ensures r.listenedAddrs == s.listenedAddrs
    ensures SameFrame(r, s)
  {
    match a
    case DialAddress(addr) => DialAddr(s, addr).0
    case DialPeer(p) => Dial(s, p)
    case SendEvent(p, e) =>
      if s.rawSwarm.Peer(p) == PeerConnected then s.(rawSwarm := s.rawSwarm.SendEvent(p, e)) else s
    case ReportObservedAddr(addr) =>
      s.(topology := s.topology.AddLocalExternalAddrs(s.rawSwarm.NatTraversal(addr)))
  }

  /** How one iteration of the drive loop ends. */
  datatype StepResult =
    | Return(state: State, outcome: Async<Option<OutEvent>>)
    | Continue(state: State)

  /** The manager has nothing to report at its next poll. */
  predicate ManagerIdle(s: State)
  {
    s.rawSwarm.supply == [] || s.rawSwarm.supply[0].NotReady?
  }

  /** The behaviour has nothing to do at its next poll. */
  predicate BehaviourIdle(s: State)
  {
    s.behaviour.script == [] || s.behaviour.script[0].NotReady?
  }

  /** The behaviour's next poll asks for an event to be handed out. */
  predicate Generates(s: State)
  {
    s.behaviour.script != [] && s.behaviour.script[0].Ready? && s.behaviour.script[0].item.GenerateEvent?
  }

  /** The termination measure of the drive loop went down. */
  predicate Below(s': State, s: State)
  {
    |s'.behaviour.script| < |s.behaviour.script| ||
    (|s'.behaviour.script| == |s.behaviour.script| && |s'.rawSwarm.supply| < |s.rawSwarm.supply|)
  }

  /** The behaviour's next poll asks for an address or a peer to be dialled. */
  predicate RequestsDial(s: State)
  {
    s.behaviour.script != [] && s.behaviour.script[0].Ready? &&
    (s.behaviour.script[0].item.DialAddress? || s.behaviour.script[0].item.DialPeer?)
  }

  /**
   * Steps 1 and 2 of the drive loop: poll the manager once and hand its
   * event, if any, to the behaviour; also tells whether the manager was not ready.
   */
  function PollManager(s: State): (r: (State, bool))
    ensures r.1 <==> ManagerIdle(s)
    ensures r.0.behaviour.log ==
      s.behaviour.log + (if ManagerIdle(s) then [] else Dispatched(s.rawSwarm.supply[0].item))
    ensures r.0.behaviour.script == s.behaviour.script
    ensures r.0.rawSwarm.supply == if s.rawSwarm.supply == [] then [] else s.rawSwarm.supply[1..]
    ensures r.0.topology == s.topology && r.0.listenedAddrs == s.listenedAddrs
    ensures SameFrame(r.0, s)
  {
    var (m, polled) := s.rawSwarm.Poll();
    match polled
    case NotReady => (s.(rawSwarm := m), true)
    case Ready(ev) => (Deliver(s.(rawSwarm := m), ev), false)
  }

  /**
   * Steps 3 and 4 of the drive loop: poll the behaviour once with fresh
   * parameters, then return, suspend or carry out the action it asked for.
   */
  function PollBehaviour(s: State, rawSwarmNotReady: bool): (r: StepResult)
    ensures r.Return? <==> (rawSwarmNotReady && BehaviourIdle(s)) || Generates(s)
    ensures r.Return? ==>
      r.outcome == if Generates(s) then Ready(Some(s.behaviour.script[0].item.event)) else NotReady
    ensures r.state.behaviour.log ==
      s.behaviour.log + [PollCall(Parameters(s))] + (if RequestsDial(s) then [Callback.NewHandler] else [])
    ensures r.state.behaviour.script == if s.behaviour.script == [] then [] else s.behaviour.script[1..]
    ensures r.state.rawSwarm.supply == s.rawSwarm.supply
    ensures r.state.listenedAddrs == s.listenedAddrs
    ensures SameFrame(r.state, s)
  {
    var (b, action) := s.behaviour.Poll(Parameters(s));
    var s2 := s.(behaviour := b);
    match action
    case NotReady => if rawSwarmNotReady then Return(s2, NotReady) else Continue(s2)
    case Ready(a) => if a.GenerateEvent? then Return(s2, Ready(Some(a.event))) else Continue(Perform(s2, a))
  }

  /**
   * One iteration of the drive loop: poll the manager once and dispatch its
   * event, poll the behaviour once with fresh parameters, then return,
   * suspend or carry out the action.
   */
  function Step(s: State): (r: StepResult)
    ensures r.Return? <==> (ManagerIdle(s) && BehaviourIdle(s)) || Generates(s)
    ensures r.Return? ==>
      r.outcome == if Generates(s) then Ready(Some(s.behaviour.script[0].item.event)) else NotReady
    ensures r.Continue? ==> Below(r.state, s)
    ensures r.state.behaviour.log ==
      PollManager(s).0.behaviour.log + [PollCall(Parameters(PollManager(s).0))] +
      (if RequestsDial(s) then [Callback.NewHandler] else [])
    ensures r.state.rawSwarm.supply == if s.rawSwarm.supply == [] then [] else s.rawSwarm.supply[1..]
    ensures r.state.behaviour.script == if s.behaviour.script == [] then [] else s.behaviour.script[1..]
    ensures r.state.listenedAddrs == s.listenedAddrs
    ensures SameFrame(r.state, s)
  {
    var (s1, rawSwarmNotReady) := PollManager(s);
    PollBehaviour(s1, rawSwarmNotReady)
  }

  /**
   * The whole state after a behaviour poll: the polled behaviour alone when
   * it was idle or generated an event; otherwise the requested action is
   * carried out on top of it and the loop goes round again.
   */
  lemma PollBehaviourActs(s: State, rawSwarmNotReady: bool)
    ensures var polled := s.(behaviour := s.behaviour.Poll(Parameters(s)).0);
      BehaviourIdle(s) || Generates(s) ==> PollBehaviour(s, rawSwarmNotReady).state == polled
    ensures var polled := s.(behaviour := s.behaviour.Poll(Parameters(s)).0);
      !BehaviourIdle(s) && !Generates(s) ==>
        PollBehaviour(s, rawSwarmNotReady) == Continue(Perform(polled, s.behaviour.script[0].item))
  {
  }

  /** The same for a whole iteration, on the state after the manager poll. */
  lemma StepActs(s: State)
    ensures var s1 := PollManager(s).0;
      var polled := s1.(behaviour := s1.behaviour.Poll(Parameters(s1)).0);
      BehaviourIdle(s) || Generates(s) ==> Step(s).state == polled
    ensures var s1 := PollManager(s).0;
      var polled := s1.(behaviour := s1.behaviour.Poll(Parameters(s1)).0);
      !BehaviourIdle(s) && !Generates(s) ==> Step(s) == Continue(Perform(polled, s.behaviour.script[0].item))
  {
    var (s1, rawSwarmNotReady) := PollManager(s);
    PollBehaviourActs(s1, rawSwarmNotReady);
  }

  /**
   * One external pull: iterations until one returns. The result is never
   * the end of the stream.
   */
  function Pull(s: State): (r: (State, Async<Option<OutEvent>>))
    ensures r.1 != Ready(None)
    ensures r.0.listenedAddrs == s.listenedAddrs
    ensures SameFrame(r.0, s)
    decreases |s.behaviour.script|, |s.rawSwarm.supply|
  {
    match Step(s)
    case Return(s', outcome) => (s', outcome)
    case Continue(s') => Pull(s')
  }
}

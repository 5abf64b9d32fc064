/**
 * Properties of the swarm state machine that relate several operations or
 * several iterations of the drive loop.
 */
module SwarmProps {
  import opened Types
  import opened Collaborators
  import opened NetworkBehaviour
  import opened SwarmSpec

  // ---------------------------------------------------------------------
  // Event dispatch
  // ---------------------------------------------------------------------

  /** A call that notifies the behaviour of something (as opposed to building a handler or polling it). */
  predicate IsNotification(c: Callback)
  {
    c.InjectConnected? || c.InjectDisconnected? || c.InjectNodeEvent?
  }

  /** The notifications of a log, in order. */
  function Notifications(log: seq<Callback>): (r: seq<Callback>)
    ensures |r| <= |log|
    ensures forall i :: 0 <= i < |r| ==> IsNotification(r[i])
  {
    if log == [] then []
    else
      var last := log[|log| - 1];
      Notifications(log[..|log| - 1]) + (if IsNotification(last) then [last] else [])
  }

  lemma {:induction false} NotificationsConcat(a: seq<Callback>, b: seq<Callback>)
    ensures Notifications(a + b) == Notifications(a) + Notifications(b)
    decreases |b|
  {
    if b == [] {
      assert a + b == a;
    } else {
      var b0 := b[..|b| - 1];
      assert (a + b)[..|a + b| - 1] == a + b0;
      assert (a + b)[|a + b| - 1] == b[|b| - 1];
      NotificationsConcat(a, b0);
    }
  }

  /** The notifications one manager poll result gives rise to. */
  function Heard(poll: Async<RawSwarmEvent>): seq<Callback>
  {
    if poll.Ready? then Notifications(Dispatched(poll.item)) else []
  }

  /** The concatenation of `f` over the elements of `xs`, in order. */
  function FlatMap<T, U>(f: T -> seq<U>, xs: seq<T>): seq<U>
  {
    if xs == [] then [] else FlatMap(f, xs[..|xs| - 1]) + f(xs[|xs| - 1])
  }

  lemma {:induction false} FlatMapConcat<T, U>(f: T -> seq<U>, a: seq<T>, b: seq<T>)
    ensures FlatMap(f, a + b) == FlatMap(f, a) + FlatMap(f, b)
    decreases |b|
  {
    if b == [] {
      assert a + b == a;
    } else {
      var b0 := b[..|b| - 1];
      assert (a + b)[..|a + b| - 1] == a + b0;
      assert (a + b)[|a + b| - 1] == b[|b| - 1];
      FlatMapConcat(f, a, b0);
    }
  }

  /** The notifications a sequence of manager poll results gives rise to, in order. */
  function Expected(polls: seq<Async<RawSwarmEvent>>): seq<Callback>
  {
    FlatMap(Heard, polls)
  }

  /**
   * Every event other than the four absorbed ones and incoming connections
   * notifies the behaviour, and only about the event's own peer: exactly once,
   * or twice (disconnected then connected) for a replacement.
   */
  lemma DispatchIsOneToOne(ev: RawSwarmEvent)
    ensures IsAbsorbed(ev) || ev.IncomingConnection? <==> Notifications(Dispatched(ev)) == []
    ensures ev.Replaced? <==> |Notifications(Dispatched(ev))| == 2
    ensures ev.NodeEvent? || ev.Connected? || ev.NodeClosed? || ev.NodeError? ==> |Notifications(Dispatched(ev))| == 1
    ensures forall c :: c in Notifications(Dispatched(ev)) ==> c.peer == ev.peer
    ensures ev.IncomingConnection? ==> Dispatched(ev) == [Callback.NewHandler]
  {
    var d := Dispatched(ev);
    assert d == [] || d[..|d| - 1] == [] || d[..|d| - 1] == [d[0]];
  }

  /** Absorbed events, and only they, leave the whole state as it was. */
  lemma AbsorbedIffInert(s: State, ev: RawSwarmEvent)
    ensures Deliver(s, ev) == s <==> IsAbsorbed(ev)
  {
    if !IsAbsorbed(ev) {
      assert |Deliver(s, ev).behaviour.log| > |s.behaviour.log|;
    }
  }

  /** A replacement notifies a disconnection immediately followed by the new connection. */
  lemma ReplacedIsAtomic(s: State, p: PeerId, closed: ConnectedPoint, endpoint: ConnectedPoint)
    requires s.rawSwarm.supply != [] && s.rawSwarm.supply[0] == Ready(Replaced(p, closed, endpoint))
    ensures var log := Step(s).state.behaviour.log;
      |log| > |s.behaviour.log| + 1 &&
      log[..|s.behaviour.log| + 2] ==
        s.behaviour.log + [Callback.InjectDisconnected(p, closed), Callback.InjectConnected(p, endpoint)]
  {
  }

  lemma NotificationsOfStepLog(log: seq<Callback>, delivered: seq<Callback>, poll: Callback, extra: seq<Callback>)
    requires !IsNotification(poll)
    requires forall i :: 0 <= i < |extra| ==> !IsNotification(extra[i])
    ensures Notifications(log + delivered + [poll] + extra) == Notifications(log) + Notifications(delivered)
  {
    var front := log + delivered;
    AppendSilent(front + [poll], extra);
    AppendSilent(front, [poll]);
    NotificationsConcat(log, delivered);
  }

  lemma AppendSilent(front: seq<Callback>, silent: seq<Callback>)
    requires forall i :: 0 <= i < |silent| ==> !IsNotification(silent[i])
    ensures Notifications(front + silent) == Notifications(front)
  {
    NotificationsConcat(front, silent);
    NoNotifications(silent);
  }

  lemma {:induction false} NoNotifications(xs: seq<Callback>)
    requires forall i :: 0 <= i < |xs| ==> !IsNotification(xs[i])
    ensures Notifications(xs) == []
  {
    if xs != [] {
      NoNotifications(xs[..|xs| - 1]);
    }
  }

  /** One iteration notifies the behaviour of exactly the event it took from the manager. */
  lemma StepNotifies(s: State) returns (k: nat)
    ensures k == if s.rawSwarm.supply == [] then 0 else 1
    ensures Notifications(Step(s).state.behaviour.log) ==
      Notifications(s.behaviour.log) + Expected(s.rawSwarm.supply[..k])
  {
    var sup := s.rawSwarm.supply;
    k := if sup == [] then 0 else 1;
    var s1 := PollManager(s).0;
    var delivered := if ManagerIdle(s) then [] else Dispatched(sup[0].item);
    var extra := if RequestsDial(s) then [Callback.NewHandler] else [];
    assert Step(s).state.behaviour.log == s.behaviour.log + delivered + [PollCall(Parameters(s1))] + extra;
    NotificationsOfStepLog(s.behaviour.log, delivered, PollCall(Parameters(s1)), extra);
    ExpectedFirst(sup, k);
  }

  /** The notifications expected from the first `k` (at most one) poll results. */
  lemma ExpectedFirst(sup: seq<Async<RawSwarmEvent>>, k: nat)
    requires k == if sup == [] then 0 else 1
    ensures Expected(sup[..k]) ==
      if sup == [] || sup[0].NotReady? then [] else Notifications(Dispatched(sup[0].item))
  {
    if k == 1 {
      var head := sup[..1];
      assert head[..0] == [];
      assert FlatMap(Heard, head) == FlatMap(Heard, []) + Heard(head[0]);
    }
  }

  lemma SplitAt<T>(xs: seq<T>, k1: nat, k2: nat)
    requires k1 + k2 <= |xs|
    ensures xs[k1..][k2..] == xs[k1 + k2..]
    ensures xs[..k1 + k2] == xs[..k1] + xs[k1..][..k2]
  {
  }

  lemma ConcatAssoc<T>(a: seq<T>, b: seq<T>, c: seq<T>)
    ensures a + (b + c) == (a + b) + c
  {
  }

  /**
   * One pull notifies the behaviour, in order and without omission, of every
   * event it took from the manager, and of nothing else.
   */
  lemma {:induction false} PullNotifiesInOrder(s: State) returns (k: nat)
    ensures k <= |s.rawSwarm.supply|
    ensures Pull(s).0.rawSwarm.supply == s.rawSwarm.supply[k..]
    ensures Notifications(Pull(s).0.behaviour.log) ==
      Notifications(s.behaviour.log) + Expected(s.rawSwarm.supply[..k])
    decreases |s.behaviour.script|, |s.rawSwarm.supply|
  {
    var k1 := StepNotifies(s);
    match Step(s)
    case Return(_, _) =>
      k := k1;
    case Continue(s') =>
      var sup := s.rawSwarm.supply;
      var k2 := PullNotifiesInOrder(s');
      k := k1 + k2;
      SplitAt(sup, k1, k2);
      FlatMapConcat(Heard, sup[..k1], sup[k1..][..k2]);
      ConcatAssoc(Notifications(s.behaviour.log), Expected(sup[..k1]), Expected(s'.rawSwarm.supply[..k2]));
  }

  /** The state after one iteration of the drive loop. */
  function Next(s: State): State
  {
    Step(s).state
  }

  /** The iteration from this state ends the pull. */
  predicate Returns(s: State)
  {
    Step(s).Return?
  }

  /** What the iteration from this state hands back if it ends the pull. */
  function Outcome(s: State): Async<Option<OutEvent>>
  {
    match Step(s)
    case Return(_, outcome) => outcome
    case Continue(_) => NotReady
  }

  /** The state after `n` applications of `next`. */
  function IterOf<S>(next: S -> S, s: S, n: nat): S
    decreases n
  {
    if n == 0 then s else IterOf(next, next(s), n - 1)
  }

  /** The state after `n` iterations of the drive loop. */
  function Iter(s: State, n: nat): State
  {
    IterOf(Next, s, n)
  }

  /**
   * A pull ends with the first iteration that returns: the n-th one, all
   * earlier ones going round again. It hands out an event exactly when the
   * behaviour generated one in that iteration, and suspends only when the
   * manager and the behaviour were both not ready in that same iteration.
   */
  lemma PullEndsAtReturn(s: State) returns (n: nat)
    ensures forall j :: 0 <= j < n ==> !Returns(Iter(s, j))
    ensures Returns(Iter(s, n))
    ensures Pull(s).0 == Next(Iter(s, n)) && Pull(s).1 == Outcome(Iter(s, n))
    ensures var last := Iter(s, n);
      Pull(s).1 == NotReady ==> ManagerIdle(last) && BehaviourIdle(last) && !Generates(last)
    ensures var last := Iter(s, n);
      Pull(s).1.Ready? ==> Generates(last) && Pull(s).1 == Ready(Some(last.behaviour.script[0].item.event))
  {
    LoopGoesDown();
    n := FirstExit(Next, Returns, (x: State) => |x.behaviour.script|, (x: State) => |x.rawSwarm.supply|, Pull, s);
    PullReturns(Iter(s, n));
    ReturnOutcome(Iter(s, n));
  }

  /** How an iteration that returns ends. */
  lemma ReturnOutcome(last: State)
    requires Returns(last)
    ensures Outcome(last) == NotReady ==> ManagerIdle(last) && BehaviourIdle(last) && !Generates(last)
    ensures Outcome(last).Ready? ==>
      Generates(last) && Outcome(last) == Ready(Some(last.behaviour.script[0].item.event))
  {
  }

  /** An iteration that returns ends the pull with its own state and outcome. */
  lemma PullReturns(s: State)
    requires Returns(s)
    ensures Pull(s).0 == Next(s) && Pull(s).1 == Outcome(s)
  {
  }

  /** Every iteration that goes round again lowers the measure and leaves the rest of the pull to the next state. */
  lemma LoopGoesDown()
    ensures forall x :: !Returns(x) ==>
      |Next(x).behaviour.script| < |x.behaviour.script| ||
      (|Next(x).behaviour.script| == |x.behaviour.script| && |Next(x).rawSwarm.supply| < |x.rawSwarm.supply|)
    ensures forall x :: !Returns(x) ==> Pull(Next(x)) == Pull(x)
  {
  }

  /**
   * In any transition system whose steps that do not exit lower a
   * lexicographic measure, some number of steps reaches the first exit; a
   * quantity that no such step changes is the same there as at the start.
   */
  lemma {:induction false} FirstExit<S, R>(next: S -> S, exits: S -> bool, m1: S -> nat, m2: S -> nat, keep: S -> R, s: S)
    returns (n: nat)
    requires forall x :: !exits(x) ==> m1(next(x)) < m1(x) || (m1(next(x)) == m1(x) && m2(next(x)) < m2(x))
    requires forall x :: !exits(x) ==> keep(next(x)) == keep(x)
    ensures forall j :: 0 <= j < n ==> !exits(IterOf(next, s, j))
    ensures exits(IterOf(next, s, n))
    ensures keep(IterOf(next, s, n)) == keep(s)
    decreases m1(s), m2(s)
  {
    if exits(s) {
      n := 0;
    } else {
      var n' := FirstExit(next, exits, m1, m2, keep, next(s));
      n := n' + 1;
      forall j | 0 < j < n
        ensures IterOf(next, s, j) == IterOf(next, next(s), j - 1)
      {
      }
    }
  }

  // ---------------------------------------------------------------------
  // Sequences of operations
  // ---------------------------------------------------------------------

  /** An operation the embedder can invoke on the swarm. */
  datatype Op =
    | ListenOp(addr: Multiaddr)
    | DialAddrOp(addr: Multiaddr)
    | DialOp(peer: PeerId)
    | SetTopologyOp(topology: Topology)
    | PullOp

  function Apply(s: State, op: Op): State
  {
    match op
    case ListenOp(a) => ListenOn(s, a).0
    case DialAddrOp(a) => DialAddr(s, a).0
    case DialOp(p) => Dial(s, p)
    case SetTopologyOp(t) => s.(topology := t)
    case PullOp => Pull(s).0
  }

  function Run(s: State, ops: seq<Op>): State
    decreases |ops|
  {
    if ops == [] then s else Run(Apply(s, ops[0]), ops[1..])
  }

  /** How many of the listen requests among the operations the transport accepts. */
  function ListenSuccesses(t: Transport, ops: seq<Op>): nat
  {
    if ops == [] then 0
    else (if ops[0].ListenOp? && t.listen(ops[0].addr).Some? then 1 else 0) + ListenSuccesses(t, ops[1..])
  }

  /**
   * Whatever the operations, the listened-address list only grows, by
   * exactly one address per successful listen request, and the protocol
   * list stays what it was.
   */
  lemma {:induction false} RunListenedAddrs(s: State, ops: seq<Op>)
    ensures s.listenedAddrs <= Run(s, ops).listenedAddrs
    ensures |Run(s, ops).listenedAddrs| == |s.listenedAddrs| + ListenSuccesses(s.rawSwarm.transport, ops)
    ensures SameFrame(Run(s, ops), s)
    decreases |ops|
  {
    if ops != [] {
      var s' := Apply(s, ops[0]);
      assert SameFrame(s', s);
      assert |s'.listenedAddrs| == |s.listenedAddrs| + (if ops[0].ListenOp? && s.rawSwarm.transport.listen(ops[0].addr).Some? then 1 else 0);
      assert s.listenedAddrs <= s'.listenedAddrs;
      RunListenedAddrs(s', ops[1..]);
    }
  }

  /**
   * Every parameter set the behaviour has been polled with reported the
   * frozen protocol list and a prefix of the listened addresses.
   */
  ghost predicate SnapshotsFaithful(s: State)
  {
    forall i :: 0 <= i < |s.behaviour.log| && s.behaviour.log[i].PollCall? ==>
      s.behaviour.log[i].params.SupportedProtocols() == s.supportedProtocols &&
      s.behaviour.log[i].params.ListenedAddresses() <= s.listenedAddrs
  }

  /** The log only grows, and the listened addresses only grow, from s to s'. */
  ghost predicate Extends(s': State, s: State)
  {
    s.behaviour.log <= s'.behaviour.log && s.listenedAddrs <= s'.listenedAddrs && SameFrame(s', s)
  }

  /** New log entries that are polls carry the current protocols and listened addresses. */
  ghost predicate FreshPollsFaithful(s': State, s: State)
    requires s.behaviour.log <= s'.behaviour.log
  {
    forall i :: |s.behaviour.log| <= i < |s'.behaviour.log| && s'.behaviour.log[i].PollCall? ==>
      s'.behaviour.log[i].params.SupportedProtocols() == s'.supportedProtocols &&
      s'.behaviour.log[i].params.ListenedAddresses() <= s'.listenedAddrs
  }

  lemma KeepFaithful(s: State, s': State)
    requires SnapshotsFaithful(s) && Extends(s', s) && FreshPollsFaithful(s', s)
    ensures SnapshotsFaithful(s')
  {
    forall i | 0 <= i < |s'.behaviour.log| && s'.behaviour.log[i].PollCall?
      ensures s'.behaviour.log[i].params.SupportedProtocols() == s'.supportedProtocols
      ensures s'.behaviour.log[i].params.ListenedAddresses() <= s'.listenedAddrs
    {
      if i < |s.behaviour.log| {
        assert s'.behaviour.log[i] == s.behaviour.log[i];
      }
    }
  }

  /** Dispatching an event never polls the behaviour. */
  lemma DispatchedNeverPolls(ev: RawSwarmEvent)
    ensures forall i :: 0 <= i < |Dispatched(ev)| ==> !Dispatched(ev)[i].PollCall?
  {
  }

  lemma PollManagerKeepsSnapshots(s: State)
    requires SnapshotsFaithful(s)
    ensures SnapshotsFaithful(PollManager(s).0)
  {
    var s1 := PollManager(s).0;
    if !ManagerIdle(s) {
      DispatchedNeverPolls(s.rawSwarm.supply[0].item);
    }
    assert FreshPollsFaithful(s1, s);
    KeepFaithful(s, s1);
  }

  lemma PollBehaviourKeepsSnapshots(s: State, rawSwarmNotReady: bool)
    requires SnapshotsFaithful(s)
    ensures SnapshotsFaithful(PollBehaviour(s, rawSwarmNotReady).state)
  {
    var s' := PollBehaviour(s, rawSwarmNotReady).state;
    forall i | |s.behaviour.log| <= i < |s'.behaviour.log| && s'.behaviour.log[i].PollCall?
      ensures s'.behaviour.log[i] == PollCall(Parameters(s))
    {
    }
    KeepFaithful(s, s');
  }

  /** One iteration keeps every recorded poll faithful to the frozen protocols and the listened addresses. */
  lemma StepKeepsSnapshots(s: State)
    requires SnapshotsFaithful(s)
    ensures SnapshotsFaithful(Step(s).state)
  {
    PollManagerKeepsSnapshots(s);
    var (s1, rawSwarmNotReady) := PollManager(s);
    PollBehaviourKeepsSnapshots(s1, rawSwarmNotReady);
  }

  lemma {:induction false} PullKeepsSnapshots(s: State)
    requires SnapshotsFaithful(s)
    ensures SnapshotsFaithful(Pull(s).0)
    decreases |s.behaviour.script|, |s.rawSwarm.supply|
  {
    StepKeepsSnapshots(s);
    match Step(s)
    case Return(_, _) =>
    case Continue(s') => PullKeepsSnapshots(s');
  }

  lemma ApplyKeepsSnapshots(s: State, op: Op)
    requires SnapshotsFaithful(s)
    ensures SnapshotsFaithful(Apply(s, op))
  {
    match op
    case PullOp => PullKeepsSnapshots(s);
    case ListenOp(a) => KeepFaithful(s, Apply(s, op));
    case DialAddrOp(a) => KeepFaithful(s, Apply(s, op));
    case DialOp(p) => KeepFaithful(s, Apply(s, op));
    case SetTopologyOp(t) => KeepFaithful(s, Apply(s, op));
  }

  lemma {:induction false} RunKeepsSnapshots(s: State, ops: seq<Op>)
    requires SnapshotsFaithful(s)
    ensures SnapshotsFaithful(Run(s, ops))
    decreases |ops|
  {
    if ops != [] {
      ApplyKeepsSnapshots(s, ops[0]);
      RunKeepsSnapshots(Apply(s, ops[0]), ops[1..]);
    }
  }

  /**
   * Across any sequence of listens, dials, topology writes and pulls after
   * construction, every poll of the behaviour is handed the protocol list of
   * the handler built at construction, whatever the protocols of the
   * handlers built since, and the listened addresses known at that moment,
   * which are a prefix of the final list.
   */
  lemma ProtocolsFrozenForever(t: Transport, supply: seq<Async<RawSwarmEvent>>, b: Behaviour, topo: Topology, ops: seq<Op>)
    requires b.log == []
    ensures var s := Run(New(t, supply, b, topo), ops);
      forall i :: 0 <= i < |s.behaviour.log| && s.behaviour.log[i].PollCall? ==>
        s.behaviour.log[i].params.SupportedProtocols() == b.protocolsOfHandler(b.handlersBuilt) &&
        s.behaviour.log[i].params.ListenedAddresses() <= s.listenedAddrs
  {
    var s0 := New(t, supply, b, topo);
    assert s0.behaviour.log == [Callback.NewHandler];
    RunKeepsSnapshots(s0, ops);
    RunListenedAddrs(s0, ops);
  }

  /**
   * The list does go stale: after construction and one dial, the handler
   * just built listens on the behaviour's second protocol list, yet the
   * next poll is still told the first.
   */
  lemma ProtocolsGoStale(t: Transport, supply: seq<Async<RawSwarmEvent>>, b: Behaviour, topo: Topology, p: PeerId)
    requires b.protocolsOfHandler(b.handlersBuilt) != b.protocolsOfHandler(b.handlersBuilt + 1)
    ensures var s := Dial(New(t, supply, b, topo), p);
      s.behaviour.handlersBuilt == b.handlersBuilt + 2 &&
      Parameters(s).SupportedProtocols() == b.protocolsOfHandler(b.handlersBuilt) &&
      Parameters(s).SupportedProtocols() != s.behaviour.protocolsOfHandler(s.behaviour.handlersBuilt - 1)
  {
  }

  /** After construction and one successful listen, both lists hold exactly the bound address. */
  lemma ListenAfterNew(t: Transport, supply: seq<Async<RawSwarmEvent>>, b: Behaviour, topo: Topology, addr: Multiaddr, bound: Multiaddr)
    requires t.listen(addr) == Some(bound)
    ensures var r := ListenOn(New(t, supply, b, topo), addr);
      r.1 == Ok(bound) && r.0.listenedAddrs == [bound] && r.0.rawSwarm.listeners == [bound]
  {
  }

  // ---------------------------------------------------------------------
  // Dialling a peer
  // ---------------------------------------------------------------------

  /** The number of connect requests for a peer among the manager calls. */
  function ConnectCount(calls: seq<ManagerCall>, p: PeerId): nat
  {
    if calls == [] then 0
    else
      var last := calls[|calls| - 1];
      ConnectCount(calls[..|calls| - 1], p) + (if last.ConnectCall? && last.peer == p then 1 else 0)
  }

  lemma ConnectCountAppend(calls: seq<ManagerCall>, c: ManagerCall, p: PeerId)
    ensures ConnectCount(calls + [c], p) == ConnectCount(calls, p) + (if c.ConnectCall? && c.peer == p then 1 else 0)
  {
    assert (calls + [c])[..|calls|] == calls;
  }

  /**
   * Dialling a peer twice connects it once: the first dial makes it pending
   * when one of its addresses can be dialled, and the second is then a no-op
   * apart from building a handler.
   */
  lemma DialTwiceConnectsOnce(s: State, p: PeerId)
    requires s.rawSwarm.Peer(p) == PeerNotConnected
    requires AnyDialable(s.rawSwarm.transport, s.topology.AddressesOfPeer(p))
    ensures var s2 := Dial(Dial(s, p), p);
      s2.rawSwarm.calls == s.rawSwarm.calls + [ConnectCall(p, s.topology.AddressesOfPeer(p))] &&
      s2.behaviour.log == s.behaviour.log + [Callback.NewHandler, Callback.NewHandler]
  {
    var s1 := Dial(s, p);
    assert s1.rawSwarm.Peer(p) == PeerPendingConnect;
  }

  /** A manager event that concerns a given peer. */
  predicate Mentions(ev: RawSwarmEvent, p: PeerId)
  {
    (ev.NodeEvent? || ev.Connected? || ev.NodeClosed? || ev.NodeError? || ev.Replaced? || ev.DialError?) && ev.peer == p
  }

  /** The behaviour asks for the peer to be dialled at every poll. */
  predicate OnlyDials(script: seq<Async<NetworkBehaviourAction>>, p: PeerId)
  {
    forall i :: 0 <= i < |script| ==> script[i] == Ready(DialPeer(p))
  }

  /** The manager reports nothing about the peer. */
  predicate QuietAbout(supply: seq<Async<RawSwarmEvent>>, p: PeerId)
  {
    forall i :: 0 <= i < |supply| && supply[i].Ready? ==> !Mentions(supply[i].item, p)
  }

  lemma ObserveKeepsOtherPeers(m: RawSwarm, ev: RawSwarmEvent, p: PeerId)
    requires !Mentions(ev, p)
    ensures m.Observe(ev).Peer(p) == m.Peer(p)
  {
  }

  /** Polling a manager that reports nothing about the peer leaves the peer and its connect count alone. */
  lemma PollManagerQuiet(s: State, p: PeerId)
    requires QuietAbout(s.rawSwarm.supply, p)
    ensures var s1 := PollManager(s).0;
      s1.rawSwarm.Peer(p) == s.rawSwarm.Peer(p) &&
      ConnectCount(s1.rawSwarm.calls, p) == ConnectCount(s.rawSwarm.calls, p) &&
      QuietAbout(s1.rawSwarm.supply, p)
  {
    var (m, polled) := s.rawSwarm.Poll();
    if polled.Ready? {
      assert !Mentions(polled.item, p);
      ObserveKeepsOtherPeers(s.rawSwarm.(supply := s.rawSwarm.supply[1..]), polled.item, p);
      if polled.item.IncomingConnection? {
        ConnectCountAppend(m.calls, AcceptCall(polled.item.listenAddr, polled.item.sendBackAddr), p);
      }
    }
    var s1 := PollManager(s).0;
    forall i | 0 <= i < |s1.rawSwarm.supply| && s1.rawSwarm.supply[i].Ready?
      ensures !Mentions(s1.rawSwarm.supply[i].item, p)
    {
      assert s1.rawSwarm.supply[i] == s.rawSwarm.supply[i + 1];
    }
  }

  /**
   * Polling a behaviour that only asks for the peer requests a connect
   * exactly when the peer is not connected; the peer becomes pending only if
   * one of its addresses can be dialled.
   */
  lemma PollBehaviourDials(s: State, rawSwarmNotReady: bool, p: PeerId)
    requires OnlyDials(s.behaviour.script, p)
    ensures var s' := PollBehaviour(s, rawSwarmNotReady).state;
      var dials := s.rawSwarm.Peer(p) == PeerNotConnected && s.behaviour.script != [];
      ConnectCount(s'.rawSwarm.calls, p) == ConnectCount(s.rawSwarm.calls, p) + (if dials then 1 else 0) &&
      s'.rawSwarm.Peer(p) ==
        (if dials && AnyDialable(s.rawSwarm.transport, s.topology.AddressesOfPeer(p)) then PeerPendingConnect
         else s.rawSwarm.Peer(p)) &&
      s'.topology.addresses == s.topology.addresses
  {
    if s.behaviour.script != [] {
      var (b, action) := s.behaviour.Poll(Parameters(s));
      var s2 := s.(behaviour := b);
      assert action == Ready(DialPeer(p));
      assert PollBehaviour(s, rawSwarmNotReady).state == Dial(s2, p);
      if s.rawSwarm.Peer(p) == PeerNotConnected {
        ConnectCountAppend(s2.rawSwarm.calls, ConnectCall(p, s2.topology.AddressesOfPeer(p)), p);
      }
    }
  }

  /**
   * One iteration under a dialling behaviour and a quiet manager requests a
   * connect exactly when the peer is not connected and the behaviour still
   * has an entry; the peer becomes pending only if it can be dialled.
   */
  lemma StepDialsOnce(s: State, p: PeerId)
    requires OnlyDials(s.behaviour.script, p)
    requires QuietAbout(s.rawSwarm.supply, p)
    ensures var s' := Step(s).state;
      var dials := s.rawSwarm.Peer(p) == PeerNotConnected && s.behaviour.script != [];
      ConnectCount(s'.rawSwarm.calls, p) == ConnectCount(s.rawSwarm.calls, p) + (if dials then 1 else 0) &&
      s'.rawSwarm.Peer(p) ==
        (if dials && AnyDialable(s.rawSwarm.transport, s.topology.AddressesOfPeer(p)) then PeerPendingConnect
         else s.rawSwarm.Peer(p)) &&
      OnlyDials(s'.behaviour.script, p) && QuietAbout(s'.rawSwarm.supply, p) &&
      s'.topology.addresses == s.topology.addresses
  {
    PollManagerQuiet(s, p);
    var (s1, rawSwarmNotReady) := PollManager(s);
    PollBehaviourDials(s1, rawSwarmNotReady, p);
    var s' := Step(s).state;
    forall i | 0 <= i < |s'.behaviour.script|
      ensures s'.behaviour.script[i] == Ready(DialPeer(p))
    {
      assert s'.behaviour.script[i] == s.behaviour.script[i + 1];
    }
  }

  /**
   * A behaviour that asks for the same peer at every poll makes the swarm
   * connect it at most once per pull, provided the manager reports nothing
   * about that peer meanwhile and one of its addresses can be dialled: the
   * re-loop within a pull never duplicates the dial.
   */
  lemma {:induction false} RepeatedDialPeerConnectsOnce(s: State, p: PeerId)
    requires OnlyDials(s.behaviour.script, p)
    requires QuietAbout(s.rawSwarm.supply, p)
    requires AnyDialable(s.rawSwarm.transport, s.topology.AddressesOfPeer(p))
    ensures ConnectCount(Pull(s).0.rawSwarm.calls, p) ==
      ConnectCount(s.rawSwarm.calls, p) + (if s.rawSwarm.Peer(p) == PeerNotConnected && s.behaviour.script != [] then 1 else 0)
    decreases |s.behaviour.script|, |s.rawSwarm.supply|
  {
    StepDialsOnce(s, p);
    match Step(s)
    case Return(_, _) =>
    case Continue(s') =>
      assert s'.topology.AddressesOfPeer(p) == s.topology.AddressesOfPeer(p);
      RepeatedDialPeerConnectsOnce(s', p);
  }

  /**
   * The other side of the same rule: a not-connected peer none of whose
   * addresses can be dialled stays not connected, so within one pull every
   * poll that asks for it requests another connect.
   */
  lemma {:induction false} UndialablePeerDialledEveryPoll(s: State, p: PeerId)
    requires OnlyDials(s.behaviour.script, p)
    requires QuietAbout(s.rawSwarm.supply, p)
    requires !AnyDialable(s.rawSwarm.transport, s.topology.AddressesOfPeer(p))
    requires s.rawSwarm.Peer(p) == PeerNotConnected
    ensures ConnectCount(Pull(s).0.rawSwarm.calls, p) == ConnectCount(s.rawSwarm.calls, p) + |s.behaviour.script|
    decreases |s.behaviour.script|, |s.rawSwarm.supply|
  {
    StepDialsOnce(s, p);
    match Step(s)
    case Return(_, _) =>
    case Continue(s') =>
      assert s'.topology.AddressesOfPeer(p) == s.topology.AddressesOfPeer(p);
      UndialablePeerDialledEveryPoll(s', p);
  }
}

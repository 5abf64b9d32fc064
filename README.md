# A model of the libp2p `Swarm` orchestrator

The `Swarm` of `core/src/swarm.rs` owns three things, and this project models the swarm that combines them:
- a connection manager (`RawSwarm`);
- a network behaviour (the pluggable policy);
- a topology (the address book).

The swarm is driven by repeated external pulls. Each pull runs the drive loop:
1. Poll the manager once.
2. Hand the manager's event, if any, to the behaviour, following a fixed table.
3. Poll the behaviour once with fresh poll parameters.
4. Return the event the behaviour generated, suspend when both sides were not ready, or carry out the action the behaviour asked for and go round again.

The collaborators are modelled abstractly:
- **Transport** (`Collaborators.Transport`): three oracles:
  - the address actually bound when listening, if any;
  - whether a dial of an address can begin;
  - NAT translation of a (server, observed) address pair.
- **Topology** (`Collaborators.Topology`): the local peer id, a map from peer to its addresses in topology order, and the set of our external addresses.
- **Connection manager** (`Collaborators.RawSwarm`): a map from peer to state (connected, pending, not connected), the listener list, and two sequences:
  - a finite supply of the poll results it will report;
  - a log of every request the swarm makes of it (listen, dial, connect, send, accept).
- **Behaviour** (`NetworkBehaviour.Behaviour`): a log of every call the swarm makes into it, plus a finite script of the results its polls return.
  - Its n-th handler listens on `protocolsOfHandler(n)`, so later handlers may support other protocols than the first.
  - The poll parameters it receives are recorded in the log.
  - So are handler construction and the three notifications.

The project has six modules:

- `Types` holds the shared values: identifiers, addresses, endpoints, `Async`, `Option` and `Result`.
- `Collaborators` holds the transport, the topology and the connection manager, with the bookkeeping the manager does when it reports an event.
- `NetworkBehaviour` holds:
  - the five actions a behaviour may request;
  - `PollParameters` and its read accessors;
  - the recording, scripted behaviour.
- `SwarmSpec` is the swarm as a state machine over values. It covers construction, `listen_on`, `dial_addr` and `dial`. It also covers both halves of one loop iteration (`PollManager`, `PollBehaviour`), their composition `Step`, and a whole pull `Pull`.
- `SwarmCore` holds the class `Swarm`. It has the source's five fields, and its methods update them in place.
  - Each method is proved to leave the object in the state the matching `SwarmSpec` function computes.
  - `Poll` is a `while` loop over `Step`, with the source's `raw_swarm_not_ready` flag.
  - The getters `GetTransport`, `Listeners`, `LocalPeerId` and `GetTopology` are plain projections of the fields. `SetTopology` stands for writes through `topology_mut`.
- `SwarmProps` holds the properties that relate several operations or several iterations:
  - the dispatch table;
  - the order of notifications across a whole pull;
  - the frozen protocol list across any sequence of listens, dials, topology writes and pulls;
  - the idempotence of dialling a peer.

The drive loop terminates because every iteration that goes round again consumes a script entry or a supply entry. The `decreases` pair is the remaining script length, then the remaining manager supply.

Where the documented intent and the code differ, the model follows the code:
- `dial` builds a fresh handler before it looks at the peer's state. Its doc comment (core/src/swarm.rs:192-193) says it has no effect on a connected peer. In the code, though, dialling a connected or pending peer still makes one `new_handler` call on the behaviour.
- `dial` hands the whole address list to the manager's `connect_iter` in one call.
- The supported-protocol list is computed once, from the handler built at construction, and is never refreshed. The model keeps it frozen, a `const` of the class.
  - The behaviour's later handlers may listen on other protocols. `ProtocolsFrozenForever` proves that every poll is still handed the construction handler's list.
  - `ProtocolsGoStale` shows that the list does go stale once the second handler differs from the first.
  - Whether that staleness is intended is left open, exactly as the code leaves it.

## Model

| member | source | states |
|---|---|---|
| SwarmSpec.New | core/src/swarm.rs:142-158 | the protocol list is the listen protocols of one freshly built handler; the behaviour saw exactly one `new_handler`; the manager is bound to the topology's local id; no address is listened on; the topology is kept |
| SwarmCore.Swarm.constructor | core/src/swarm.rs:142-158 | the object equals `SwarmSpec.New`; the listened list is empty and the protocols are the handler's |
| SwarmSpec.ListenOn | core/src/swarm.rs:173-179 | the result is `Ok` exactly when the transport can listen; `Ok` appends exactly the returned address; `Err` returns the given address and leaves the list unchanged; behaviour and topology untouched |
| SwarmCore.Swarm.ListenOn | core/src/swarm.rs:173-179 | the pushed field update: state and result equal `SwarmSpec.ListenOn` of the old state; append on success only |
| SwarmSpec.DialAddr | core/src/swarm.rs:185-188 | one fresh handler is built; the manager receives exactly one address dial; the result is an error, carrying the address, exactly when the transport cannot dial it |
| SwarmCore.Swarm.DialAddr | core/src/swarm.rs:185-188 | the object follows `SwarmSpec.DialAddr`; one handler built, one dial call logged |
| SwarmSpec.Dial | core/src/swarm.rs:195-201 | a fresh handler is built in every case; a not-connected peer gets `connect_iter` over its topology addresses; a connected or pending peer leaves the manager unchanged |
| SwarmCore.Swarm.Dial | core/src/swarm.rs:195-201 | the object follows `SwarmSpec.Dial`; a connect call is logged only for a not-connected peer |
| SwarmCore.Swarm.SetTopology | core/src/swarm.rs:223-225 | writes through the mutable topology reference replace the topology and nothing else |
| SwarmSpec.Deliver | core/src/swarm.rs:265-289 | the behaviour log grows by exactly the dispatch table's entry for the event; only an incoming connection touches the manager, by accepting it |
| SwarmCore.Swarm.DeliverEvent | core/src/swarm.rs:266-288 | the in-place match over manager events equals `SwarmSpec.Deliver` |
| SwarmProps.DispatchIsOneToOne | core/src/swarm.rs:267-284 | node events, connections, closes and errors each give exactly one notification about their own peer; a replacement gives two; an incoming connection gives exactly one `new_handler`; absorbed events give none |
| SwarmProps.ReplacedIsAtomic | core/src/swarm.rs:277-280 | after a replacement, the next two log entries are the disconnection of the old endpoint directly followed by the connection of the new one |
| SwarmProps.AbsorbedIffInert | core/src/swarm.rs:285-288 | delivering an event leaves the whole swarm state unchanged if and only if it is one of the four absorbed events |
| SwarmSpec.Parameters | core/src/swarm.rs:291-298 | the poll parameters report the frozen protocol list, the current listened addresses and the topology's local id, and translate through the transport's NAT traversal |
| SwarmSpec.PollManager | core/src/swarm.rs:263-289 | the flag is set exactly when the manager is not ready; otherwise the log grows by the event's dispatch entry; one supply entry is consumed |
| SwarmCore.Swarm.PollManager | core/src/swarm.rs:263-289 | the object and flag follow `SwarmSpec.PollManager` |
| SwarmSpec.Perform | core/src/swarm.rs:308-321 | `SendEvent` reaches the manager only for a connected peer and is dropped otherwise; `DialAddress` is `dial_addr` with its error ignored; `DialPeer` is `dial`; `ReportObservedAddr` adds the NAT translations against every listener to the external addresses |
| SwarmSpec.PollBehaviour | core/src/swarm.rs:291-322 | one behaviour poll is recorded with the current parameters; the iteration returns exactly when both sides were not ready or an event was generated, and then with that outcome; a dial adds one `new_handler` |
| SwarmSpec.PollBehaviourActs | core/src/swarm.rs:302-322 | the whole state after a behaviour poll: the polled behaviour alone when it was idle or generated an event; otherwise the loop goes round again on the state with the requested action carried out (`Perform`) |
| SwarmCore.Swarm.PollBehaviour | core/src/swarm.rs:291-322 | the object and the returned outcome follow `SwarmSpec.PollBehaviour` |
| SwarmSpec.Step | core/src/swarm.rs:262-323 | one iteration returns exactly when manager and behaviour were both idle or the behaviour generated an event; a continuing iteration lowers the termination measure; the log is dispatch entry, then the poll, then any dial's handler; listened addresses and the frozen parts never change |
| SwarmSpec.StepActs | core/src/swarm.rs:262-323 | the same for a whole iteration, on the state left by the manager poll: so an iteration's manager calls, peer states and topology are those of the action carried out |
| SwarmCore.Swarm.Step | core/src/swarm.rs:262-323 | the object and the outcome follow `SwarmSpec.Step` |
| SwarmSpec.Pull | core/src/swarm.rs:261-324 | a pull never yields end-of-stream; it leaves the listened addresses and the frozen parts as they were |
| SwarmCore.Swarm.Poll | core/src/swarm.rs:261-324 | the loop ends and equals `SwarmSpec.Pull` of the old state; never `Ready(None)` |
| SwarmProps.PullEndsAtReturn | core/src/swarm.rs:302-307 | a pull ends at the n-th iteration from its start (`Iter(s, n)`), every earlier one going round again, with that iteration's state and outcome: `NotReady` only when manager and behaviour were both not ready in that iteration, an event only when the behaviour generated it |
| SwarmProps.FirstExit | core/src/swarm.rs:262-323 | in a loop whose continuing steps lower a lexicographic measure, some step count reaches the first exit, and a quantity unchanged by continuing steps is the same there |
| SwarmProps.StepNotifies | core/src/swarm.rs:265-300 | one iteration notifies the behaviour of exactly the event it took from the manager |
| SwarmProps.PullNotifiesInOrder | core/src/swarm.rs:261-324 | over a whole pull, the behaviour's notifications are exactly the dispatch entries of the consumed manager events, in order, with nothing added or lost |
| SwarmProps.StepKeepsSnapshots | core/src/swarm.rs:291-299 | an iteration keeps every recorded poll faithful: frozen protocol list and a prefix of the listened addresses |
| SwarmProps.PullKeepsSnapshots | core/src/swarm.rs:261-324 | the same over a whole pull |
| SwarmProps.RunKeepsSnapshots | core/src/swarm.rs:173-324 | the same over any sequence of listens, dials, topology writes and pulls |
| SwarmProps.ProtocolsFrozenForever | core/src/swarm.rs:394-398 | after construction and any sequence of listens, dials, topology writes and pulls, every poll of the behaviour was given the protocol list of the construction handler, whatever later handlers listen on, and a prefix of the final listened addresses |
| SwarmProps.ProtocolsGoStale | core/src/swarm.rs:391-398 | when the behaviour's second handler listens on other protocols than its first, a poll after construction and one dial is still told the first list |
| SwarmProps.RunListenedAddrs | core/src/swarm.rs:173-179 | over any sequence of listens, dials, topology writes and pulls the listened list only grows, by exactly one address per successful listen, and the frozen parts stay as they were |
| SwarmProps.ListenAfterNew | core/src/swarm.rs:142-179 | a new swarm that listens successfully once knows exactly the bound address, both in its own list and in the manager's listeners |
| SwarmProps.DialTwiceConnectsOnce | core/src/swarm.rs:195-201 | dialling a not-connected, dialable peer twice makes one connect request and builds two handlers |
| SwarmProps.StepDialsOnce | core/src/swarm.rs:311-313 | an iteration of a behaviour that asks only for one peer, under a manager quiet about it, requests one connect if the peer is not connected and none otherwise; the peer becomes pending only if one of its addresses can be dialled |
| SwarmProps.RepeatedDialPeerConnectsOnce | core/src/swarm.rs:261-324 | however many times the behaviour asks for the same peer within one pull, the peer is connected at most once, provided one of its addresses can be dialled and the manager reports nothing about it |
| SwarmProps.UndialablePeerDialledEveryPoll | core/src/swarm.rs:195-201 | when none of a not-connected peer's addresses can be dialled, it stays not connected, so every poll of the pull that asks for it requests another connect |
| Collaborators.Topology.AddLocalExternalAddrs | core/src/swarm.rs:319-321 | the external addresses become the old ones plus the given ones; identity and address book unchanged |
| Collaborators.RawSwarm.NatTraversal | core/src/swarm.rs:320 | the candidates are exactly the transport's translations of the observed address against some listener |
| NetworkBehaviour.Behaviour.Poll | core/src/swarm.rs:358-361 | one poll records its parameters and yields the next script entry, or not ready once the script is exhausted |

## Left out

- Transport internals, stream muxing, substream protocol negotiation and the handler's inner workings: foreign collaborators. A handler is reduced to its listen-protocol names.
- `RawSwarm` internals: not part of this model. Its bookkeeping when it reports an event is an assumption (`Collaborators.RawSwarm.Observe`):
  - connected or replaced makes the peer connected;
  - closed or errored removes it;
  - a dial error with no addresses left removes it, otherwise it stays pending;
  - a closed listener is dropped from the listener list;
  - `connect_iter` makes a peer pending when one of its addresses can be dialled;
  - `nat_traversal` asks the transport to translate the observed address against every current listener and keeps each answer (`Collaborators.RawSwarm.NatTraversal`).
- The futures task wake-up mechanism and `io::Error`: a pull is a loop returning `NotReady` or `Ready(Some(event))`. The manager's own readiness is the finite supply.
- `Deref`/`DerefMut` (core/src/swarm.rs:89-109): convenience only.
- The trait-bound boilerplate (core/src/swarm.rs:111-139, 228-256): no behaviour of its own.
- `NetworkBehaviourEventProcess` (core/src/swarm.rs:367-371): no logic.
- `PollParameters::topology`, the mutable topology reference inside a poll: the scripted behaviour does not change the topology during its poll. Only the swarm's own `ReportObservedAddr` handling and `SetTopology` change it.
- `PollParameters::external_addresses` and `local_public_key`: pass-throughs to the topology, not modelled. `LocalPeerId` and `NatTraversal` are kept as plain functions.
- Byte encoding of protocol names: names are opaque byte sequences.
- The peer state "local node" of the manager: a dial of our own id is treated like any other peer.
- The error details of `NodeError` and `DialError`: only the peer, endpoint and remaining-attempt count are kept.
- Handler identity: the model records that a handler was built, not which handler a connection received.
- SwarmCore getters `GetTransport`, `Listeners`, `LocalPeerId` and `GetTopology`: field projections without contracts of their own.
- SwarmSpec.Pull: termination is proved by the pair (remaining behaviour script, remaining manager supply). A behaviour that keeps asking forever, or a manager with an unbounded event supply, is outside the model.

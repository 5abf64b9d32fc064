/** Basic values shared by the swarm and its collaborators. */
module Types {

  datatype Option<T> = None | Some(value: T)

  datatype Result<T, E> = Ok(value: T) | Err(error: E)

  /** Readiness of a non-blocking poll: nothing yet, or a value. */
  datatype Async<T> = NotReady | Ready(item: T)

  /** Stable identifier of a remote participant, kept opaque. */
  datatype PeerId = PeerId(bytes: seq<bv8>)

  /** A network address, kept opaque. */
  datatype Multiaddr = Multiaddr(bytes: seq<bv8>)

  /** A protocol name as reported on the wire, kept opaque. */
  type ProtocolName = seq<bv8>

  /** Which side opened a connection, and through which address. */
  datatype ConnectedPoint =
    | Dialer(address: Multiaddr)
    | Listener(listenAddr: Multiaddr, sendBackAddr: Multiaddr)

  /** Event sent by the behaviour to a peer's protocol handler. */
  datatype InEvent = InEvent(payload: seq<bv8>)

  /** Event produced by a peer's protocol handler for the behaviour. */
  datatype NodeOutEvent = NodeOutEvent(payload: seq<bv8>)

  /** Event the behaviour hands to the embedder through the swarm. */
  datatype OutEvent = OutEvent(payload: seq<bv8>)
}

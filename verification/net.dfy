/**
  The vocabulary shared by routers and the simulator: addresses, ports, the two
  kinds of packet and what a router hands to its links.
 */
module Net {

  /** Router and client addresses. */
  type Addr = string

  /** Local port numbers of a router. */
  type Port = int

  /** The content of a Distance Vector routing packet: `src` can reach `dst` at `cost`. */
  datatype Advert = Advert(src: Addr, dst: Addr, cost: int)

  /**
    A packet travelling between nodes. A traceroute probe carries only its
    envelope; a routing packet carries one advertisement.
   */
  datatype Packet =
    | Traceroute(srcAddr: Addr, dstAddr: Addr)
    | Routing(srcAddr: Addr, dstAddr: Addr, content: Advert)

  /** One call of `Router.send`: the packet goes out on the given local port. */
  datatype Send = Send(port: Port, packet: Packet)
}

/**
  The Distance Vector router: Bellman-Ford relaxation over advertisements received
  from neighbours, split horizon on re-advertisement, and 16 standing for
  "unreachable", in the manner of sections 2.2 and 2.2.1 of RFC 1058.

  Every handler is a pure step from the router's tables to new tables plus the
  sequence of packets handed to `send`, in the order they are sent.
 */
module DistanceVector {
  import opened Wrappers
  import opened Dicts
  import opened Net

  /** The cost that stands for "unreachable". */
  const CostMax := 16

  /**
    A router's state. `nextHop` and `cost` are the forwarding table keyed by
    destination; `portTo` gives the local port of each neighbour ever linked and
    `peerOn` the neighbour at the far end of each port.
   */
  datatype Router = Router(
    addr: Addr,
    nextHop: Dict<Addr, Addr>,
    cost: Dict<Addr, int>,
    portTo: Dict<Addr, Port>,
    peerOn: Dict<Port, Addr>,
    heartbeat: int,
    lastTime: Option<int>)

  /** A handler's effect: the new state and the packets sent, in order. */
  datatype Step = Step(router: Router, sends: seq<Send>)

  /** A route that `UpdateNode` installed: destination and its new cost. */
  datatype Change = Change(dst: Addr, cost: int)

  datatype Update = Update(router: Router, change: Option<Change>)

  /**
    The invariant every handler keeps. The forwarding table has a next hop for
    exactly the destinations it has a cost for, every neighbour has a cost, and
    every port leads to a known neighbour; the lookups the handlers make without
    a membership test rely on it.
   */
  ghost predicate Inv(r: Router) {
    && Valid(r.nextHop) && Valid(r.cost) && Valid(r.portTo) && Valid(r.peerOn)
    && r.cost.vals.Keys == r.nextHop.vals.Keys
    && r.portTo.vals.Keys <= r.cost.vals.Keys
    && (forall p :: p in r.peerOn.vals ==> r.peerOn.vals[p] in r.portTo.vals)
  }

  /** A freshly constructed router: empty tables and no heartbeat sent yet. */
  function Init(addr: Addr, heartbeat: int): (r: Router)
    ensures Inv(r)
    ensures r.addr == addr && r.heartbeat == heartbeat && r.lastTime == None
    ensures r.cost.vals == map[] && r.nextHop.vals == map[]
    ensures r.portTo.vals == map[] && r.peerOn.vals == map[]
  {
    Router(addr, Empty(), Empty(), Empty(), Empty(), heartbeat, None)
  }

  /**
    Relaxation with one advertisement `src` reaches `dst` at `ad.cost`. A new
    destination is adopted through a known `src` without any cap; a known one is
    replaced when the path through `src` is strictly cheaper or `src` is already
    its next hop, the new cost then capped at CostMax.
   */
  function UpdateNode(r: Router, ad: Advert): (u: Update)
    requires Inv(r)
    ensures Inv(u.router)
    ensures u.router == r.(nextHop := u.router.nextHop, cost := u.router.cost)
    // an unknown destination other than the router itself, through a known src
    ensures ad.dst !in r.cost.vals && ad.dst != r.addr && ad.src in r.cost.vals ==>
              var c := r.cost.vals[ad.src] + ad.cost;
              && u.change == Some(Change(ad.dst, c))
              && u.router.cost.vals == r.cost.vals[ad.dst := c]
              && u.router.nextHop.vals == r.nextHop.vals[ad.dst := ad.src]
    // a known destination through a known src
    ensures ad.dst in r.cost.vals && ad.src in r.cost.vals ==>
              var c := r.cost.vals[ad.src] + ad.cost;
              && (u.change.Some? <==>
                    c < r.cost.vals[ad.dst] || (r.nextHop.vals[ad.dst] == ad.src && ad.src != ad.dst))
              && (u.change.Some? ==>
                    && u.change.value.dst == ad.dst
                    && u.change.value.cost <= CostMax
                    && (u.change.value.cost == c || (CostMax < c && u.change.value.cost == CostMax))
                    && u.router.cost.vals == r.cost.vals[ad.dst := u.change.value.cost]
                    && u.router.nextHop.vals == r.nextHop.vals[ad.dst := ad.src])
    ensures ad.src !in r.cost.vals ==> u.change == None
    ensures ad.dst == r.addr && ad.dst !in r.cost.vals ==> u.change == None
    ensures u.change == None ==> u.router == r
    // Python dictionary order: a new destination goes last in both tables
    ensures ad.dst in r.cost.vals ==>
              u.router.cost.keys == r.cost.keys && u.router.nextHop.keys == r.nextHop.keys
    ensures ad.dst !in r.cost.vals && u.change.Some? ==>
              u.router.cost.keys == r.cost.keys + [ad.dst] && u.router.nextHop.keys == r.nextHop.keys + [ad.dst]
  {
    var src, dst := ad.src, ad.dst;
    if dst !in r.cost.vals && dst != r.addr && src in r.cost.vals then
      var c := r.cost.vals[src] + ad.cost;
      Update(Relaxed(r, dst, src, c), Some(Change(dst, c)))
    else if dst in r.cost.vals && src in r.cost.vals
            && (r.cost.vals[dst] > r.cost.vals[src] + ad.cost || (r.nextHop.vals[dst] == src && src != dst)) then
      var c := r.cost.vals[src] + ad.cost;
      var capped := if c > CostMax then CostMax else c;
      Update(Relaxed(r, dst, src, capped), Some(Change(dst, capped)))
    else
      Update(r, None)
  }

  /** The route to `dst` now goes through `src` at cost `c`. */
  function Relaxed(r: Router, dst: Addr, src: Addr, c: int): (r': Router)
    requires Inv(r)
    ensures Inv(r')
    ensures r' == r.(nextHop := r'.nextHop, cost := r'.cost)
    ensures r'.cost.vals == r.cost.vals[dst := c] && r'.nextHop.vals == r.nextHop.vals[dst := src]
    ensures dst in r.cost.vals ==> r'.cost.keys == r.cost.keys && r'.nextHop.keys == r.nextHop.keys
    ensures dst !in r.cost.vals ==> r'.cost.keys == r.cost.keys + [dst] && r'.nextHop.keys == r.nextHop.keys + [dst]
  {
    r.(cost := Put(r.cost, dst, c), nextHop := Put(r.nextHop, dst, src))
  }

  /** The routing update `{addr, dst, c}` addressed to the neighbour on port `p`. */
  function AdvertOn(r: Router, p: Port, dst: Addr, c: int): Send
    requires p in r.peerOn.vals
  {
    Send(p, Routing(r.addr, r.peerOn.vals[p], Advert(r.addr, dst, c)))
  }

  /**
    Split horizon over the given ports: the new route to `dst` goes out on every
    port except those whose neighbour is the route's next hop.
   */
  function Readvertise(r: Router, ports: seq<Port>, dst: Addr, c: int): (out: seq<Send>)
    requires dst in r.nextHop.vals
    requires forall p :: p in ports ==> p in r.peerOn.vals
    requires forall i, j :: 0 <= i < j < |ports| ==> ports[i] != ports[j]
    ensures forall s :: s in out ==>
              && s.port in ports
              && s == AdvertOn(r, s.port, dst, c)
              && r.peerOn.vals[s.port] != r.nextHop.vals[dst]
    ensures forall p :: p in ports && r.peerOn.vals[p] != r.nextHop.vals[dst] ==>
              AdvertOn(r, p, dst, c) in out
    ensures forall i, j :: 0 <= i < j < |out| ==> out[i].port != out[j].port
    ensures |out| <= |ports|
    ensures (forall p :: p in ports ==> r.peerOn.vals[p] == r.nextHop.vals[dst]) ==> out == []
  {
    if ports == [] then []
    else
      var p := ports[0];
      assert p in ports;
      assert forall q :: q in ports[1..] ==> q != p;
      var rest := Readvertise(r, ports[1..], dst, c);
      if r.peerOn.vals[p] != r.nextHop.vals[dst] then [AdvertOn(r, p, dst, c)] + rest
      else rest
  }

  /**
    An incoming packet. A traceroute probe is passed on unchanged on the port of
    its destination's next hop, or dropped when the destination is unknown; a
    routing packet is relaxed and, when it changed a route, re-advertised under
    split horizon to the neighbours of every port.
   */
  function HandlePacket(r: Router, inPort: Port, p: Packet): (res: Result<Step, Fault>)
    requires Inv(r)
    ensures res.Success? ==> Inv(res.value.router)
    ensures p.Traceroute? && p.dstAddr !in r.nextHop.vals ==> res == Success(Step(r, []))
    ensures p.Traceroute? && p.dstAddr in r.nextHop.vals ==>
              var hop := r.nextHop.vals[p.dstAddr];
              && (hop in r.portTo.vals ==> res == Success(Step(r, [Send(r.portTo.vals[hop], p)])))
              && (hop !in r.portTo.vals ==> res == Failure(MissingKey))
    ensures p.Routing? ==>
              var u := UpdateNode(r, p.content);
              && res.Success?
              && res.value.router == u.router
              && (u.change.None? ==> res.value.sends == [])
              && (u.change.Some? ==>
                    var d := u.change.value.dst;
                    var c := u.change.value.cost;
                    && d in u.router.nextHop.vals
                    && (forall s :: s in res.value.sends ==>
                          && s.port in u.router.peerOn.vals
                          && s == AdvertOn(u.router, s.port, d, c)
                          && u.router.peerOn.vals[s.port] != u.router.nextHop.vals[d])
                    && (forall q :: q in u.router.peerOn.vals && u.router.peerOn.vals[q] != u.router.nextHop.vals[d] ==>
                          AdvertOn(u.router, q, d, c) in res.value.sends)
                    && (forall i, j :: 0 <= i < j < |res.value.sends| ==>
                          res.value.sends[i].port != res.value.sends[j].port))
  {
    match p
    case Traceroute(_, dst) =>
      if dst in r.nextHop.vals then
        var hop := r.nextHop.vals[dst];
        if hop in r.portTo.vals then Success(Step(r, [Send(r.portTo.vals[hop], p)]))
        else Failure(MissingKey)
      else Success(Step(r, []))
    case Routing(_, _, ad) =>
      var u := UpdateNode(r, ad);
      match u.change
      case None => Success(Step(u.router, []))
      case Some(ch) =>
        var r' := u.router;
        assert forall q :: q in r'.peerOn.keys ==> q in r'.peerOn.vals;
        Success(Step(r', Readvertise(r', r'.peerOn.keys, ch.dst, ch.cost)))
  }

  /** A new link is worth announcing when it is the first or a strictly cheaper route to its endpoint. */
  predicate Shortcut(r: Router, endpoint: Addr, c: int) {
    endpoint !in r.cost.vals || r.cost.vals[endpoint] > c
  }

  /**
    The exchange on a new link, one pair of packets per listed neighbour: the
    endpoint's cost to that neighbour, then that neighbour's cost to the endpoint.
   */
  function NewLinkSends(r: Router, port: Port, endpoint: Addr, c: int, nbrs: seq<Addr>): (out: seq<Send>)
    requires forall a :: a in nbrs ==> a in r.portTo.vals && a in r.cost.vals
    ensures |out| == 2 * |nbrs|
    ensures forall i :: 0 <= i < |nbrs| ==>
              && out[2 * i] == Send(r.portTo.vals[nbrs[i]], Routing(r.addr, nbrs[i], Advert(r.addr, endpoint, c)))
              && out[2 * i + 1] == Send(port, Routing(r.addr, endpoint, Advert(r.addr, nbrs[i], r.cost.vals[nbrs[i]])))
  {
    if nbrs == [] then []
    else
      var a := nbrs[0];
      [ Send(r.portTo.vals[a], Routing(r.addr, a, Advert(r.addr, endpoint, c))),
        Send(port, Routing(r.addr, endpoint, Advert(r.addr, a, r.cost.vals[a]))) ]
      + NewLinkSends(r, port, endpoint, c, nbrs[1..])
  }

  /**
    A link to `endpoint` comes up on `port` at cost `c`. The port tables always
    record it; a direct route is installed only if it is a shortcut, and only
    then are packets exchanged, with every neighbour ever recorded.
   */
  function HandleNewLink(r: Router, port: Port, endpoint: Addr, c: int): (st: Step)
    requires Inv(r)
    ensures Inv(st.router)
    ensures st.router.addr == r.addr && st.router.heartbeat == r.heartbeat && st.router.lastTime == r.lastTime
    ensures st.router.portTo.vals == r.portTo.vals[endpoint := port]
    ensures st.router.peerOn.vals == r.peerOn.vals[port := endpoint]
    ensures Shortcut(r, endpoint, c) ==>
              && st.router.cost.vals == r.cost.vals[endpoint := c]
              && st.router.nextHop.vals == r.nextHop.vals[endpoint := endpoint]
    ensures !Shortcut(r, endpoint, c) ==>
              st.router.cost == r.cost && st.router.nextHop == r.nextHop
    ensures Shortcut(r, endpoint, c) ==>
              var nbrs := r.portTo.keys;
              && |st.sends| == 2 * |nbrs|
              && forall i :: 0 <= i < |nbrs| ==>
                   && st.sends[2 * i] == Send(r.portTo.vals[nbrs[i]], Routing(r.addr, nbrs[i], Advert(r.addr, endpoint, c)))
                   && st.sends[2 * i + 1] == Send(port, Routing(r.addr, endpoint, Advert(r.addr, nbrs[i], r.cost.vals[nbrs[i]])))
    ensures !Shortcut(r, endpoint, c) ==> st.sends == []
  {
    var shortcut := Shortcut(r, endpoint, c);
    assert forall a :: a in r.portTo.keys ==> a in r.portTo.vals && a in r.cost.vals;
    var sends := if shortcut then NewLinkSends(r, port, endpoint, c, r.portTo.keys) else [];
    var routed := if shortcut then Relaxed(r, endpoint, endpoint, c) else r;
    Step(Linked(routed, port, endpoint), sends)
  }

  /** The port tables record a link to `endpoint` on `port`, with the direct route in place. */
  function Linked(r: Router, port: Port, endpoint: Addr): (r': Router)
    requires Inv(r)
    ensures endpoint in r.cost.vals ==> Inv(r')
    ensures r' == r.(portTo := r'.portTo, peerOn := r'.peerOn)
    ensures r'.portTo.vals == r.portTo.vals[endpoint := port]
    ensures r'.peerOn.vals == r.peerOn.vals[port := endpoint]
  {
    r.(portTo := Put(r.portTo, endpoint, port), peerOn := Put(r.peerOn, port, endpoint))
  }

  /**
    Poisons, in `cost`, every destination listed in `ks` whose next hop is `a`.
   */
  function PoisonVia(cost: Dict<Addr, int>, nextHop: Dict<Addr, Addr>, ks: seq<Addr>, a: Addr): (out: Dict<Addr, int>)
    requires forall k :: k in ks ==> k in nextHop.vals && k in cost.vals
    ensures out.keys == cost.keys && out.vals.Keys == cost.vals.Keys
    ensures forall k :: k in out.vals ==>
              out.vals[k] == if k in ks && nextHop.vals[k] == a then CostMax else cost.vals[k]
    decreases |ks|
  {
    if ks == [] then cost
    else
      var k := ks[0];
      PoisonVia(if nextHop.vals[k] == a then Put(cost, k, CostMax) else cost, nextHop, ks[1..], a)
  }

  /**
    The neighbour `a` is gone: it, and every destination reached through it,
    get cost CostMax, and if `a` is the router itself its own route is reset to
    cost 0 through itself. Nothing else changes.
   */
  function ResetVia(r: Router, a: Addr): (r': Router)
    requires Inv(r) && a in r.cost.vals
    ensures Inv(r')
    ensures r' == r.(cost := r'.cost, nextHop := r'.nextHop)
    ensures r'.cost.keys == r.cost.keys && r'.nextHop.keys == r.nextHop.keys
    ensures r'.cost.vals.Keys == r.cost.vals.Keys
    ensures forall k :: k in r.cost.vals ==>
              r'.cost.vals[k] == if a == r.addr && k == a then 0
                                 else if k == a || r.nextHop.vals[k] == a then CostMax
                                 else r.cost.vals[k]
    ensures r'.nextHop.vals == if a == r.addr then r.nextHop.vals[a := a] else r.nextHop.vals
  {
    var poisoned := r.(cost := PoisonedCost(r, a));
    RetabledInv(r, poisoned);
    if a == r.addr then Relaxed(poisoned, a, a, 0) else poisoned
  }

  /** Rewriting costs and next hops without adding or removing a destination keeps `Inv`. */
  lemma RetabledInv(r: Router, r': Router)
    requires Inv(r)
    requires r' == r.(cost := r'.cost, nextHop := r'.nextHop)
    requires r'.cost.keys == r.cost.keys && r'.cost.vals.Keys == r.cost.vals.Keys
    requires r'.nextHop.keys == r.nextHop.keys && r'.nextHop.vals.Keys == r.nextHop.vals.Keys
    ensures Inv(r')
  {
    SameKeysValid(r.cost, r'.cost);
    SameKeysValid(r.nextHop, r'.nextHop);
  }

  /** The cost table once `a` and every destination reached through `a` cost CostMax. */
  function PoisonedCost(r: Router, a: Addr): (c: Dict<Addr, int>)
    requires Inv(r) && a in r.cost.vals
    ensures c.keys == r.cost.keys && c.vals.Keys == r.cost.vals.Keys
    ensures forall k :: k in c.vals ==>
              c.vals[k] == if k == a || r.nextHop.vals[k] == a then CostMax else r.cost.vals[k]
  {
    var poisoned := Put(r.cost, a, CostMax);
    assert forall k :: k in r.nextHop.keys <==> k in r.nextHop.vals;
    PoisonVia(poisoned, r.nextHop, r.nextHop.keys, a)
  }

  /**
    The link on `port` goes down; an unknown port raises `KeyError`. Next hops
    and the port tables are kept: repair is left to later advertisements.
   */
  function HandleRemoveLink(r: Router, port: Port): (res: Result<Router, Fault>)
    requires Inv(r)
    ensures res.Failure? <==> port !in r.peerOn.vals
    ensures res.Failure? ==> res.error == MissingKey
    ensures res.Success? ==> res.value == ResetVia(r, r.peerOn.vals[port])
  {
    if port !in r.peerOn.vals then Failure(MissingKey)
    else Success(ResetVia(r, r.peerOn.vals[port]))
  }

  /** The periodic broadcast is due when none was made yet or more than a heartbeat has passed. */
  predicate HeartbeatDue(r: Router, now: int) {
    r.lastTime.None? || now - r.lastTime.value > r.heartbeat
  }

  /** The routing update about `d` addressed to neighbour `a`. */
  function Announce(r: Router, a: Addr, d: Addr): Send
    requires a in r.portTo.vals && d in r.cost.vals
  {
    Send(r.portTo.vals[a], Routing(r.addr, a, Advert(r.addr, d, r.cost.vals[d])))
  }

  /** Every destination listed in the cost table has a cost (part of `Inv`). */
  ghost predicate CostsListed(r: Router) {
    forall d :: d in r.cost.keys ==> d in r.cost.vals
  }

  /** The whole table announced to neighbour `a`, in table order. */
  function TableFor(r: Router, a: Addr): seq<Send>
    requires CostsListed(r) && a in r.portTo.vals
  {
    assert forall j :: 0 <= j < |r.cost.keys| ==> r.cost.keys[j] in r.cost.vals;
    seq(|r.cost.keys|, j requires 0 <= j < |r.cost.keys| => Announce(r, a, r.cost.keys[j]))
  }

  /** The whole table announced to each listed neighbour in turn. */
  function Broadcast(r: Router, nbrs: seq<Addr>): (out: seq<Send>)
    requires CostsListed(r)
    requires forall a :: a in nbrs ==> a in r.portTo.vals
    ensures |out| == RowStart(|nbrs|, |r.cost.keys|)
  {
    if nbrs == [] then []
    else
      assert nbrs[0] in nbrs;
      TableFor(r, nbrs[0]) + Broadcast(r, nbrs[1..])
  }

  /** Position `RowStart(i, width) + j` of a broadcast is neighbour `i`'s update about destination `j`. */
  lemma {:induction false} BroadcastAt(r: Router, nbrs: seq<Addr>, i: nat, j: nat)
    requires CostsListed(r)
    requires forall a :: a in nbrs ==> a in r.portTo.vals
    requires i < |nbrs| && j < |r.cost.keys|
    ensures nbrs[i] in r.portTo.vals && r.cost.keys[j] in r.cost.vals
    ensures RowStart(i, |r.cost.keys|) + j < |Broadcast(r, nbrs)|
    ensures Broadcast(r, nbrs)[RowStart(i, |r.cost.keys|) + j] == Announce(r, nbrs[i], r.cost.keys[j])
  {
    var w := |r.cost.keys|;
    assert nbrs[0] in nbrs;
    var row, rest := TableFor(r, nbrs[0]), Broadcast(r, nbrs[1..]);
    assert Broadcast(r, nbrs) == row + rest;
    if i > 0 {
      BroadcastAt(r, nbrs[1..], i - 1, j);
      var k := RowStart(i - 1, w) + j;
      assert k < |rest| && rest[k] == Announce(r, nbrs[1..][i - 1], r.cost.keys[j]);
      assert nbrs[1..][i - 1] == nbrs[i];
    }
  }

  /**
    Where row `i` of a table of rows `w` wide begins: `i * w`, counted out row
    by row so that reasoning about positions stays linear.
   */
  function RowStart(i: nat, w: nat): nat {
    if i == 0 then 0 else RowStart(i - 1, w) + w
  }

  /** The row-by-row count is the product. */
  lemma {:induction false} RowStartIsProduct(i: nat, w: nat)
    ensures RowStart(i, w) == i * w
  {
    if i > 0 {
      RowStartIsProduct(i - 1, w);
    }
  }

  /**
    `out` sends every neighbour one update per destination, neighbours
    outermost and both in table order.
   */
  ghost predicate Announces(r: Router, out: seq<Send>) {
    forall i, j :: 0 <= i < |r.portTo.keys| && 0 <= j < |r.cost.keys| ==> AnnouncedAt(r, out, i, j)
  }

  /** Position `i * width + j` of `out` is neighbour `i`'s update about destination `j`. */
  ghost predicate AnnouncedAt(r: Router, out: seq<Send>, i: int, j: int)
    requires 0 <= i < |r.portTo.keys| && 0 <= j < |r.cost.keys|
  {
    var nbrs, dsts := r.portTo.keys, r.cost.keys;
    && nbrs[i] in r.portTo.vals && dsts[j] in r.cost.vals
    && i * |dsts| + j < |out|
    && out[i * |dsts| + j] == Announce(r, nbrs[i], dsts[j])
  }

  lemma BroadcastAnnounces(r: Router)
    requires CostsListed(r)
    requires forall a :: a in r.portTo.keys ==> a in r.portTo.vals
    ensures Announces(r, Broadcast(r, r.portTo.keys))
  {
    forall i, j | 0 <= i < |r.portTo.keys| && 0 <= j < |r.cost.keys|
      ensures AnnouncedAt(r, Broadcast(r, r.portTo.keys), i, j)
    {
      BroadcastPoint(r, i, j);
    }
  }

  /** One point of `BroadcastAnnounces`, with the row start written as a product. */
  lemma BroadcastPoint(r: Router, i: int, j: int)
    requires CostsListed(r)
    requires forall a :: a in r.portTo.keys ==> a in r.portTo.vals
    requires 0 <= i < |r.portTo.keys| && 0 <= j < |r.cost.keys|
    ensures AnnouncedAt(r, Broadcast(r, r.portTo.keys), i, j)
  {
    BroadcastAt(r, r.portTo.keys, i, j);
    RowStartIsProduct(i, |r.cost.keys|);
  }

  /**
    The timer. When the heartbeat is due the time is recorded and every
    neighbour ever recorded is sent the whole table, one update per
    (neighbour, destination) pair, neighbours outermost; otherwise nothing happens.
   */
  function HandleTime(r: Router, now: int): (st: Step)
    requires Inv(r)
    ensures Inv(st.router)
    ensures !HeartbeatDue(r, now) ==> st == Step(r, [])
    ensures HeartbeatDue(r, now) ==>
              var nbrs, dsts := r.portTo.keys, r.cost.keys;
              && st.router == r.(lastTime := Some(now))
              && |st.sends| == |nbrs| * |dsts|
              && Announces(r, st.sends)
  {
    if HeartbeatDue(r, now) then
      assert forall a :: a in r.portTo.keys ==> a in r.portTo.vals;
      var out := Broadcast(r, r.portTo.keys);
      BroadcastAnnounces(r);
      RowStartIsProduct(|r.portTo.keys|, |r.cost.keys|);
      Step(r.(lastTime := Some(now)), out)
    else
      Step(r, [])
  }
}

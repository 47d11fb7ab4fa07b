/**
  Properties of the Distance Vector router that relate several handler calls:
  the invariant over whole runs, idempotence, and concrete scenarios that show
  where the protocol as implemented departs from an idealised one.
 */
module DistanceVectorFacts {
  import opened Wrappers
  import opened Dicts
  import opened Net
  import opened DistanceVector

  /** The inputs a router reacts to. */
  datatype Event =
    | PacketIn(port: Port, packet: Packet)
    | LinkUp(port: Port, endpoint: Addr, cost: int)
    | LinkDown(port: Port)
    | Tick(now: int)

  /** One event handled by the matching handler. */
  function Dispatch(r: Router, e: Event): (res: Result<Step, Fault>)
    requires Inv(r)
    ensures res.Success? ==> Inv(res.value.router)
    ensures res.Failure? ==> res.error == MissingKey && (e.LinkDown? || (e.PacketIn? && e.packet.Traceroute?))
    ensures res.Success? && e.LinkDown? ==> res.value.sends == []
  {
    match e
    case PacketIn(p, pk) => HandlePacket(r, p, pk)
    case LinkUp(p, a, c) => Success(HandleNewLink(r, p, a, c))
    case LinkDown(p) =>
      (match HandleRemoveLink(r, p)
       case Success(r') => Success(Step(r', []))
       case Failure(f) => Failure(f))
    case Tick(t) => Success(HandleTime(r, t))
  }

  /**
    A sequence of events handled in order, the sends concatenated; the first
    exception ends the run.
   */
  function Run(r: Router, es: seq<Event>): (res: Result<Step, Fault>)
    requires Inv(r)
    ensures res.Success? ==> Inv(res.value.router)
    ensures res.Success? ==> res.value.router.addr == r.addr && res.value.router.heartbeat == r.heartbeat
    ensures res.Failure? ==> res.error == MissingKey
    decreases |es|
  {
    if es == [] then Success(Step(r, []))
    else
      match Dispatch(r, es[0])
      case Failure(f) => Failure(f)
      case Success(first) =>
        match Run(first.router, es[1..])
        case Failure(f) => Failure(f)
        case Success(rest) => Success(Step(rest.router, first.sends + rest.sends))
  }

  /**
    Every state a router reaches from construction satisfies the invariant,
    whatever events it is given.
   */
  lemma {:induction false} ReachableStatesKeepInv(addr: Addr, heartbeat: int, es: seq<Event>)
    ensures Run(Init(addr, heartbeat), es).Success? ==> Inv(Run(Init(addr, heartbeat), es).value.router)
  {
  }

  /**
    Losing the same link twice is the same as losing it once.
   */
  lemma RemoveLinkIdempotent(r: Router, port: Port)
    requires Inv(r) && port in r.peerOn.vals
    ensures HandleRemoveLink(r, port).Success?
    ensures var r1 := HandleRemoveLink(r, port).value;
            HandleRemoveLink(r1, port) == Success(r1)
  {
    var a := r.peerOn.vals[port];
    var r1 := ResetVia(r, a);
    assert r1.peerOn == r.peerOn;
    ResetViaStable(r, a);
  }

  lemma ResetViaStable(r: Router, a: Addr)
    requires Inv(r) && a in r.cost.vals
    ensures ResetVia(ResetVia(r, a), a) == ResetVia(r, a)
  {
    var r1 := ResetVia(r, a);
    var r2 := ResetVia(r1, a);
    ResetViaCostStable(r, a);
    assert r2.cost == r1.cost;
    ResetViaHopStable(r, a);
    assert r2.nextHop == r1.nextHop;
  }

  lemma ResetViaHopStable(r: Router, a: Addr)
    requires Inv(r) && a in r.cost.vals
    ensures ResetVia(ResetVia(r, a), a).nextHop.vals == ResetVia(r, a).nextHop.vals
  {
    var r1 := ResetVia(r, a);
    var m1, m2 := r1.nextHop.vals, ResetVia(r1, a).nextHop.vals;
    if a == r.addr {
      assert m1[a] == a;
      assert m2 == m1[a := a];
      MapsAgree(m2, m1);
    }
  }

  lemma ResetViaCostStable(r: Router, a: Addr)
    requires Inv(r) && a in r.cost.vals
    ensures ResetVia(ResetVia(r, a), a).cost.vals == ResetVia(r, a).cost.vals
  {
    var r1 := ResetVia(r, a);
    var c1, c2 := r1.cost.vals, ResetVia(r1, a).cost.vals;
    forall k | k in c1
      ensures c2[k] == c1[k]
    {
      ResetViaCostStableAt(r, a, k);
    }
    MapsAgree(c2, c1);
  }

  lemma ResetViaCostStableAt(r: Router, a: Addr, k: Addr)
    requires Inv(r) && a in r.cost.vals && k in r.cost.vals
    ensures k in ResetVia(r, a).cost.vals
    ensures ResetVia(ResetVia(r, a), a).cost.vals[k] == ResetVia(r, a).cost.vals[k]
  {
    var r1 := ResetVia(r, a);
    if k != a {
      assert r1.nextHop.vals[k] == r.nextHop.vals[k];
    }
  }

  /**
    An advertisement delivered twice changes the tables at most once more: the
    second delivery only caps a first-time route that exceeded CostMax. Yet an
    advertisement accepted once is accepted, and so re-advertised, again, since
    a refresh from the current next hop is always taken.
   */
  lemma ReplayedAdvertIsStable(r: Router, ad: Advert)
    requires Inv(r)
    requires ad.src != ad.dst
    ensures var u1 := UpdateNode(r, ad);
            var u2 := UpdateNode(u1.router, ad);
            && (u1.change.None? ==> u2 == u1)
            && (u1.change.Some? ==> u2.change.Some? && u2.change.value.dst == ad.dst)
            && (u1.change.Some? && u1.change.value.cost <= CostMax ==> u2 == u1)
            && (u1.change.Some? && u1.change.value.cost > CostMax ==> u2.change.value.cost == CostMax)
  {
    var u1 := UpdateNode(r, ad);
    if u1.change.Some? {
      ReplayAfterChange(r, ad);
    }
  }

  lemma ReplayAfterChange(r: Router, ad: Advert)
    requires Inv(r)
    requires ad.src != ad.dst
    requires UpdateNode(r, ad).change.Some?
    ensures var u1 := UpdateNode(r, ad);
            var u2 := UpdateNode(u1.router, ad);
            var c := u1.change.value.cost;
            && u2.change.Some? && u2.change.value.dst == ad.dst
            && (c <= CostMax ==> u2 == u1)
            && (c > CostMax ==> u2.change.value.cost == CostMax)
  {
    var u1 := UpdateNode(r, ad);
    var r1 := u1.router;
    var c := u1.change.value.cost;
    assert r1.cost.vals[ad.src] == r.cost.vals[ad.src];
    assert r1.nextHop.vals[ad.dst] == ad.src;
    assert r1.cost.vals[ad.dst] == c;
    assert c == r.cost.vals[ad.src] + ad.cost || (CostMax < r.cost.vals[ad.src] + ad.cost && c == CostMax);
    if c <= CostMax {
      RefreshIsStable(r1, ad);
    }
  }

  /**
    A refresh from the current next hop that repeats the stored (capped) cost
    leaves the tables as they are but is still reported as a change.
   */
  lemma RefreshIsStable(r: Router, ad: Advert)
    requires Inv(r)
    requires ad.src != ad.dst && ad.src in r.cost.vals && ad.dst in r.cost.vals
    requires r.nextHop.vals[ad.dst] == ad.src
    requires r.cost.vals[ad.dst] <= CostMax
    requires var c := r.cost.vals[ad.src] + ad.cost;
             r.cost.vals[ad.dst] == c || (CostMax < c && r.cost.vals[ad.dst] == CostMax)
    ensures UpdateNode(r, ad) == Update(r, Some(Change(ad.dst, r.cost.vals[ad.dst])))
  {
    var u := UpdateNode(r, ad);
    RewriteSame(r.cost.vals, ad.dst, r.cost.vals[ad.dst]);
    RewriteSame(r.nextHop.vals, ad.dst, ad.src);
    assert u.router.cost == r.cost;
    assert u.router.nextHop == r.nextHop;
  }

  /**
    The line topology A - B - C with unit costs, seen from A: A learns C at
    cost 2 through B without re-advertising it (B is the only neighbour and
    the next hop); losing the link to B makes both unreachable; a direct link
    to C at cost 5 then becomes A's route to C.
   */
  lemma LineTopologyScenario()
    ensures
      var a1 := HandleNewLink(Init("A", 1000), 1, "B", 1).router;
      var res := HandlePacket(a1, 1, Routing("B", "A", Advert("B", "C", 1)));
      && res.Success?
      && var a2 := res.value.router;
      && a2.cost.vals == map["B" := 1, "C" := 2]
      && a2.nextHop.vals == map["B" := "B", "C" := "B"]
      && res.value.sends == []
      && var a3 := HandleRemoveLink(a2, 1);
      && a3.Success?
      && a3.value.cost.vals == map["B" := CostMax, "C" := CostMax]
      && var a4 := HandleNewLink(a3.value, 2, "C", 5).router;
      && a4.cost.vals == map["B" := CostMax, "C" := 5]
      && a4.nextHop.vals == map["B" := "B", "C" := "C"]
  {
    var a1 := HandleNewLink(Init("A", 1000), 1, "B", 1).router;
    LinkToB(a1, 1);
    var res := HandlePacket(a1, 1, Routing("B", "A", Advert("B", "C", 1)));
    LearnC(a1, res);
    var a2 := res.value.router;
    var a3 := HandleRemoveLink(a2, 1);
    LoseB(a2, a3);
    var a4 := HandleNewLink(a3.value, 2, "C", 5).router;
    LinkToC(a3.value, a4);
  }

  lemma LinkToB(a1: Router, c: int)
    requires a1 == HandleNewLink(Init("A", 1000), 1, "B", c).router
    ensures Inv(a1) && a1.addr == "A"
    ensures a1.cost.vals == map["B" := c] && a1.nextHop.vals == map["B" := "B"]
    ensures a1.peerOn.vals == map[1 := "B"] && a1.portTo.vals == map["B" := 1]
    ensures a1.peerOn.keys == [1]
  {
  }

  lemma LearnC(a1: Router, res: Result<Step, Fault>)
    requires Inv(a1) && a1.addr == "A"
    requires a1.cost.vals == map["B" := 1] && a1.nextHop.vals == map["B" := "B"]
    requires a1.peerOn.vals == map[1 := "B"] && a1.portTo.vals == map["B" := 1]
    requires a1.peerOn.keys == [1]
    requires res == HandlePacket(a1, 1, Routing("B", "A", Advert("B", "C", 1)))
    ensures res.Success? && Inv(res.value.router) && res.value.router.addr == "A"
    ensures res.value.router.cost.vals == map["B" := 1, "C" := 2]
    ensures res.value.router.nextHop.vals == map["B" := "B", "C" := "B"]
    ensures res.value.router.peerOn.vals == map[1 := "B"]
    ensures res.value.sends == []
  {
    var u := UpdateNode(a1, Advert("B", "C", 1));
    RelaxToC(a1, u, 1, 1);
    assert res.value.sends == Readvertise(u.router, [1], "C", 2);
  }

  lemma RelaxToC(a1: Router, u: Update, toB: int, fromB: int)
    requires Inv(a1) && a1.addr == "A"
    requires a1.cost.vals == map["B" := toB] && a1.nextHop.vals == map["B" := "B"]
    requires u == UpdateNode(a1, Advert("B", "C", fromB))
    ensures u.change == Some(Change("C", toB + fromB))
    ensures u.router == a1.(cost := u.router.cost, nextHop := u.router.nextHop)
    ensures u.router.cost.vals == map["B" := toB, "C" := toB + fromB]
    ensures u.router.nextHop.vals == map["B" := "B", "C" := "B"]
  {
    assert "C" != "A" && "C" != "B";
  }

  lemma LoseB(a2: Router, a3: Result<Router, Fault>)
    requires Inv(a2) && a2.addr == "A"
    requires a2.cost.vals == map["B" := 1, "C" := 2]
    requires a2.nextHop.vals == map["B" := "B", "C" := "B"]
    requires a2.peerOn.vals == map[1 := "B"]
    requires a3 == HandleRemoveLink(a2, 1)
    ensures a3.Success? && Inv(a3.value)
    ensures a3.value.cost.vals == map["B" := CostMax, "C" := CostMax]
    ensures a3.value.nextHop.vals == map["B" := "B", "C" := "B"]
  {
    assert "B" != "A";
    var r' := ResetVia(a2, "B");
    assert a3 == Success(r');
    assert r'.cost.vals["B"] == CostMax by {
      assert "B" in a2.cost.vals;
    }
    assert r'.cost.vals["C"] == CostMax by {
      assert "C" in a2.cost.vals && a2.nextHop.vals["C"] == "B";
    }
    BothLost(a2.cost.vals, r'.cost.vals);
  }

  lemma BothLost(before: map<Addr, int>, after: map<Addr, int>)
    requires before == map["B" := 1, "C" := 2] && after.Keys == before.Keys
    requires after["B"] == CostMax && after["C"] == CostMax
    ensures after == map["B" := CostMax, "C" := CostMax]
  {
    MapOfTwo(after, "B", CostMax, "C", CostMax);
  }

  lemma MapOfTwo<K, V>(m: map<K, V>, k1: K, v1: V, k2: K, v2: V)
    requires m.Keys == {k1, k2} && k1 != k2
    requires m[k1] == v1 && m[k2] == v2
    ensures m == map[k1 := v1, k2 := v2]
  {
  }

  lemma LinkToC(a3: Router, a4: Router)
    requires Inv(a3)
    requires a3.cost.vals == map["B" := CostMax, "C" := CostMax]
    requires a3.nextHop.vals == map["B" := "B", "C" := "B"]
    requires a4 == HandleNewLink(a3, 2, "C", 5).router
    ensures a4.cost.vals == map["B" := CostMax, "C" := 5]
    ensures a4.nextHop.vals == map["B" := "B", "C" := "C"]
  {
    assert Shortcut(a3, "C", 5);
    var c, h := a3.cost.vals["C" := 5], a3.nextHop.vals["C" := "C"];
    assert a4.cost.vals == c && a4.nextHop.vals == h;
    OverwriteSecond("B", CostMax, "C", CostMax, 5);
    OverwriteSecond("B", "B", "C", "B", "C");
  }

  lemma OverwriteSecond<K, V>(k1: K, v1: V, k2: K, v2: V, v: V)
    requires k1 != k2
    ensures map[k1 := v1, k2 := v2][k2 := v] == map[k1 := v1, k2 := v]
  {
  }

  /**
    A due heartbeat sends every recorded neighbour the update about every
    destination, whichever neighbour that destination's route goes through.
   */
  lemma HeartbeatReachesEveryNeighbour(r: Router, now: int, a: Addr, d: Addr)
    requires Inv(r) && HeartbeatDue(r, now)
    requires a in r.portTo.vals && d in r.cost.vals
    ensures Announce(r, a, d) in HandleTime(r, now).sends
  {
    assert a in r.portTo.keys && d in r.cost.keys;
    assert forall b :: b in r.portTo.keys ==> b in r.portTo.vals;
    BroadcastReaches(r, a, d);
  }

  /** The broadcast to the listed neighbours holds the update to `a` about `d`. */
  lemma BroadcastReaches(r: Router, a: Addr, d: Addr)
    requires CostsListed(r)
    requires forall b :: b in r.portTo.keys ==> b in r.portTo.vals
    requires a in r.portTo.keys && d in r.cost.keys
    ensures a in r.portTo.vals && d in r.cost.vals
    ensures Announce(r, a, d) in Broadcast(r, r.portTo.keys)
  {
    var i :| 0 <= i < |r.portTo.keys| && r.portTo.keys[i] == a;
    var j :| 0 <= j < |r.cost.keys| && r.cost.keys[j] == d;
    BroadcastAt(r, r.portTo.keys, i, j);
  }

  /**
    The periodic broadcast does not apply split horizon: a router announces its
    route to B to B itself, although B is that route's next hop.
   */
  lemma HeartbeatIgnoresSplitHorizon()
    ensures
      var r := HandleNewLink(Init("A", 1000), 1, "B", 1).router;
      && r.peerOn.vals[1] == "B" && r.nextHop.vals["B"] == "B"
      && Send(1, Routing("A", "B", Advert("A", "B", 1))) in HandleTime(r, 0).sends
  {
    var r := HandleNewLink(Init("A", 1000), 1, "B", 1).router;
    LinkToB(r, 1);
    HeartbeatReachesEveryNeighbour(r, 0, "B", "B");
  }

  /**
    A destination learned for the first time is not capped: a route through a
    neighbour at cost CostMax yields a cost above CostMax.
   */
  lemma FirstRouteIsNotCapped()
    ensures
      var r := HandleNewLink(Init("A", 1000), 1, "B", CostMax).router;
      var res := HandlePacket(r, 1, Routing("B", "A", Advert("B", "C", 5)));
      && res.Success?
      && res.value.router.cost.vals["C"] == CostMax + 5
      && res.value.router.cost.vals["C"] > CostMax
  {
    var r := HandleNewLink(Init("A", 1000), 1, "B", CostMax).router;
    LinkToB(r, CostMax);
    RelaxToC(r, UpdateNode(r, Advert("B", "C", 5)), CostMax, 5);
  }
}

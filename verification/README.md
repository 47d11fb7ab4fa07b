# Routing simulator core in Dafny

This project models three pieces of a teaching network simulator in which
routers exchange routing packets over links, and clients send traceroute
probes whose observed paths are checked against the known-correct ones.

- **The Distance Vector router** (`DVrouter.py`) is modelled in
  `dv_router.dfy`. It keeps four tables: next hop and cost per destination,
  port per neighbour, and neighbour per port. It also keeps a heartbeat period
  and the time of the last broadcast. Each handler is a pure step from a router
  to a new router plus the packets handed to `send`, in sending order. The
  handlers are `updateNode`, `handlePacket`, `handleNewLink`,
  `handleRemoveLink` and `handleTime`.
  - Python dictionaries are insertion-ordered maps (`Dicts.Dict`), so the
    order of the sends is exact.
  - A routing packet's JSON content is a typed `Advert(src, dst, cost)`.
  - A `KeyError` the code can raise from a reachable state is the error value
    `MissingKey`. This covers removing a link on an unknown port, and a
    traceroute whose next hop is not a neighbour.
  - `dv_facts.dfy` adds an event loop over the handlers and proves that every
    reachable state keeps the invariant. It also proves idempotence results and
    concrete scenarios, some of which show where the code departs from textbook
    distance-vector routing.
- **The link-state sequence-number gate** `LSP.updateLSP` (`LSP.py`) is
  modelled in `link_state.dfy`.
- **The route-verification bookkeeping** of `visualize_network.py` is modelled
  in `route_verification.dfy`: grouping the correct routes, recording the
  latest traceroute observation per (source, destination) pair, clearing the
  observations, and the sorted report with its SUCCESS/FAILURE verdict line.
  - The clock reading is a parameter.
  - The formatting of one report line is a function parameter.
  - Python's string order and `list.sort` are in `lex_order.dfy`.

Where this code departs from textbook distance-vector routing (RFC 1058),
the model follows the code:

- **Uncapped first route.** A destination learned for the first time gets the
  uncapped cost `cost[src] + cost` (`DVrouter.py:59-63`). Only the
  known-destination branch caps at 16. So "every cost is at most 16" is not an
  invariant, and `FirstRouteIsNotCapped` exhibits a cost of 21.
- **No split horizon on the heartbeat.** The periodic broadcast sends every
  neighbour every route, including routes through that neighbour
  (`HeartbeatIgnoresSplitHorizon`).
- **Removing a link keeps the port tables.** `handleRemoveLink` leaves the
  port and neighbour tables as they were. Later broadcasts still address the
  lost neighbour.
- **The new-link exchange.** The shortcut test in `handleNewLink` does not
  depend on the loop variable. When the test holds, the exchange covers every
  neighbour ever linked.

## Model

| member | source | states |
|---|---|---|
| DistanceVector.Init | DVrouter.py:17-25 | A new router has empty tables and no last heartbeat time, and already satisfies the invariant that lets every handler look up its tables without a membership test. |
| DistanceVector.UpdateNode | DVrouter.py:52-76 | Learning a new destination (other than the router itself) through a known source installs the uncapped sum and that source as next hop. For a known destination, the route changes exactly when the new cost is lower or the advert comes from the current next hop (and is not about the source itself), and the new cost is the sum capped at 16. Every other case changes nothing and reports no change. The invariant is kept, and a new destination is appended to both tables. |
| DistanceVector.Relaxed | DVrouter.py:61-62 | Writing one destination's cost and next hop keeps the invariant and the order of the tables: an existing destination keeps its place and a new one goes last. |
| DistanceVector.Readvertise | DVrouter.py:41-50 | Split horizon: every send is an update about the changed route on a listed port whose neighbour is not the route's next hop, every such port gets one, and no port gets two. When all neighbours are the next hop, nothing is sent. |
| DistanceVector.HandlePacket | DVrouter.py:27-50 | A probe for an unknown destination is dropped. A probe for a known one goes out unchanged on its next hop's port, and fails with `MissingKey` when that hop has no port. A routing packet yields exactly `UpdateNode`'s tables, with sends that follow split horizon, one per eligible port, when a route changed and no sends otherwise. |
| DistanceVector.NewLinkSends | DVrouter.py:81-101 | For each listed neighbour in turn, two packets: the new endpoint's cost sent to that neighbour, then that neighbour's cost sent on the new port. |
| DistanceVector.HandleNewLink | DVrouter.py:79-107 | The port tables always record the link. A direct route is installed only when the endpoint is unknown or strictly dearer, and otherwise the route is kept. Packets are exchanged with every recorded neighbour only in the shortcut case. The invariant holds afterwards. |
| DistanceVector.Linked | DVrouter.py:103-104 | Recording the link sets the neighbour's port and the port's neighbour and leaves the routes alone. |
| DistanceVector.PoisonVia | DVrouter.py:114-116 | Each listed destination whose next hop is the lost neighbour gets cost 16, and no other cost changes. |
| DistanceVector.PoisonedCost | DVrouter.py:113-116 | The lost neighbour and every destination routed through it cost 16, and the table keeps its destinations and their order. |
| DistanceVector.ResetVia | DVrouter.py:112-119 | Only costs change, apart from the self-reset. If the lost neighbour is the router itself, its own route becomes cost 0 through itself. Destinations, order, next hops and the port tables are unchanged. |
| DistanceVector.HandleRemoveLink | DVrouter.py:110-119 | An unknown port fails with `MissingKey`. A known port gives exactly the reset through the neighbour on that port. |
| DistanceVector.Broadcast | DVrouter.py:127-137 | One update per (neighbour, destination) pair: as many as neighbours times destinations, counted row by row. |
| DistanceVector.BroadcastAt | DVrouter.py:127-137 | The position at which row `i` starts, plus `j`, is neighbour `i`'s update about destination `j`, with neighbours as the outer loop. Rows are counted one at a time by `RowStart`, which equals `i * width`. |
| DistanceVector.BroadcastAnnounces | DVrouter.py:127-137 | Every (neighbour, destination) position of the broadcast holds the update from that neighbour's port about that destination's cost. |
| DistanceVectorFacts.HeartbeatReachesEveryNeighbour | DVrouter.py:127-137 | A due heartbeat sends every recorded neighbour the update about every destination, including destinations routed through that neighbour. |
| DistanceVector.HandleTime | DVrouter.py:122-137 | When no heartbeat has been sent yet, or strictly more than the period has passed, the time is recorded and exactly one update per (neighbour, destination) pair is sent in loop order. Otherwise neither the state nor the output changes. |
| DistanceVectorFacts.Dispatch | DVrouter.py:27-137 | Each event keeps the invariant. The only failures are `MissingKey`, from a link removal or a traceroute, and a link removal sends nothing. |
| DistanceVectorFacts.Run | DVrouter.py:17-137 | Any sequence of events keeps the invariant, the router's address and its heartbeat period, and can fail only with `MissingKey`. |
| DistanceVectorFacts.ReachableStatesKeepInv | DVrouter.py:17-137 | Every state reached from construction satisfies the invariant. |
| DistanceVectorFacts.RemoveLinkIdempotent | DVrouter.py:110-119 | Removing the same link twice leaves the tables as removing it once. |
| DistanceVectorFacts.ReplayedAdvertIsStable | DVrouter.py:59-76 | For an advert not about its own sender, a duplicate changes nothing more, except capping a first-time route above 16. It is still reported as a change, and so re-advertised, because it comes from the current next hop. |
| DistanceVectorFacts.RefreshIsStable | DVrouter.py:66-74 | An advert from the current next hop that repeats the stored cost leaves the tables unchanged but reports a change. |
| DistanceVectorFacts.LineTopologyScenario | DVrouter.py:27-119 | In A-B-C with unit costs, A learns C at cost 2 via B and re-advertises nothing. Losing B puts both at 16. A direct link to C at cost 5 then becomes the route. |
| DistanceVectorFacts.HeartbeatIgnoresSplitHorizon | DVrouter.py:122-137 | The heartbeat sends B the route to B itself, although B is that route's next hop. |
| DistanceVectorFacts.FirstRouteIsNotCapped | DVrouter.py:59-63 | A first route through a neighbour at cost 16 is stored at 21, above the cap. |
| LinkState.UpdateLsp | LSP.py:8-16 | A packet that is not strictly newer is ignored. A newer packet always has its sequence number adopted. The costs are replaced, and `True` returned, exactly when they differ. The address never changes and the sequence number never decreases. |
| LinkState.UpdateLspIdempotent | LSP.py:9-13 | A second delivery of the same packet returns `False` and leaves the record unchanged. |
| LinkState.UpdateAll | LSP.py:8-16 | After any sequence of packets the stored sequence number is at least every packet's, and is the original one or one of theirs. |
| LinkState.UpdateAllKeepsNewest | LSP.py:9-11 | In any arrival order the record ends with the largest sequence number seen. |
| LinkState.ChangeNeedsFresherSeqnum | LSP.py:9-16 | A packet reported as a change carries a sequence number above all earlier ones. |
| RouteVerification.ParseCorrectRoutes | visualize_network.py:97-103 | Routes are grouped under (first, last) address in input order. A pair is present exactly when some route connects it. An empty route is an `IndexError`. |
| RouteVerification.GroupedMembers | visualize_network.py:99-102 | A route is in a pair's group exactly when it is listed, non-empty and connects that pair. |
| RouteVerification.UpdateRoute | visualize_network.py:171-185 | The pair becomes present and no other pair changes. A first report is stored. A later one replaces it only if strictly newer, and an equal or older one leaves the table identical. Its correctness flag is whether the route is listed for that pair, which is false for an unknown pair. |
| RouteVerification.ReportAll | visualize_network.py:171-185 | Reporting a sequence adds exactly the reported pairs. |
| RouteVerification.LatestReportWins | visualize_network.py:179-183 | After reports in any order, a pair's observation is at least as recent as each report for it and is one of them, or the original. |
| RouteVerification.ResetRoutes | visualize_network.py:219-223 | Resetting leaves no observation. |
| RouteVerification.EveryGood | visualize_network.py:193-199 | The all-correct flag holds exactly when every listed observation is good. |
| RouteVerification.RouteReport | visualize_network.py:188-207 | One line per pair, sorted, and a permutation of the per-pair lines. The last line is SUCCESS exactly when at least one route was observed and all are good, and FAILURE otherwise. |
| RouteVerification.ResetReportFails | visualize_network.py:201-204 | With no observations the report is only the FAILURE line. |
| RouteVerification.ReportIgnoresInsertionOrder | visualize_network.py:194-200 | Two tables with the same observations give the same report, whatever order their pairs were first reported in. |
| LexOrder.Sort | visualize_network.py:200 | The result is sorted in Python's string order and is a permutation of the input. |
| LexOrder.SortedUnique | visualize_network.py:200 | Two sorted permutations of the same lines are equal, so the sorted report is determined. |

## Left out

- The Tkinter visualiser, `main`, thread wrappers, `run`, `joinAll` and signal handling: GUI and concurrency. The lock around the route table is left out; each modelled call is one atomic step.
- `handleChanges`: it sleeps against the wall clock and calls `changeLink`, and `router.py` is not part of this model. Its "down" case raises `KeyError` for a link that was never up.
- JSON file loading, `parseRouters`, `parseClients`, `parseLinks` and `getRoutePickle`. They build objects from `router.py`, `client.py` and `link.py`, or use pickle. None of these files is part of this model.
- `json.dumps`/`loads` in the router: adverts are typed records.
- `debugString` and the text of a report line. `"{} -> {}: {} {}".format` over Python's `str` of a list is the `fmt` parameter; only the label text is modelled.
- Joining the report lines with `"\n"`: the report is the list of lines.
- The clock: `updateRoute` and `handleTime` take the time as a parameter.
- `Packet`, `Router.send`, `Link`, `Client` and `LSrouter` are not part of this model. `send` is modelled as appending `(port, packet)` to the output.
- `correctRoutes` is a `defaultdict`, so looking up an unknown pair inserts an empty entry. That side effect is not modelled; it changes neither a flag nor the report.
- Dictionary order is that of Python 3.7 and later: insertion order, with an existing key keeping its place. The code was written for Python 2, where iteration order is arbitrary. The send-order statements hold for the insertion-ordered reading.
- The `port` argument of `handlePacket` is not used by the code. The model takes it and ignores it.
- DistanceVector.Readvertise: the contract states which ports receive the update, once each, but not their relative order, which follows the port table.
- DistanceVector.HandlePacket: for a routing packet it inherits the order-free characterisation of `Readvertise`'s sends.

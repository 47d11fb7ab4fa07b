/**
  The link-state packet record a Link State router keeps for every router it
  has heard of, and the gate that decides whether an incoming copy is news.
 */
module LinkState {
  import opened Net

  /** A router's neighbour costs as announced in its link-state packets. */
  type NeighbourCosts = map<Addr, int>

  /** The stored record: owner, newest sequence number seen, neighbour costs. */
  datatype Lsp = Lsp(addr: Addr, seqnum: int, nbcost: NeighbourCosts)

  /** The fields of an incoming link-state packet that the gate reads. */
  datatype LspPacket = LspPacket(seqnum: int, nbcost: NeighbourCosts)

  /** The record after the gate, and whether the caller should flood the packet on. */
  datatype LspUpdate = LspUpdate(lsp: Lsp, changed: bool)

  /**
    A packet that is not strictly newer is ignored. A newer one always has its
    sequence number adopted; its costs are adopted, and reported as a change,
    only when they differ from the stored ones.
   */
  function UpdateLsp(l: Lsp, p: LspPacket): (u: LspUpdate)
    ensures p.seqnum <= l.seqnum ==> u == LspUpdate(l, false)
    ensures p.seqnum > l.seqnum ==> u.lsp.seqnum == p.seqnum
    ensures u.lsp.addr == l.addr
    ensures u.lsp.seqnum >= l.seqnum
    ensures u.changed <==> p.seqnum > l.seqnum && p.nbcost != l.nbcost
    ensures u.changed ==> u.lsp.seqnum > l.seqnum && u.lsp.nbcost == p.nbcost
    ensures !u.changed ==> u.lsp.nbcost == l.nbcost
  {
    if l.seqnum >= p.seqnum then LspUpdate(l, false)
    else
      var newer := l.(seqnum := p.seqnum);
      if newer.nbcost == p.nbcost then LspUpdate(newer, false)
      else LspUpdate(newer.(nbcost := p.nbcost), true)
  }

  /**
    Delivering the same packet a second time reports no change and leaves the
    record as the first delivery left it.
   */
  lemma UpdateLspIdempotent(l: Lsp, p: LspPacket)
    ensures var once := UpdateLsp(l, p).lsp;
            UpdateLsp(once, p) == LspUpdate(once, false)
  {
  }

  /** The gate applied to each packet of a sequence in turn. */
  function UpdateAll(l: Lsp, ps: seq<LspPacket>): (r: Lsp)
    ensures r.addr == l.addr && r.seqnum >= l.seqnum
    ensures forall i :: 0 <= i < |ps| ==> r.seqnum >= ps[i].seqnum
    ensures r.seqnum == l.seqnum || exists i :: 0 <= i < |ps| && r.seqnum == ps[i].seqnum
    decreases |ps|
  {
    if ps == [] then l
    else
      var r := UpdateAll(UpdateLsp(l, ps[0]).lsp, ps[1..]);
      assert forall i :: 1 <= i < |ps| ==> ps[i] == ps[1..][i - 1];
      r
  }

  /** The largest sequence number among the stored one and those of the packets. */
  function MaxSeqnum(s: int, ps: seq<LspPacket>): int
    decreases |ps|
  {
    if ps == [] then s
    else MaxSeqnum(if ps[0].seqnum > s then ps[0].seqnum else s, ps[1..])
  }

  /**
    Whatever order packets arrive in, the record ends with the largest
    sequence number seen: stale packets never roll it back.
   */
  lemma {:induction false} UpdateAllKeepsNewest(l: Lsp, ps: seq<LspPacket>)
    ensures UpdateAll(l, ps).seqnum == MaxSeqnum(l.seqnum, ps)
    decreases |ps|
  {
    if ps != [] {
      UpdateAllKeepsNewest(UpdateLsp(l, ps[0]).lsp, ps[1..]);
    }
  }

  /**
    A packet that reports a change carries a sequence number above every one
    delivered before it, so a record is flooded at most once per sequence number.
   */
  lemma ChangeNeedsFresherSeqnum(l: Lsp, ps: seq<LspPacket>, p: LspPacket)
    requires UpdateLsp(UpdateAll(l, ps), p).changed
    ensures p.seqnum > l.seqnum
    ensures forall i :: 0 <= i < |ps| ==> p.seqnum > ps[i].seqnum
  {
  }
}

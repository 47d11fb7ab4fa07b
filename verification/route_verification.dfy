/**
  The simulator's bookkeeping of traceroute results: the table of known-correct
  routes, the most recent route observed per (source, destination) pair, and
  the report with its SUCCESS/FAILURE verdict. The clock reading and the
  formatting of one report line are parameters.
 */
module RouteVerification {
  import opened Wrappers
  import opened Dicts
  import opened Net
  import opened LexOrder

  /** A path as a list of addresses, source first. */
  type Route = seq<Addr>

  /** A (source, destination) pair. */
  type Pair = (Addr, Addr)

  /** The acceptable routes for each pair. */
  type CorrectRoutes = map<Pair, seq<Route>>

  /** The route a probe reported, whether it is acceptable, and when it was recorded. */
  datatype Observation = Observation(route: Route, isGood: bool, time: int)

  /** The latest observation for each pair, in the order pairs were first reported. */
  type Routes = Dict<Pair, Observation>

  /** The pair a route connects: its first and its last address. */
  function Ends(route: Route): Pair
    requires |route| > 0
  {
    (route[0], route[|route| - 1])
  }

  /** The non-empty routes of `params` that connect `pair`, in input order. */
  ghost function Grouped(params: seq<Route>, pair: Pair): seq<Route>
    decreases |params|
  {
    if params == [] then []
    else
      var last := params[|params| - 1];
      Grouped(params[..|params| - 1], pair) + (if |last| > 0 && Ends(last) == pair then [last] else [])
  }

  /** A route is grouped under `pair` exactly when it is listed, non-empty and connects `pair`. */
  lemma {:induction false} GroupedMembers(params: seq<Route>, pair: Pair, route: Route)
    ensures route in Grouped(params, pair) <==> route in params && |route| > 0 && Ends(route) == pair
    decreases |params|
  {
    if params != [] {
      var init := params[..|params| - 1];
      GroupedMembers(init, pair, route);
      assert params == init + [params[|params| - 1]];
    }
  }

  lemma GroupedStep(params: seq<Route>, i: nat, pair: Pair)
    requires i < |params| && |params[i]| > 0
    ensures Grouped(params[..i + 1], pair)
         == Grouped(params[..i], pair) + (if Ends(params[i]) == pair then [params[i]] else [])
  {
    assert params[..i + 1][..i] == params[..i];
  }

  /**
    Groups the listed correct routes by the pair they connect, keeping input
    order within a pair. An empty route raises `IndexError`.
   */
  method ParseCorrectRoutes(params: seq<Route>) returns (res: Result<CorrectRoutes, Fault>)
    ensures res.Failure? <==> exists i :: 0 <= i < |params| && |params[i]| == 0
    ensures res.Failure? ==> res.error == EmptyRoute
    ensures res.Success? ==> forall pair :: pair in res.value <==> Grouped(params, pair) != []
    ensures res.Success? ==> forall pair :: pair in res.value ==> res.value[pair] == Grouped(params, pair)
  {
    var groups: CorrectRoutes := map[];
    var i := 0;
    while i < |params|
      invariant 0 <= i <= |params|
      invariant forall j :: 0 <= j < i ==> |params[j]| > 0
      invariant forall pair :: pair in groups <==> Grouped(params[..i], pair) != []
      invariant forall pair :: pair in groups ==> groups[pair] == Grouped(params[..i], pair)
    {
      var route := params[i];
      if |route| == 0 {
        assert |params[i]| == 0;
        return Failure(EmptyRoute);
      }
      groups := AddRoute(groups, params, i);
      i := i + 1;
    }
    assert params[..i] == params;
    return Success(groups);
  }

  /** One loop step of `ParseCorrectRoutes`: route `i` joins its pair's group. */
  function AddRoute(groups: CorrectRoutes, params: seq<Route>, i: nat): (g: CorrectRoutes)
    requires i < |params| && |params[i]| > 0
    requires forall pair :: pair in groups <==> Grouped(params[..i], pair) != []
    requires forall pair :: pair in groups ==> groups[pair] == Grouped(params[..i], pair)
    ensures forall pair :: pair in g <==> Grouped(params[..i + 1], pair) != []
    ensures forall pair :: pair in g ==> g[pair] == Grouped(params[..i + 1], pair)
  {
    var route := params[i];
    var key := Ends(route);
    var current := if key in groups then groups[key] else [];
    var g := groups[key := current + [route]];
    forall pair
      ensures pair in g <==> Grouped(params[..i + 1], pair) != []
      ensures pair in g ==> g[pair] == Grouped(params[..i + 1], pair)
    {
      GroupedStep(params, i, pair);
    }
    g
  }

  /** Whether `route` is among the acceptable routes of `pair`; an unknown pair has none. */
  predicate IsCorrect(correct: CorrectRoutes, pair: Pair, route: Route) {
    pair in correct && route in correct[pair]
  }

  /** Every stored observation is labelled by the correctness of its own route. */
  ghost predicate Judged(routes: Routes, correct: CorrectRoutes) {
    forall p :: p in routes.vals ==> routes.vals[p].isGood == IsCorrect(correct, p, routes.vals[p].route)
  }

  /**
    A probe from `src` to `dst` reported `route` at time `now`. The first
    report for a pair is stored; a later one replaces it only when strictly
    newer. No other pair is touched.
   */
  function UpdateRoute(routes: Routes, correct: CorrectRoutes, src: Addr, dst: Addr, route: Route, now: int): (r: Routes)
    ensures Valid(routes) ==> Valid(r)
    ensures Judged(routes, correct) ==> Judged(r, correct)
    ensures r.vals.Keys == routes.vals.Keys + {(src, dst)}
    ensures forall p :: p in routes.vals && p != (src, dst) ==> r.vals[p] == routes.vals[p]
    ensures (src, dst) !in routes.vals ==>
              r.vals[(src, dst)] == Observation(route, IsCorrect(correct, (src, dst), route), now)
    ensures (src, dst) in routes.vals && now > routes.vals[(src, dst)].time ==>
              r.vals[(src, dst)] == Observation(route, IsCorrect(correct, (src, dst), route), now)
    ensures (src, dst) in routes.vals && now <= routes.vals[(src, dst)].time ==> r == routes
  {
    var pair := (src, dst);
    var isGood := pair in correct && route in correct[pair];
    if pair in routes.vals then
      if now > routes.vals[pair].time then Put(routes, pair, Observation(route, isGood, now))
      else routes
    else Put(routes, pair, Observation(route, isGood, now))
  }

  /** One probe result as delivered to `UpdateRoute`. */
  datatype Report = Report(src: Addr, dst: Addr, route: Route, time: int)

  /** Reports delivered one after the other, in any order the network produced. */
  function ReportAll(routes: Routes, correct: CorrectRoutes, rs: seq<Report>): (r: Routes)
    ensures r.vals.Keys == routes.vals.Keys + (set i | 0 <= i < |rs| :: (rs[i].src, rs[i].dst))
    decreases |rs|
  {
    if rs == [] then routes
    else
      var r0 := rs[0];
      var rest := rs[1..];
      assert (set i | 0 <= i < |rs| :: (rs[i].src, rs[i].dst))
          == {(r0.src, r0.dst)} + (set i | 0 <= i < |rest| :: (rest[i].src, rest[i].dst)) by {
        forall i | 0 <= i < |rest| ensures rest[i] == rs[i + 1] { }
      }
      ReportAll(UpdateRoute(routes, correct, r0.src, r0.dst, r0.route, r0.time), correct, rest)
  }

  /**
    Out-of-order delivery never lets a stale report win: after any sequence of
    reports, the stored observation of a pair is at least as recent as every
    report for that pair, and is the stored one or one of those reports.
   */
  lemma {:induction false} LatestReportWins(routes: Routes, correct: CorrectRoutes, rs: seq<Report>, p: Pair)
    requires p in ReportAll(routes, correct, rs).vals
    ensures var o := ReportAll(routes, correct, rs).vals[p];
            && (forall i :: 0 <= i < |rs| && (rs[i].src, rs[i].dst) == p ==> o.time >= rs[i].time)
            && (p in routes.vals ==> o.time >= routes.vals[p].time)
            && ((p in routes.vals && o == routes.vals[p])
                || exists i :: 0 <= i < |rs| && (rs[i].src, rs[i].dst) == p
                               && o == Observation(rs[i].route, IsCorrect(correct, p, rs[i].route), rs[i].time))
    decreases |rs|
  {
    if rs != [] {
      var r0, rest := rs[0], rs[1..];
      var q := (r0.src, r0.dst);
      var next := UpdateRoute(routes, correct, r0.src, r0.dst, r0.route, r0.time);
      LatestReportWins(next, correct, rest, p);
      var o := ReportAll(next, correct, rest).vals[p];
      assert o == ReportAll(routes, correct, rs).vals[p];
      assert p == q ==> p in next.vals && next.vals[p].time >= r0.time;
      assert p in routes.vals ==> p in next.vals && next.vals[p].time >= routes.vals[p].time;
      forall i | 0 <= i < |rs| && (rs[i].src, rs[i].dst) == p
        ensures o.time >= rs[i].time
      {
        if i > 0 {
          assert rs[i] == rest[i - 1];
        }
      }
      if p in next.vals && o == next.vals[p] {
        if !(p in routes.vals && o == routes.vals[p]) {
          assert p == q;
          assert o == Observation(rs[0].route, IsCorrect(correct, p, rs[0].route), rs[0].time);
        }
      } else {
        var j :| 0 <= j < |rest| && (rest[j].src, rest[j].dst) == p
                 && o == Observation(rest[j].route, IsCorrect(correct, p, rest[j].route), rest[j].time);
        assert rs[j + 1] == rest[j];
      }
    }
  }

  /** The table after `resetRoutes`: no observation at all. */
  function ResetRoutes(): (r: Routes)
    ensures Valid(r)
    ensures |r.vals| == 0 && |r.keys| == 0
  {
    Empty()
  }

  const SuccessLine := "\nSUCCESS: All Routes correct!"
  const FailureLine := "\nFAILURE: Not all routes are correct"

  /** The text that follows a route in its report line. */
  function Label(isGood: bool, labelIncorrect: bool): string {
    if isGood || !labelIncorrect then "" else "Incorrect Route"
  }

  /** How a report line is written from source, destination, route and label. */
  type Formatter = (Addr, Addr, Route, string) -> string

  /** The stored observations, keyed by pair. */
  type Observations = map<Pair, Observation>

  /** The report line of the pair `p`; only stored pairs are ever listed. */
  function LineOf(obs: Observations, labelIncorrect: bool, fmt: Formatter, p: Pair): string {
    if p in obs then
      var o := obs[p];
      fmt(p.0, p.1, o.route, Label(o.isGood, labelIncorrect))
    else ""
  }

  /** The report lines of the listed pairs, in the order listed. */
  function LinesFor(obs: Observations, labelIncorrect: bool, fmt: Formatter, ks: seq<Pair>): (out: seq<string>)
    ensures |out| == |ks|
    decreases |ks|
  {
    if ks == [] then []
    else
      [LineOf(obs, labelIncorrect, fmt, ks[0])] + LinesFor(obs, labelIncorrect, fmt, ks[1..])
  }

  /** Python's loop over the routes: true unless some listed observation is not good. */
  function EveryGood(obs: Observations, ks: seq<Pair>): (ok: bool)
    requires forall k :: k in ks ==> k in obs
    ensures ok <==> forall k :: k in ks ==> obs[k].isGood
    decreases |ks|
  {
    if ks == [] then true
    else
      assert ks[0] in ks;
      assert forall k :: k in ks ==> k == ks[0] || k in ks[1..];
      obs[ks[0]].isGood && EveryGood(obs, ks[1..])
  }

  /**
    The route report: one line per stored pair, sorted, then the verdict line,
    SUCCESS exactly when at least one route was observed and all are good.
   */
  function RouteReport(routes: Routes, labelIncorrect: bool, fmt: Formatter): (lines: seq<string>)
    requires Valid(routes)
    ensures |lines| == |routes.keys| + 1
    ensures Sorted(lines[..|routes.keys|])
    ensures multiset(lines[..|routes.keys|]) == multiset(LinesFor(routes.vals, labelIncorrect, fmt, routes.keys))
    ensures lines[|routes.keys|] == SuccessLine <==>
              |routes.vals| > 0 && forall p :: p in routes.vals ==> routes.vals[p].isGood
    ensures lines[|routes.keys|] == SuccessLine || lines[|routes.keys|] == FailureLine
  {
    assert forall k :: k in routes.keys ==> k in routes.vals;
    var strs := LinesFor(routes.vals, labelIncorrect, fmt, routes.keys);
    var allCorrect := EveryGood(routes.vals, routes.keys);
    var sorted := Sort(strs);
    assert |sorted| == |multiset(sorted)| == |strs|;
    assert SuccessLine != FailureLine;
    var verdict := if allCorrect && |routes.vals| > 0 then SuccessLine else FailureLine;
    assert (sorted + [verdict])[..|routes.keys|] == sorted;
    sorted + [verdict]
  }

  /** Right after `resetRoutes` the report is just the FAILURE verdict. */
  lemma ResetReportFails(labelIncorrect: bool, fmt: Formatter)
    ensures RouteReport(ResetRoutes(), labelIncorrect, fmt) == [FailureLine]
  {
    var r := RouteReport(ResetRoutes(), labelIncorrect, fmt);
    assert |r| == 1;
  }

  /**
    The report depends only on which observations are stored, not on the order
    in which their pairs were first reported.
   */
  lemma ReportIgnoresInsertionOrder(r1: Routes, r2: Routes, labelIncorrect: bool, fmt: Formatter)
    requires Valid(r1) && Valid(r2) && r1.vals == r2.vals
    ensures RouteReport(r1, labelIncorrect, fmt) == RouteReport(r2, labelIncorrect, fmt)
  {
    var obs := r1.vals;
    SameKeysSameMultiset(r1, r2);
    assert |r1.keys| == |multiset(r1.keys)| == |r2.keys|;
    assert forall k :: k in r1.keys ==> k in obs;
    assert forall k :: k in r2.keys ==> k in obs;
    LinesForPermutation(obs, labelIncorrect, fmt, r1.keys, r2.keys);
    var n := |r1.keys|;
    var a, b := RouteReport(r1, labelIncorrect, fmt), RouteReport(r2, labelIncorrect, fmt);
    SortedUnique(a[..n], b[..n]);
    assert a == a[..n] + [a[n]] && b == b[..n] + [b[n]];
  }

  lemma {:induction false} LinesForConcat(obs: Observations, labelIncorrect: bool, fmt: Formatter, xs: seq<Pair>, ys: seq<Pair>)
    ensures LinesFor(obs, labelIncorrect, fmt, xs + ys)
         == LinesFor(obs, labelIncorrect, fmt, xs) + LinesFor(obs, labelIncorrect, fmt, ys)
    decreases |xs|
  {
    if xs == [] {
      assert xs + ys == ys;
    } else {
      assert (xs + ys)[1..] == xs[1..] + ys;
      LinesForConcat(obs, labelIncorrect, fmt, xs[1..], ys);
    }
  }

  /** Listing the same pairs in another order permutes the report lines. */
  lemma {:induction false} LinesForPermutation(obs: Observations, labelIncorrect: bool, fmt: Formatter, xs: seq<Pair>, ys: seq<Pair>)
    requires multiset(xs) == multiset(ys)
    ensures multiset(LinesFor(obs, labelIncorrect, fmt, xs)) == multiset(LinesFor(obs, labelIncorrect, fmt, ys))
    decreases |xs|
  {
    if xs == [] {
      assert |ys| == |multiset(ys)| == 0;
    } else {
      var x := xs[0];
      var before, after := MatchHead(xs, ys);
      LinesForPermutation(obs, labelIncorrect, fmt, xs[1..], before + after);
      LinesForConcat(obs, labelIncorrect, fmt, before, [x] + after);
      LinesForConcat(obs, labelIncorrect, fmt, before, after);
      assert ([x] + after)[1..] == after;
      var line := LineOf(obs, labelIncorrect, fmt, x);
      var lb, la := LinesFor(obs, labelIncorrect, fmt, before), LinesFor(obs, labelIncorrect, fmt, after);
      assert LinesFor(obs, labelIncorrect, fmt, ys) == lb + ([line] + la);
      assert LinesFor(obs, labelIncorrect, fmt, before + after) == lb + la;
      assert LinesFor(obs, labelIncorrect, fmt, xs) == [line] + LinesFor(obs, labelIncorrect, fmt, xs[1..]);
    }
  }

  /** The head of `xs` found in its permutation `ys`, with what surrounds it there. */
  lemma MatchHead<T>(xs: seq<T>, ys: seq<T>) returns (before: seq<T>, after: seq<T>)
    requires xs != [] && multiset(xs) == multiset(ys)
    ensures ys == before + ([xs[0]] + after)
    ensures multiset(xs[1..]) == multiset(before + after)
  {
    var x := xs[0];
    assert x in multiset(ys);
    var k := IndexOf(ys, x);
    before, after := ys[..k], ys[k + 1..];
    MultisetSplit(ys, k);
    assert xs == [x] + xs[1..];
    assert multiset(xs) == multiset(xs[1..]) + multiset{x};
    assert multiset(xs[1..]) == multiset(xs) - multiset{x};
    assert multiset(before + after) == multiset(ys) - multiset{x};
  }

  /** A position at which `x` occurs in `ys`. */
  function IndexOf<T(==)>(ys: seq<T>, x: T): (k: nat)
    requires x in ys
    ensures k < |ys| && ys[k] == x
  {
    if ys[0] == x then 0 else 1 + IndexOf(ys[1..], x)
  }

  /** Cutting the element at `k` out of a list. */
  lemma MultisetSplit<T>(ys: seq<T>, k: nat)
    requires k < |ys|
    ensures ys == ys[..k] + ([ys[k]] + ys[k + 1..])
    ensures multiset(ys) == multiset(ys[..k] + ys[k + 1..]) + multiset{ys[k]}
  {
    assert ys == ys[..k] + ([ys[k]] + ys[k + 1..]);
  }
}

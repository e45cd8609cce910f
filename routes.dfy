/**
  Route grouping: the loop of `process_routes` (route_loader/src/lib.rs) that turns
  a stream of hop records, each tagged with the id of the packet (`pid`) it belongs
  to, into routes, one per maximal run of consecutive records with the same pid.
*/
module RouteLoader {
  import opened Wrappers

  /** One CSV row: a hop of packet `pid`. */
  datatype Record = Record(pid: nat, typ: char, id: nat, lat: real, lon: real, alt: nat)

  /** A hop is a record without its pid. */
  datatype Hop = Hop(typ: char, id: nat, lat: real, lon: real, alt: nat)

  datatype Route = Route(pid: nat, hops: seq<Hop>)

  /** `iter.next().unwrap()` on an input without a first record panics. */
  datatype Error = EmptyInput

  function HopOf(r: Record): (h: Hop)
  {
    Hop(r.typ, r.id, r.lat, r.lon, r.alt)
  }

  /** The record a hop of a route with the given pid came from. */
  function Tag(pid: nat, h: Hop): (r: Record)
  {
    Record(pid, h.typ, h.id, h.lat, h.lon, h.alt)
  }

  /** The hops of one route, each tagged again with the route's pid. */
  function TagAll(pid: nat, hops: seq<Hop>): (rs: seq<Record>)
    ensures |rs| == |hops|
    ensures forall i :: 0 <= i < |rs| ==> rs[i] == Tag(pid, hops[i])
  {
    if hops == [] then [] else TagAll(pid, hops[..|hops| - 1]) + [Tag(pid, hops[|hops| - 1])]
  }

  /** The records a sequence of routes stands for, in order. */
  function Flatten(routes: seq<Route>): (rs: seq<Record>)
  {
    if routes == [] then []
    else Flatten(routes[..|routes| - 1]) + TagAll(routes[|routes| - 1].pid, routes[|routes| - 1].hops)
  }

  /** The hops of all routes, concatenated in order. */
  function AllHops(routes: seq<Route>): (hs: seq<Hop>)
  {
    if routes == [] then [] else AllHops(routes[..|routes| - 1]) + routes[|routes| - 1].hops
  }

  /** The records with their pid dropped. */
  function Hops(rs: seq<Record>): (hs: seq<Hop>)
  {
    if rs == [] then [] else Hops(rs[..|rs| - 1]) + [HopOf(rs[|rs| - 1])]
  }

  /** The number of positions where the pid differs from the previous record's. */
  function Changes(rs: seq<Record>): (n: nat)
  {
    if |rs| <= 1 then 0
    else Changes(rs[..|rs| - 1]) + (if rs[|rs| - 1].pid != rs[|rs| - 2].pid then 1 else 0)
  }

  /**
    `routes` groups `rs` into maximal runs of equal pid: flattening gives `rs` back,
    no route is empty, and adjacent routes have different pids.
  */
  ghost predicate IsGrouping(rs: seq<Record>, routes: seq<Route>)
  {
    && Flatten(routes) == rs
    && (forall k :: 0 <= k < |routes| ==> routes[k].hops != [])
    && (forall k :: 0 < k < |routes| ==> routes[k - 1].pid != routes[k].pid)
  }

  /**
    The grouping loop of `process_routes`: the first record opens the first route,
    every later record whose pid differs from the current one closes the current
    route and opens a new one, and the last route is flushed at the end.
  */
  method GroupRoutes(records: seq<Record>) returns (r: Result<seq<Route>, Error>)
    ensures r.Err? <==> records == []
    ensures r.Ok? ==> IsGrouping(records, r.value)
    ensures r.Ok? ==> |r.value| == 1 + Changes(records)
  {
    if records == [] {
      return Err(EmptyInput);
    }
    var currentPid := records[0].pid;
    var routes: seq<Route> := [];
    var hops: seq<Hop> := [HopOf(records[0])];
    assert records[..1] == [records[0]];
    assert TagAll(currentPid, hops) == [records[0]] by {
      assert hops[..0] == [];
    }
    var n := 1;
    while n < |records|
      invariant 1 <= n <= |records|
      invariant hops != []
      invariant currentPid == records[n - 1].pid
      invariant IsGrouping(records[..n], routes + [Route(currentPid, hops)])
      invariant |routes| == Changes(records[..n])
    {
      var record := records[n];
      if record.pid != currentPid {
        StartRouteStep(records, n, routes, currentPid, hops);
        routes := routes + [Route(currentPid, hops)];
        currentPid := record.pid;
        hops := [HopOf(record)];
      } else {
        ExtendRouteStep(records, n, routes, currentPid, hops);
        hops := hops + [HopOf(record)];
      }
      n := n + 1;
    }
    if hops != [] {
      routes := routes + [Route(currentPid, hops)];
    }
    assert records[..n] == records;
    return Ok(routes);
  }

  /** Flatten distributes over concatenation of route sequences. */
  lemma {:induction false} FlattenAppend(a: seq<Route>, b: seq<Route>)
    ensures Flatten(a + b) == Flatten(a) + Flatten(b)
    decreases |b|
  {
    if b == [] {
      assert a + b == a;
    } else {
      var b', x := b[..|b| - 1], b[|b| - 1];
      assert b == b' + [x];
      assert a + b == (a + b') + [x];
      FlattenSnoc(a + b', x);
      FlattenSnoc(b', x);
      FlattenAppend(a, b');
    }
  }

  /** Appending a route appends its tagged hops. */
  lemma FlattenSnoc(routes: seq<Route>, x: Route)
    ensures Flatten(routes + [x]) == Flatten(routes) + TagAll(x.pid, x.hops)
  {
    assert (routes + [x])[..|routes|] == routes;
  }

  /** Appending a hop to a route appends one tagged record. */
  lemma TagAllSnoc(pid: nat, hops: seq<Hop>, h: Hop)
    ensures TagAll(pid, hops + [h]) == TagAll(pid, hops) + [Tag(pid, h)]
  {
    assert (hops + [h])[..|hops|] == hops;
  }

  /** The loop step for a record with the current pid: the invariant holds one record further. */
  lemma ExtendRouteStep(records: seq<Record>, n: nat, routes: seq<Route>, pid: nat, hops: seq<Hop>)
    requires 0 < n < |records| && records[n].pid == pid && pid == records[n - 1].pid
    requires IsGrouping(records[..n], routes + [Route(pid, hops)])
    requires |routes| == Changes(records[..n])
    ensures IsGrouping(records[..n + 1], routes + [Route(pid, hops + [HopOf(records[n])])])
    ensures |routes| == Changes(records[..n + 1])
  {
    assert records[..n + 1] == records[..n] + [records[n]];
    GroupingExtendRoute(records[..n], routes, pid, hops, records[n]);
    ChangesSnoc(records, n);
  }

  /** The loop step for a record with a new pid: the invariant holds one record further. */
  lemma StartRouteStep(records: seq<Record>, n: nat, routes: seq<Route>, pid: nat, hops: seq<Hop>)
    requires 0 < n < |records| && records[n].pid != pid && pid == records[n - 1].pid
    requires IsGrouping(records[..n], routes + [Route(pid, hops)])
    requires |routes| == Changes(records[..n])
    ensures IsGrouping(records[..n + 1], routes + [Route(pid, hops)] + [Route(records[n].pid, [HopOf(records[n])])])
    ensures |routes + [Route(pid, hops)]| == Changes(records[..n + 1])
  {
    assert records[..n + 1] == records[..n] + [records[n]];
    GroupingStartRoute(records[..n], routes, pid, hops, records[n]);
    ChangesSnoc(records, n);
  }

  /** One more record adds one change exactly when its pid differs from the previous one. */
  lemma ChangesSnoc(records: seq<Record>, n: nat)
    requires 0 < n < |records|
    ensures Changes(records[..n + 1]) == Changes(records[..n]) + (if records[n].pid != records[n - 1].pid then 1 else 0)
  {
    assert records[..n + 1][..n] == records[..n];
  }

  /** A record with the current pid joins the current route. */
  lemma GroupingExtendRoute(rs: seq<Record>, routes: seq<Route>, pid: nat, hops: seq<Hop>, record: Record)
    requires IsGrouping(rs, routes + [Route(pid, hops)])
    requires record.pid == pid
    ensures IsGrouping(rs + [record], routes + [Route(pid, hops + [HopOf(record)])])
  {
    var before, after := routes + [Route(pid, hops)], routes + [Route(pid, hops + [HopOf(record)])];
    FlattenSnoc(routes, Route(pid, hops));
    FlattenSnoc(routes, Route(pid, hops + [HopOf(record)]));
    TagAllSnoc(pid, hops, HopOf(record));
    assert Tag(pid, HopOf(record)) == record;
    assert Flatten(after) == Flatten(routes) + TagAll(pid, hops) + [record];
    assert forall k :: 0 <= k < |routes| ==> after[k] == before[k];
  }

  /** A record with another pid closes the current route and opens a new one. */
  lemma GroupingStartRoute(rs: seq<Record>, routes: seq<Route>, pid: nat, hops: seq<Hop>, record: Record)
    requires IsGrouping(rs, routes + [Route(pid, hops)])
    requires record.pid != pid
    ensures IsGrouping(rs + [record], routes + [Route(pid, hops)] + [Route(record.pid, [HopOf(record)])])
  {
    var before := routes + [Route(pid, hops)];
    FlattenSnoc(before, Route(record.pid, [HopOf(record)]));
    assert TagAll(record.pid, [HopOf(record)]) == [record] by {
      assert [HopOf(record)][..0] == [];
    }
  }

  /** Position `m` starts the maximal final run of records with pid `pid`. */
  ghost predicate FinalRun(rs: seq<Record>, m: int, pid: nat)
  {
    && 0 <= m < |rs|
    && (forall j :: m <= j < |rs| ==> rs[j].pid == pid)
    && (m > 0 ==> rs[m - 1].pid != pid)
  }

  lemma FinalRunUnique(rs: seq<Record>, m1: int, m2: int, pid: nat)
    requires FinalRun(rs, m1, pid) && FinalRun(rs, m2, pid)
    ensures m1 == m2
  {
  }

  /** The last route of a grouping covers the maximal final run of equal pid. */
  lemma LastRun(rs: seq<Record>, routes: seq<Route>)
    requires IsGrouping(rs, routes) && routes != []
    ensures |routes[|routes| - 1].hops| <= |rs|
    ensures var x := routes[|routes| - 1];
      && FinalRun(rs, |rs| - |x.hops|, x.pid)
      && rs[|rs| - |x.hops|..] == TagAll(x.pid, x.hops)
  {
    var x, front := routes[|routes| - 1], routes[..|routes| - 1];
    var m := |rs| - |x.hops|;
    assert rs == Flatten(front) + TagAll(x.pid, x.hops);
    assert rs[m..] == TagAll(x.pid, x.hops);
    forall j | m <= j < |rs| ensures rs[j].pid == x.pid {
      assert rs[j] == rs[m..][j - m];
    }
    if m > 0 {
      var y := front[|front| - 1];
      assert routes[|routes| - 2] == y;
      assert Flatten(front) == Flatten(front[..|front| - 1]) + TagAll(y.pid, y.hops);
      assert rs[m - 1] == TagAll(y.pid, y.hops)[|y.hops| - 1];
    }
  }

  /** The routes before the last one group the records before its run. */
  lemma GroupingFront(rs: seq<Record>, routes: seq<Route>)
    requires IsGrouping(rs, routes) && routes != []
    ensures |routes[|routes| - 1].hops| <= |rs|
    ensures IsGrouping(rs[..|rs| - |routes[|routes| - 1].hops|], routes[..|routes| - 1])
  {
    var x, front := routes[|routes| - 1], routes[..|routes| - 1];
    assert rs == Flatten(front) + TagAll(x.pid, x.hops);
    assert rs[..|rs| - |x.hops|] == Flatten(front);
    forall k | 0 < k < |front| ensures front[k - 1].pid != front[k].pid {
      assert routes[k - 1] == front[k - 1] && routes[k] == front[k];
    }
  }

  /** Two groupings of the same records end with the same route. */
  lemma SameLastRoute(rs: seq<Record>, a: seq<Route>, b: seq<Route>)
    requires IsGrouping(rs, a) && IsGrouping(rs, b) && a != [] && b != []
    ensures a[|a| - 1] == b[|b| - 1]
  {
    LastRun(rs, a);
    LastRun(rs, b);
    var x, y := a[|a| - 1], b[|b| - 1];
    assert x.pid == rs[|rs| - 1].pid == y.pid;
    FinalRunUnique(rs, |rs| - |x.hops|, |rs| - |y.hops|, x.pid);
    HopsOfTagAll(x.pid, x.hops);
    HopsOfTagAll(y.pid, y.hops);
  }

  /**
    A grouping is unique: the three properties of IsGrouping determine the routes,
    so the result of GroupRoutes is the only sequence of routes that has them.
  */
  lemma {:induction false} GroupingUnique(rs: seq<Record>, a: seq<Route>, b: seq<Route>)
    requires IsGrouping(rs, a) && IsGrouping(rs, b)
    ensures a == b
    decreases |rs|
  {
    if a == [] || b == [] {
      if a != [] { LastRun(rs, a); }
      if b != [] { LastRun(rs, b); }
    } else {
      SameLastRoute(rs, a, b);
      GroupingFront(rs, a);
      GroupingFront(rs, b);
      var m := |rs| - |a[|a| - 1].hops|;
      GroupingUnique(rs[..m], a[..|a| - 1], b[..|b| - 1]);
      assert a == a[..|a| - 1] + [a[|a| - 1]];
      assert b == b[..|b| - 1] + [b[|b| - 1]];
    }
  }

  /** Concatenating the hops of all routes gives the input records with the pid dropped. */
  lemma {:induction false} GroupedHops(routes: seq<Route>)
    ensures AllHops(routes) == Hops(Flatten(routes))
  {
    if routes != [] {
      var front, x := routes[..|routes| - 1], routes[|routes| - 1];
      GroupedHops(front);
      HopsAppend(Flatten(front), TagAll(x.pid, x.hops));
      HopsOfTagAll(x.pid, x.hops);
    }
  }

  lemma {:induction false} HopsAppend(a: seq<Record>, b: seq<Record>)
    ensures Hops(a + b) == Hops(a) + Hops(b)
    decreases |b|
  {
    if b != [] {
      var b' := b[..|b| - 1];
      assert (a + b)[..|a + b| - 1] == a + b';
      assert (a + b)[|a + b| - 1] == b[|b| - 1];
      HopsAppend(a, b');
    } else {
      assert a + b == a;
    }
  }

  lemma {:induction false} HopsOfTagAll(pid: nat, hops: seq<Hop>)
    ensures Hops(TagAll(pid, hops)) == hops
  {
    if hops != [] {
      var front := hops[..|hops| - 1];
      HopsOfTagAll(pid, front);
      assert TagAll(pid, hops)[..|hops| - 1] == TagAll(pid, front);
      assert hops == front + [hops[|hops| - 1]];
    }
  }
}

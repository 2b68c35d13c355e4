/** The collection query, batchDrained and the backlog probe over one snapshot of
    the outbox table.

    SelectSql follows the three pieces of the query (routes, picked, selected);
    SelectedIds says what it must select: every route's oldest rows, up to an even
    share of the batch target.
 */
module Selection {
  import opened Errors
  import opened Routing

  type RowId = nat

  // A committed snapshot of the outbox table.
  type Table = map<RowId, Row>

  // --- ORDER BY id LIMIT n ----------------------------------------------------------

  function Below(s: set<RowId>, id: RowId): set<RowId> {
    set j | j in s && j < id
  }

  // The rows ORDER BY id LIMIT n returns: those with fewer than n rows before them.
  function Oldest(s: set<RowId>, n: nat): set<RowId> {
    set i | i in s && |Below(s, i)| < n
  }

  lemma HasLargest(s: set<RowId>) returns (m: RowId)
    requires s != {}
    ensures m in s && forall i :: i in s ==> i <= m
  {
    var first :| first in s;
    if i :| i in s && i > first {
      assert i in s - {first} && s == (s - {first}) + {first};
      m := HasLargest(s - {first});
    } else {
      m := first;
    }
  }

  lemma {:induction false} OldestSize(s: set<RowId>, n: nat)
    ensures |Oldest(s, n)| == if |s| <= n then |s| else n
    ensures |s| <= n ==> Oldest(s, n) == s
    decreases |s|
  {
    if |s| <= n {
      forall i | i in s
        ensures |Below(s, i)| < n
      {
        SubsetSize(Below(s, i), s - {i});
      }
      assert Oldest(s, n) == s;
    } else {
      var m := HasLargest(s);
      var rest := s - {m};
      assert Below(s, m) == rest;
      forall i | i in rest
        ensures Below(s, i) == Below(rest, i)
      {
      }
      assert Oldest(s, n) == Oldest(rest, n);
      OldestSize(rest, n);
    }
  }

  lemma {:induction false} SubsetSize<T>(a: set<T>, b: set<T>)
    requires a <= b
    ensures |a| <= |b|
  {
    assert b == a + (b - a);
  }

  lemma OldestIsPrefix(s: set<RowId>, n: nat, i: RowId, j: RowId)
    requires i in Oldest(s, n) && j in s && j < i
    ensures j in Oldest(s, n)
  {
    SubsetSize(Below(s, j), Below(s, i));
  }

  // GREATEST(1, (target + routes - 1) / routes)
  function Share(target: int, routes: nat): (share: nat)
    requires routes > 0
    ensures share >= 1
    ensures target > 0 ==> share * routes <= target + routes - 1
    ensures share * routes >= target
  {
    var even := (target + routes - 1) / routes;
    assert target + routes - 1 == even * routes + (target + routes - 1) % routes;
    if even < 1 then
      assert even * routes <= 0;
      1
    else even
  }

  // --- what the query must select -----------------------------------------------------

  function RouteOf(cfg: Config, t: Table, id: RowId): Option<Route>
    requires id in t
  {
    Resolve(cfg, t[id])
  }

  function RoutableIds(cfg: Config, t: Table): set<RowId> {
    set i | i in t && RouteOf(cfg, t, i).Some?
  }

  function Routes(cfg: Config, t: Table): set<Route> {
    set i | i in RoutableIds(cfg, t) :: RouteOf(cfg, t, i).value
  }

  function Pending(cfg: Config, t: Table, route: Route): set<RowId> {
    set i | i in t && RouteOf(cfg, t, i) == Some(route)
  }

  function RouteShare(cfg: Config, t: Table, target: int): nat {
    if Routes(cfg, t) == {} then 1 else Share(target, |Routes(cfg, t)|)
  }

  function SelectedIds(cfg: Config, t: Table, target: int): set<RowId> {
    set i | i in RoutableIds(cfg, t) && i in Oldest(Pending(cfg, t, RouteOf(cfg, t, i).value), RouteShare(cfg, t, target))
  }

  // --- the query, piece by piece --------------------------------------------------------

  // A row of the selected CTE.
  datatype SelectedRow = SelectedRow(id: RowId, target: SqlValue, destination: SqlValue)

  function Bare(row: Row): Scope {
    Scope(row, None, None)
  }

  // SELECT DISTINCT <target>, <destination> FROM events WHERE <routable>
  function RoutesCte(cfg: Config, t: Table): set<(SqlValue, SqlValue)> {
    set i | i in t && IsRoutable(cfg, Bare(t[i])) ::
      (Value(TargetExpr(cfg), Bare(t[i])), Value(DestinationExpr(cfg, TargetExpr(cfg)), Bare(t[i])))
  }

  // The lateral sub-select of one routes row.
  function PickedIds(cfg: Config, t: Table, route: (SqlValue, SqlValue), limit: nat): set<RowId> {
    Oldest(Matching(cfg, t, route), limit)
  }

  function Matching(cfg: Config, t: Table, route: (SqlValue, SqlValue)): set<RowId> {
    set i | i in t && IsRoutable(cfg, Bare(t[i])) && Holds(RouteMatch(cfg), Scope(t[i], route.0, route.1)) == T
  }

  // routes CROSS JOIN LATERAL picked
  function SelectSql(cfg: Config, t: Table, target: int): set<SelectedRow> {
    var routes := RoutesCte(cfg, t);
    set r, i | r in routes && i in PickedIds(cfg, t, r, Share(target, |routes|)) :: SelectedRow(i, r.0, r.1)
  }

  lemma RoutesCteIsRoutes(cfg: Config, t: Table)
    requires ValidConfig(cfg)
    ensures RoutesCte(cfg, t) == set r | r in Routes(cfg, t) :: (Some(r.target), Some(r.destination))
    ensures |RoutesCte(cfg, t)| == |Routes(cfg, t)|
  {
    forall i | i in t {
      RoutableIffResolves(cfg, Bare(t[i]));
    }
    var pairs := set r | r in Routes(cfg, t) :: (Some(r.target), Some(r.destination));
    forall p | p in RoutesCte(cfg, t)
      ensures p in pairs
    {
      var i :| i in t && IsRoutable(cfg, Bare(t[i]))
            && p == (Value(TargetExpr(cfg), Bare(t[i])), Value(DestinationExpr(cfg, TargetExpr(cfg)), Bare(t[i])));
      assert RouteOf(cfg, t, i).value in Routes(cfg, t);
    }
    forall p | p in pairs
      ensures p in RoutesCte(cfg, t)
    {
      var r :| r in Routes(cfg, t) && p == (Some(r.target), Some(r.destination));
      var i :| i in RoutableIds(cfg, t) && RouteOf(cfg, t, i).value == r;
    }
    PairsSize(Routes(cfg, t));
  }

  lemma {:induction false} PairsSize(routes: set<Route>)
    ensures |(set r: Route | r in routes :: (Some(r.target), Some(r.destination)))| == |routes|
    decreases |routes|
  {
    if routes != {} {
      var r :| r in routes;
      PairsSize(routes - {r});
      var rest := set x: Route | x in routes - {r} :: (Some(x.target), Some(x.destination));
      assert (set x: Route | x in routes :: (Some(x.target), Some(x.destination))) == rest + {(Some(r.target), Some(r.destination))};
    }
  }

  lemma PickedIsOldestPending(cfg: Config, t: Table, route: Route, limit: nat)
    requires ValidConfig(cfg)
    ensures PickedIds(cfg, t, (Some(route.target), Some(route.destination)), limit) == Oldest(Pending(cfg, t, route), limit)
  {
    forall i | i in t
      ensures IsRoutable(cfg, Bare(t[i])) && Holds(RouteMatch(cfg), Scope(t[i], Some(route.target), Some(route.destination))) == T
         <==> RouteOf(cfg, t, i) == Some(route)
    {
      RoutableIffResolves(cfg, Bare(t[i]));
      if Resolve(cfg, t[i]).Some? {
        RouteMatchIffSameRoute(cfg, t[i], route);
      }
    }
    assert Matching(cfg, t, (Some(route.target), Some(route.destination))) == Pending(cfg, t, route);
  }

  /** The query selects exactly each route's oldest rows, each row once and labelled
      with the route the routing table gives it. */
  lemma SelectSqlIsSelection(cfg: Config, t: Table, target: int)
    requires ValidConfig(cfg)
    ensures SelectSql(cfg, t, target)
         == set i | i in SelectedIds(cfg, t, target) ::
              SelectedRow(i, Some(RouteOf(cfg, t, i).value.target), Some(RouteOf(cfg, t, i).value.destination))
  {
    RoutesCteIsRoutes(cfg, t);
    var wanted := set i | i in SelectedIds(cfg, t, target) ::
      SelectedRow(i, Some(RouteOf(cfg, t, i).value.target), Some(RouteOf(cfg, t, i).value.destination));
    var share := RouteShare(cfg, t, target);
    forall x | x in SelectSql(cfg, t, target)
      ensures x in wanted
    {
      var r, i :| r in RoutesCte(cfg, t) && i in PickedIds(cfg, t, r, Share(target, |RoutesCte(cfg, t)|)) && x == SelectedRow(i, r.0, r.1);
      var route :| route in Routes(cfg, t) && r == (Some(route.target), Some(route.destination));
      PickedIsOldestPending(cfg, t, route, share);
      assert i in SelectedIds(cfg, t, target);
    }
    forall x | x in wanted
      ensures x in SelectSql(cfg, t, target)
    {
      var i :| i in SelectedIds(cfg, t, target)
            && x == SelectedRow(i, Some(RouteOf(cfg, t, i).value.target), Some(RouteOf(cfg, t, i).value.destination));
      var route := RouteOf(cfg, t, i).value;
      assert route in Routes(cfg, t);
      PickedIsOldestPending(cfg, t, route, share);
      assert (x.target, x.destination) in RoutesCte(cfg, t);
    }
  }

  // --- fairness ---------------------------------------------------------------------------

  function SelectedOf(cfg: Config, t: Table, target: int, route: Route): set<RowId> {
    set i | i in SelectedIds(cfg, t, target) && RouteOf(cfg, t, i) == Some(route)
  }

  lemma SelectedOfIsOldest(cfg: Config, t: Table, target: int, route: Route)
    ensures SelectedOf(cfg, t, target, route) == Oldest(Pending(cfg, t, route), RouteShare(cfg, t, target))
  {
  }

  /** Every route with routable rows contributes its oldest min(pending, share) rows,
      hence at least one, however many rows other routes have. */
  lemma FairShare(cfg: Config, t: Table, target: int, route: Route)
    requires route in Routes(cfg, t)
    ensures var pending, share := Pending(cfg, t, route), Share(target, |Routes(cfg, t)|);
            && SelectedOf(cfg, t, target, route) <= pending
            && |SelectedOf(cfg, t, target, route)| == (if |pending| < share then |pending| else share)
            && |SelectedOf(cfg, t, target, route)| >= 1
            && forall i, j :: i in SelectedOf(cfg, t, target, route) && j in pending && j < i ==> j in SelectedOf(cfg, t, target, route)
  {
    var pending, share := Pending(cfg, t, route), RouteShare(cfg, t, target);
    SelectedOfIsOldest(cfg, t, target, route);
    OldestSize(pending, share);
    var i :| i in RoutableIds(cfg, t) && RouteOf(cfg, t, i).value == route;
    assert i in pending;
    forall i, j | i in Oldest(pending, share) && j in pending && j < i {
      OldestIsPrefix(pending, share, i, j);
    }
  }

  /** A selection is closed downwards within every route: no row is selected over an
      older row of its route. */
  lemma SelectionIsRoutePrefix(cfg: Config, t: Table, target: int, i: RowId, j: RowId)
    requires i in SelectedIds(cfg, t, target) && j in t && j < i
    requires RouteOf(cfg, t, j) == RouteOf(cfg, t, i)
    ensures j in SelectedIds(cfg, t, target)
  {
    OldestIsPrefix(Pending(cfg, t, RouteOf(cfg, t, i).value), RouteShare(cfg, t, target), i, j);
  }

  /** The whole selection never exceeds target + routes - 1 rows. */
  lemma SelectionBound(cfg: Config, t: Table, target: int)
    requires target > 0
    ensures Routes(cfg, t) == {} ==> SelectedIds(cfg, t, target) == {}
    ensures |SelectedIds(cfg, t, target)| <= if Routes(cfg, t) == {} then 0 else target + |Routes(cfg, t)| - 1
  {
    var routes := Routes(cfg, t);
    if i :| i in SelectedIds(cfg, t, target) {
      assert RouteOf(cfg, t, i).value in routes;
    }
    if routes != {} {
      var ids, share := SelectedIds(cfg, t, target), RouteShare(cfg, t, target);
      var names := map i | i in ids :: RouteOf(cfg, t, i).value;
      forall r | r in routes
        ensures |Labelled(names, ids, r)| <= share
      {
        RouteSize(cfg, t, target, r, Labelled(names, ids, r));
      }
      SizeByLabel(names, ids, routes, share);
      SharesProduct(RouteShare(cfg, t, target), |routes|);
    }
  }

  lemma RouteSize(cfg: Config, t: Table, target: int, route: Route, ids: set<RowId>)
    requires ids <= SelectedIds(cfg, t, target) && forall i :: i in ids ==> RouteOf(cfg, t, i) == Some(route)
    ensures |ids| <= RouteShare(cfg, t, target)
  {
    assert ids <= SelectedOf(cfg, t, target, route);
    SelectedOfIsOldest(cfg, t, target, route);
    OldestSize(Pending(cfg, t, route), RouteShare(cfg, t, target));
    SubsetSize(ids, SelectedOf(cfg, t, target, route));
  }

  // n shares, added up.
  function Shares(share: nat, n: nat): nat {
    if n == 0 then 0 else Shares(share, n - 1) + share
  }

  lemma AddShare(share: nat, n: nat, a: nat, b: nat)
    requires a <= Shares(share, n) && b <= share
    ensures a + b <= Shares(share, n + 1)
  {
  }

  lemma {:induction false} SharesProduct(share: nat, n: nat)
    ensures Shares(share, n) == share * n
  {
    if n > 0 {
      SharesProduct(share, n - 1);
    }
  }

  // The rows of `ids` that a labelling puts on one route.
  function Labelled(names: map<RowId, Route>, ids: set<RowId>, route: Route): set<RowId> {
    set i | i in ids && i in names && names[i] == route
  }

  lemma {:induction false} SizeByLabel(names: map<RowId, Route>, ids: set<RowId>, routes: set<Route>, share: nat)
    requires forall i :: i in ids ==> i in names && names[i] in routes
    requires forall r :: r in routes ==> |Labelled(names, ids, r)| <= share
    ensures |ids| <= Shares(share, |routes|)
    decreases |routes|
  {
    hide Shares;
    if routes != {} {
      var r :| r in routes;
      var mine := Labelled(names, ids, r);
      assert ids == (ids - mine) + mine;
      forall x | x in routes - {r}
        ensures |Labelled(names, ids - mine, x)| <= share
      {
        assert Labelled(names, ids - mine, x) == Labelled(names, ids, x);
      }
      SizeByLabel(names, ids - mine, routes - {r}, share);
      AddShare(share, |routes - {r}|, |ids - mine|, |mine|);
    } else {
      assert ids == {};
    }
  }

  // --- batchDrained ---------------------------------------------------------------------------

  // A selected event as batchDrained sees it.
  datatype Event = Event(id: RowId, route: Route)

  function RoutesSeen(events: seq<Event>): set<Route> {
    set e | e in events :: e.route
  }

  function CountOf(events: seq<Event>, route: Route): nat {
    if events == [] then 0
    else CountOf(events[..|events| - 1], route) + if events[|events| - 1].route == route then 1 else 0
  }

  predicate Drained(events: seq<Event>, target: int) {
    events == [] || forall r :: r in RoutesSeen(events) ==> CountOf(events, r) < Share(target, |RoutesSeen(events)|)
  }

  method BatchDrained(events: seq<Event>, target: int) returns (drained: bool)
    ensures drained == Drained(events, target)
  {
    if |events| == 0 {
      return true;
    }
    var perRoute := CountPerRoute(events);
    assert events[0].route in perRoute;
    assert |perRoute| == |perRoute.Keys|;
    var share := Share(target, |perRoute|);
    var left := perRoute.Keys;
    while left != {}
      invariant left <= perRoute.Keys
      invariant forall r :: r in perRoute.Keys - left ==> perRoute[r] < share
    {
      var r :| r in left;
      if perRoute[r] >= share {
        return false;
      }
      left := left - {r};
    }
    drained := true;
  }

  // The counting loop of batchDrained.
  method CountPerRoute(events: seq<Event>) returns (perRoute: map<Route, nat>)
    ensures perRoute.Keys == RoutesSeen(events)
    ensures forall r :: r in perRoute ==> perRoute[r] == CountOf(events, r)
  {
    perRoute := map[];
    for i := 0 to |events|
      invariant perRoute.Keys == RoutesSeen(events[..i])
      invariant forall r :: CountOf(events[..i], r) == if r in perRoute then perRoute[r] else 0
    {
      var route := events[i].route;
      CountOfAppend(events[..i], events[i]);
      assert events[..i + 1] == events[..i] + [events[i]];
      perRoute := perRoute[route := (if route in perRoute then perRoute[route] else 0) + 1];
    }
    assert events[..|events|] == events;
  }

  lemma CountOfAppend(events: seq<Event>, e: Event)
    ensures RoutesSeen(events + [e]) == RoutesSeen(events) + {e.route}
    ensures forall r :: CountOf(events + [e], r) == CountOf(events, r) + if e.route == r then 1 else 0
  {
    assert (events + [e])[..|events|] == events;
    assert forall x :: x in events + [e] <==> x in events || x == e;
  }

  // The events of a query result: one per selected row, with its route.
  ghost predicate IsSelection(cfg: Config, t: Table, ids: set<RowId>, events: seq<Event>) {
    && (forall i, j :: 0 <= i < j < |events| ==> events[i].id < events[j].id)
    && (forall e :: e in events ==> e.id in ids)
    && (forall i :: i in ids ==> i in t && RouteOf(cfg, t, i).Some? && Event(i, RouteOf(cfg, t, i).value) in events)
    && (forall e :: e in events ==> e.id in t && RouteOf(cfg, t, e.id) == Some(e.route))
  }

  function IdsOn(events: seq<Event>, route: Route): set<RowId> {
    set e | e in events && e.route == route :: e.id
  }

  lemma IdsOnAppend(events: seq<Event>, e: Event, route: Route)
    ensures IdsOn(events + [e], route) == IdsOn(events, route) + if e.route == route then {e.id} else {}
  {
    assert forall x :: x in events + [e] <==> x in events || x == e;
  }

  lemma {:induction false} CountIsSize(events: seq<Event>, route: Route)
    requires forall i, j :: 0 <= i < j < |events| ==> events[i].id < events[j].id
    ensures CountOf(events, route) == |IdsOn(events, route)|
  {
    if events == [] {
      assert IdsOn(events, route) == {};
    } else {
      var init, last := events[..|events| - 1], events[|events| - 1];
      CountIsSize(init, route);
      IdsOnAppend(init, last, route);
      assert events == init + [last];
      assert last.id !in IdsOn(init, route);
    }
  }

  lemma CountIsRouteSize(cfg: Config, t: Table, ids: set<RowId>, events: seq<Event>, route: Route)
    requires IsSelection(cfg, t, ids, events)
    ensures CountOf(events, route) == |(set i | i in ids && RouteOf(cfg, t, i) == Some(route))|
  {
    CountIsSize(events, route);
    var a := IdsOn(events, route);
    var b := set i | i in ids && RouteOf(cfg, t, i) == Some(route);
    forall i | i in b
      ensures i in a
    {
      assert Event(i, route) in events && Event(i, route).id == i;
    }
    assert a == b;
  }

  lemma RoutesSeenInSelection(cfg: Config, t: Table, target: int, events: seq<Event>)
    requires IsSelection(cfg, t, SelectedIds(cfg, t, target), events)
    ensures RoutesSeen(events) == Routes(cfg, t)
  {
    forall r | r in Routes(cfg, t)
      ensures r in RoutesSeen(events)
    {
      FairShare(cfg, t, target, r);
      var i :| i in SelectedOf(cfg, t, target, r);
      assert Event(i, r) in events;
    }
    forall r | r in RoutesSeen(events)
      ensures r in Routes(cfg, t)
    {
      var e :| e in events && e.route == r;
      assert e.id in RoutableIds(cfg, t);
    }
  }

  lemma CountIsContribution(cfg: Config, t: Table, target: int, events: seq<Event>, route: Route)
    requires IsSelection(cfg, t, SelectedIds(cfg, t, target), events) && route in Routes(cfg, t)
    ensures var pending, share := |Pending(cfg, t, route)|, RouteShare(cfg, t, target);
            CountOf(events, route) == if pending < share then pending else share
  {
    FairShare(cfg, t, target, route);
    CountIsRouteSize(cfg, t, SelectedIds(cfg, t, target), events, route);
  }

  /** From the selected rows alone batchDrained decides whether every route has fewer
      pending rows than its share, and if so every routable row was selected. */
  lemma DrainedIsExact(cfg: Config, t: Table, target: int, events: seq<Event>)
    requires IsSelection(cfg, t, SelectedIds(cfg, t, target), events)
    ensures Drained(events, target) <==> forall r :: r in Routes(cfg, t) ==> |Pending(cfg, t, r)| < RouteShare(cfg, t, target)
    ensures Drained(events, target) ==> SelectedIds(cfg, t, target) == RoutableIds(cfg, t)
  {
    var share := RouteShare(cfg, t, target);
    RoutesSeenInSelection(cfg, t, target, events);
    forall r | r in Routes(cfg, t) {
      CountIsContribution(cfg, t, target, events, r);
    }
    assert events == [] ==> Routes(cfg, t) == {};
    if Drained(events, target) {
      forall i | i in RoutableIds(cfg, t)
        ensures i in SelectedIds(cfg, t, target)
      {
        var r := RouteOf(cfg, t, i).value;
        assert r in Routes(cfg, t);
        assert |Pending(cfg, t, r)| < share;
        OldestSize(Pending(cfg, t, r), share);
      }
    }
  }

  function Without(t: Table, ids: set<RowId>): Table {
    map i | i in t && i !in ids :: t[i]
  }

  /** After a drained batch that finished `done` of its rows commits, with no insert in
      between, the events kept for retry are exactly the routable rows left. */
  lemma DrainedBacklogIsKept(cfg: Config, t: Table, target: int, events: seq<Event>, done: set<RowId>)
    requires IsSelection(cfg, t, SelectedIds(cfg, t, target), events)
    requires done <= SelectedIds(cfg, t, target)
    requires Drained(events, target)
    ensures RoutableIds(cfg, Without(t, done)) == SelectedIds(cfg, t, target) - done
    ensures |RoutableIds(cfg, Without(t, done))| == |SelectedIds(cfg, t, target)| - |done|
  {
    DrainedIsExact(cfg, t, target, events);
    var selected := SelectedIds(cfg, t, target);
    LeftRoutable(cfg, t, done);
    assert selected == (selected - done) + done;
  }

  // --- batchDrained beside another relay ----------------------------------------------------

  // Other relays may delete rows while this one waits for its locks; the statement then
  // returns the selected rows that remain. `gone` are the rows deleted meanwhile, selected
  // by this relay or not.

  // The routes a selection still shows.
  function Surviving(cfg: Config, t: Table, target: int, gone: set<RowId>): set<Route> {
    set r | r in Routes(cfg, t) && SelectedOf(cfg, t, target, r) - gone != {}
  }

  // Every surviving route falls below the share computed from the surviving routes.
  predicate LooksDrained(cfg: Config, t: Table, target: int, gone: set<RowId>) {
    forall r :: r in Surviving(cfg, t, target, gone) ==>
      |SelectedOf(cfg, t, target, r) - gone| < Share(target, |Surviving(cfg, t, target, gone)|)
  }

  // Some route had more pending rows than its share.
  predicate Truncated(cfg: Config, t: Table, target: int) {
    exists r :: r in Routes(cfg, t) && |Pending(cfg, t, r)| > RouteShare(cfg, t, target)
  }

  lemma OneMissed<T>(a: set<T>, b: set<T>) returns (x: T)
    requires |a| < |b|
    ensures x in b && x !in a
  {
    if b <= a {
      SubsetSize(b, a);
      assert false;
    }
    x :| x in b && x !in a;
  }

  lemma TruncatedIffIncomplete(cfg: Config, t: Table, target: int)
    ensures Truncated(cfg, t, target) <==> SelectedIds(cfg, t, target) != RoutableIds(cfg, t)
  {
    var share := RouteShare(cfg, t, target);
    if r :| r in Routes(cfg, t) && |Pending(cfg, t, r)| > share {
      SelectedOfIsOldest(cfg, t, target, r);
      OldestSize(Pending(cfg, t, r), share);
      var i := OneMissed(SelectedOf(cfg, t, target, r), Pending(cfg, t, r));
      assert i in RoutableIds(cfg, t) && i !in SelectedIds(cfg, t, target);
    } else {
      forall i | i in RoutableIds(cfg, t)
        ensures i in SelectedIds(cfg, t, target)
      {
        var r := RouteOf(cfg, t, i).value;
        assert r in Routes(cfg, t);
        OldestSize(Pending(cfg, t, r), share);
      }
    }
  }

  lemma CountAfterLoss(cfg: Config, t: Table, target: int, gone: set<RowId>, events: seq<Event>, route: Route)
    requires IsSelection(cfg, t, SelectedIds(cfg, t, target) - gone, events)
    ensures CountOf(events, route) == |SelectedOf(cfg, t, target, route) - gone|
  {
    var ids := SelectedIds(cfg, t, target) - gone;
    CountIsRouteSize(cfg, t, ids, events, route);
    assert (set i | i in ids && RouteOf(cfg, t, i) == Some(route)) == SelectedOf(cfg, t, target, route) - gone;
  }

  lemma RoutesSeenAfterLoss(cfg: Config, t: Table, target: int, gone: set<RowId>, events: seq<Event>)
    requires IsSelection(cfg, t, SelectedIds(cfg, t, target) - gone, events)
    ensures RoutesSeen(events) == Surviving(cfg, t, target, gone)
  {
    forall r | r in Surviving(cfg, t, target, gone)
      ensures r in RoutesSeen(events)
    {
      var i :| i in SelectedOf(cfg, t, target, r) - gone;
      assert Event(i, r) in events;
    }
    forall r | r in RoutesSeen(events)
      ensures r in Surviving(cfg, t, target, gone)
    {
      var e :| e in events && e.route == r;
      assert e.id in RoutableIds(cfg, t) && e.id in SelectedOf(cfg, t, target, r) - gone;
    }
  }

  // What batchDrained answers on what remains of a selection.
  lemma DrainedAfterLoss(cfg: Config, t: Table, target: int, gone: set<RowId>, events: seq<Event>)
    requires IsSelection(cfg, t, SelectedIds(cfg, t, target) - gone, events)
    ensures Drained(events, target) <==> LooksDrained(cfg, t, target, gone)
  {
    RoutesSeenAfterLoss(cfg, t, target, gone, events);
    forall r {
      CountAfterLoss(cfg, t, target, gone, events, r);
    }
    if events != [] {
      assert events[0].route in RoutesSeen(events);
    }
  }

  // Some route keeps rows that were not selected.
  predicate LeavesBehind(cfg: Config, t: Table, target: int, gone: set<RowId>) {
    exists r :: r in Routes(cfg, t) && |Pending(cfg, t, r) - gone| > |SelectedOf(cfg, t, target, r) - gone|
  }

  lemma LeavesBehindIff(cfg: Config, t: Table, target: int, gone: set<RowId>)
    ensures LeavesBehind(cfg, t, target, gone) <==> RoutableIds(cfg, t) - gone != SelectedIds(cfg, t, target) - gone
  {
    if r :| r in Routes(cfg, t) && |Pending(cfg, t, r) - gone| > |SelectedOf(cfg, t, target, r) - gone| {
      var i := OneMissed(SelectedOf(cfg, t, target, r) - gone, Pending(cfg, t, r) - gone);
      assert i in RoutableIds(cfg, t) - gone && i !in SelectedIds(cfg, t, target) - gone;
    } else {
      forall i | i in RoutableIds(cfg, t) - gone
        ensures i in SelectedIds(cfg, t, target)
      {
        var r := RouteOf(cfg, t, i).value;
        assert r in Routes(cfg, t) && i in Pending(cfg, t, r) - gone;
        AllThere(SelectedOf(cfg, t, target, r) - gone, Pending(cfg, t, r) - gone);
      }
    }
  }

  lemma AllThere<T>(a: set<T>, b: set<T>)
    requires a <= b && |b| <= |a|
    ensures a == b
  {
    assert b == a + (b - a);
  }

  /** With the rows `gone` deleted by other relays during the lock wait, batchDrained says
      "drained" although routable rows were left out exactly when some route keeps more
      rows than were selected of it and every surviving route falls below the share
      recomputed from the surviving routes. */
  lemma DrainedWrongIff(cfg: Config, t: Table, target: int, gone: set<RowId>, events: seq<Event>)
    requires IsSelection(cfg, t, SelectedIds(cfg, t, target) - gone, events)
    ensures Drained(events, target) && RoutableIds(cfg, Without(t, gone)) != SelectedIds(cfg, t, target) - gone
       <==> LeavesBehind(cfg, t, target, gone) && LooksDrained(cfg, t, target, gone)
  {
    DrainedAfterLoss(cfg, t, target, gone, events);
    LeftRoutable(cfg, t, gone);
    LeavesBehindIff(cfg, t, target, gone);
  }

  lemma LeftRoutable(cfg: Config, t: Table, gone: set<RowId>)
    ensures RoutableIds(cfg, Without(t, gone)) == RoutableIds(cfg, t) - gone
  {
  }

  lemma ThreeRows(cfg: Config, t: Table, route: Route)
    requires t.Keys == {0, 1, 2} && forall i :: i in t ==> RouteOf(cfg, t, i) == Some(route)
    ensures RoutableIds(cfg, t) == {0, 1, 2} && SelectedIds(cfg, t, 2) == {0, 1}
  {
    assert 0 in RoutableIds(cfg, t) && Routes(cfg, t) == {route};
    assert Pending(cfg, t, route) == {0, 1, 2};
    assert Below({0, 1, 2}, 0) == {} && Below({0, 1, 2}, 1) == {0} && Below({0, 1, 2}, 2) == {0, 1};
  }

  /** A concrete case: of three rows of one route two are selected, another relay deletes
      one of those, and the remaining single row looks like a drained batch. */
  lemma LossLooksDrained() returns (cfg: Config, t: Table, gone: set<RowId>, events: seq<Event>)
    ensures ValidConfig(cfg) && t.Keys == {0, 1, 2} && gone == {0} && |events| == 1
    ensures gone <= SelectedIds(cfg, t, 2) && IsSelection(cfg, t, SelectedIds(cfg, t, 2) - gone, events)
    ensures Drained(events, 2) && 2 in RoutableIds(cfg, Without(t, gone)) - SelectedIds(cfg, t, 2)
    ensures RoutableIds(cfg, t) == {0, 1, 2}
  {
    cfg := Config("", "", [ProviderRoute("sqs", "q", [])]);
    var row := Row(map[]);
    t := map[0 := row, 1 := row, 2 := row];
    var route := Route("sqs", "q");
    assert forall i :: i in t ==> RouteOf(cfg, t, i) == Some(route);
    ThreeRows(cfg, t, route);
    gone, events := {0}, [Event(1, route)];
    assert {0, 1} - gone == {1};
    LoneSelection(cfg, t, 1, route);
    LoneEventDrained(Event(1, route));
  }

  /** Being over its share when the snapshot was taken is not enough: of two rows on one
      route this relay selects one, another relay has collected and deletes both, and the
      row of the other route that remains is rightly called drained. */
  lemma FullLossIsHarmless() returns (cfg: Config, t: Table, gone: set<RowId>, events: seq<Event>)
    ensures ValidConfig(cfg) && t.Keys == {0, 1, 2} && gone == {0, 1} && SelectedIds(cfg, t, 2) == {0, 2}
    ensures SelectedIds(cfg, Without(t, {2}), 2) == gone
    ensures IsSelection(cfg, t, SelectedIds(cfg, t, 2) - gone, events) && Drained(events, 2)
    ensures Truncated(cfg, t, 2) && RoutableIds(cfg, Without(t, gone)) == SelectedIds(cfg, t, 2) - gone == {2}
  {
    cfg, t := TwoDestinations();
    var onA, onB := Route("sqs", "a"), Route("sqs", "b");
    TwoRoutes(cfg, t, onA, onB);
    gone, events := {0, 1}, [Event(2, onB)];
    assert {0, 2} - gone == {2};
    LoneSelection(cfg, t, 2, onB);
    LoneEventDrained(Event(2, onB));
    LeftRoutable(cfg, t, gone);
    assert {0, 1, 2} - gone == {2};
    EarlierSelection(cfg, Without(t, {2}), onA);
  }

  lemma TwoDestinations() returns (cfg: Config, t: Table)
    ensures ValidConfig(cfg) && t.Keys == {0, 1, 2}
    ensures RouteOf(cfg, t, 0) == RouteOf(cfg, t, 1) == Some(Route("sqs", "a")) && RouteOf(cfg, t, 2) == Some(Route("sqs", "b"))
  {
    cfg := Config("", "d", [ProviderRoute("sqs", "", [])]);
    var a, b := Row(map["d" := Some("a")]), Row(map["d" := Some("b")]);
    t := map[0 := a, 1 := a, 2 := b];
  }

  lemma LoneSelection(cfg: Config, t: Table, id: RowId, route: Route)
    requires id in t && RouteOf(cfg, t, id) == Some(route)
    ensures IsSelection(cfg, t, {id}, [Event(id, route)])
  {
    assert [Event(id, route)][0] == Event(id, route);
  }

  // A single event is below the share of a single route.
  lemma LoneEventDrained(e: Event)
    ensures Drained([e], 2)
  {
    assert RoutesSeen([e]) == {e.route} && CountOf([e], e.route) == 1;
  }

  lemma TwoRoutes(cfg: Config, t: Table, a: Route, b: Route)
    requires t.Keys == {0, 1, 2} && a != b
    requires RouteOf(cfg, t, 0) == RouteOf(cfg, t, 1) == Some(a) && RouteOf(cfg, t, 2) == Some(b)
    ensures RoutableIds(cfg, t) == {0, 1, 2} && SelectedIds(cfg, t, 2) == {0, 2} && Truncated(cfg, t, 2)
  {
    TwoRoutesPending(cfg, t, a, b);
    OldestOfFew();
    assert |{a, b}| == 2;
    assert RouteShare(cfg, t, 2) == 1;
    assert a in Routes(cfg, t) && |Pending(cfg, t, a)| > RouteShare(cfg, t, 2);
  }

  lemma TwoRoutesPending(cfg: Config, t: Table, a: Route, b: Route)
    requires t.Keys == {0, 1, 2} && a != b
    requires RouteOf(cfg, t, 0) == RouteOf(cfg, t, 1) == Some(a) && RouteOf(cfg, t, 2) == Some(b)
    ensures RoutableIds(cfg, t) == {0, 1, 2} && Routes(cfg, t) == {a, b}
    ensures Pending(cfg, t, a) == {0, 1} && Pending(cfg, t, b) == {2}
  {
    assert forall i :: i in t.Keys <==> i == 0 || i == 1 || i == 2;
    AllRoutable(cfg, t);
    PendingOf(cfg, t, a, {0, 1});
    PendingOf(cfg, t, b, {2});
    RoutesAre(cfg, t, 0, 2);
  }

  lemma RoutesAre(cfg: Config, t: Table, i: RowId, j: RowId)
    requires i in RoutableIds(cfg, t) && j in RoutableIds(cfg, t)
    requires forall k :: k in RoutableIds(cfg, t) ==> RouteOf(cfg, t, k) in {RouteOf(cfg, t, i), RouteOf(cfg, t, j)}
    ensures Routes(cfg, t) == {RouteOf(cfg, t, i).value, RouteOf(cfg, t, j).value}
  {
  }

  lemma AllRoutable(cfg: Config, t: Table)
    requires forall i :: i in t.Keys ==> RouteOf(cfg, t, i).Some?
    ensures RoutableIds(cfg, t) == t.Keys
  {
  }

  lemma PendingOf(cfg: Config, t: Table, route: Route, ids: set<RowId>)
    requires ids <= t.Keys && forall i :: i in t.Keys ==> (i in ids <==> RouteOf(cfg, t, i) == Some(route))
    ensures Pending(cfg, t, route) == ids
  {
  }

  lemma OldestOfFew()
    ensures Oldest({0, 1}, 1) == {0} && Oldest({2}, 1) == {2}
  {
    assert Below({0, 1}, 0) == {} && Below({0, 1}, 1) == {0};
    OldestSize({2}, 1);
  }

  lemma EarlierSelection(cfg: Config, t: Table, route: Route)
    requires t.Keys == {0, 1} && RouteOf(cfg, t, 0) == RouteOf(cfg, t, 1) == Some(route)
    ensures SelectedIds(cfg, t, 2) == {0, 1}
  {
    assert 0 in RoutableIds(cfg, t) && Routes(cfg, t) == {route};
    assert Pending(cfg, t, route) == {0, 1};
    assert Below({0, 1}, 0) == {} && Below({0, 1}, 1) == {0};
  }

  // --- the backlog probe ------------------------------------------------------------------------

  // backlogCountSQL over the oldest `limit` rows, and whether the scan hit the limit.
  function CountBacklog(cfg: Config, t: Table, limit: nat): (nat, bool) {
    (|Counted(cfg, t, limit)|, |Oldest(t.Keys, limit)| >= limit)
  }

  function Counted(cfg: Config, t: Table, limit: nat): set<RowId> {
    set i | i in Oldest(t.Keys, limit) && IsRoutable(cfg, Bare(t[i]))
  }

  // The rows a probe looks at: as many as the limit allows, and none over an older one.
  predicate IsScan(t: Table, limit: nat, scanned: set<RowId>) {
    && scanned <= t.Keys && |scanned| == (if |t.Keys| < limit then |t.Keys| else limit)
    && forall i, j | i in scanned && j in t.Keys && j < i :: j in scanned
  }

  /** A probe counts the routable rows among the oldest ones of the table, as many as its
      limit; an uncapped one is exact and a capped one is a lower bound. */
  lemma ProbeIsExactUnlessCapped(cfg: Config, t: Table, limit: nat)
    requires ValidConfig(cfg)
    ensures IsScan(t, limit, Oldest(t.Keys, limit))
    ensures CountBacklog(cfg, t, limit).0 == |Oldest(t.Keys, limit) * RoutableIds(cfg, t)|
    ensures CountBacklog(cfg, t, limit).0 <= |RoutableIds(cfg, t)|
    ensures !CountBacklog(cfg, t, limit).1 ==> CountBacklog(cfg, t, limit).0 == |RoutableIds(cfg, t)|
    ensures CountBacklog(cfg, t, limit).1 <==> |t.Keys| >= limit
  {
    var scanned := Oldest(t.Keys, limit);
    OldestSize(t.Keys, limit);
    var counted := Counted(cfg, t, limit);
    forall i | i in scanned
      ensures i in counted <==> i in RoutableIds(cfg, t)
    {
      RoutableIffResolves(cfg, Bare(t[i]));
    }
    assert counted == scanned * RoutableIds(cfg, t);
    forall i, j | i in scanned && j in t.Keys && j < i {
      OldestIsPrefix(t.Keys, limit, i, j);
    }
    SubsetSize(counted, RoutableIds(cfg, t));
    if |t.Keys| < limit {
      assert counted == RoutableIds(cfg, t);
    }
  }

  // --- progress of a healthy route ------------------------------------------------------------------

  // Everything selected for `route` has left, nothing was inserted for it, and the rows of
  // other routes changed in any way.
  ghost predicate HealthyCommit(cfg: Config, before: Table, after: Table, target: int, route: Route) {
    Pending(cfg, after, route) == Pending(cfg, before, route) - SelectedIds(cfg, before, target)
  }

  // A committed batch serves the route its whole share.
  lemma HealthyCommitShrinks(cfg: Config, before: Table, after: Table, target: int, route: Route)
    requires HealthyCommit(cfg, before, after, target, route)
    ensures |Pending(cfg, after, route)| == 0
         || |Pending(cfg, after, route)| + RouteShare(cfg, before, target) == |Pending(cfg, before, route)|
    ensures RouteShare(cfg, before, target) >= 1
  {
    var pending, share := Pending(cfg, before, route), RouteShare(cfg, before, target);
    var picked := SelectedOf(cfg, before, target, route);
    SelectedOfIsOldest(cfg, before, target, route);
    OldestSize(pending, share);
    assert Pending(cfg, after, route) == pending - picked;
    PickedSize(pending, picked, share);
  }

  lemma PickedSize(pending: set<RowId>, picked: set<RowId>, share: nat)
    requires picked <= pending && |picked| == if |pending| <= share then |pending| else share
    ensures |pending - picked| == 0 || |pending - picked| + share == |pending|
  {
    assert pending == (pending - picked) + picked;
  }
}

/** A healthy route is emptied by its own committed batches, whatever the providers do to
    every other route and however many rows those routes accumulate.
 */
module RouteProgress {
  import opened Processor
  import opened BatchLoop
  import Routing
  import Selection

  // One batch: what happens in it, and the selected rows another relay deleted during
  // the lock wait.
  datatype Turn = Turn(w: World, lost: set<Selection.RowId>)

  // Every event the batch took from this route is confirmed or poison.
  predicate RouteSettled(cfg: Settings, w: World, route: Routing.Route) {
    forall e | e in w.events && e.route == route :: OutcomeOf(cfg, w, Everyone(w), e) != Kept
  }

  ghost predicate SelectsFrom(cfg: Settings, routing: Routing.Config, t: Selection.Table, turn: Turn) {
    && turn.lost <= Selection.SelectedIds(routing, t, cfg.target)
    && Selection.IsSelection(routing, t, Selection.SelectedIds(routing, t, cfg.target) - turn.lost, Brief(turn.w.events))
  }

  // The rows the turn takes from the table.
  function Taken(cfg: Settings, turn: Turn): set<Selection.RowId> {
    turn.lost + Finished(cfg, turn.w)
  }

  /** A committed batch that settles everything it took from a route removes exactly that
      route's selected rows, whatever the outcomes of the other routes are. */
  lemma SettledRouteCommits(cfg: Settings, routing: Routing.Config, t: Selection.Table, turn: Turn, route: Routing.Route)
    requires SelectsFrom(cfg, routing, t, turn) && RouteSettled(cfg, turn.w, route)
    ensures Selection.HealthyCommit(routing, t, Selection.Without(t, Taken(cfg, turn)), cfg.target, route)
  {
    var selected := Selection.SelectedIds(routing, t, cfg.target);
    forall i | i in Selection.Pending(routing, t, route)
      ensures i in Taken(cfg, turn) <==> i in selected
    {
      if i in selected - turn.lost {
        SelectedIsSettled(cfg, routing, t, turn, route, i);
      }
      if i in Finished(cfg, turn.w) {
        FinishedIsSelected(cfg, routing, t, turn, i);
      }
    }
  }

  lemma SelectedIsSettled(
    cfg: Settings, routing: Routing.Config, t: Selection.Table, turn: Turn, route: Routing.Route, i: Selection.RowId)
    requires SelectsFrom(cfg, routing, t, turn) && RouteSettled(cfg, turn.w, route)
    requires i in Selection.Pending(routing, t, route) && i in Selection.SelectedIds(routing, t, cfg.target) - turn.lost
    ensures i in Finished(cfg, turn.w)
  {
    var events := turn.w.events;
    assert Selection.Event(i, route) in Brief(events);
    var k :| 0 <= k < |events| && Brief(events)[k] == Selection.Event(i, route);
    assert events[k] in events && events[k].id == i && events[k].route == route;
  }

  lemma FinishedIsSelected(cfg: Settings, routing: Routing.Config, t: Selection.Table, turn: Turn, i: Selection.RowId)
    requires SelectsFrom(cfg, routing, t, turn) && i in Finished(cfg, turn.w)
    ensures i in Selection.SelectedIds(routing, t, cfg.target)
  {
    var events := turn.w.events;
    var e :| e in events && e.id == i;
    var k :| 0 <= k < |events| && events[k] == e;
    assert Brief(events)[k] in Brief(events);
  }

  // From one table to the next: a batch that takes effect settles the route; nothing is
  // inserted for the route, and rows of other routes come and go freely.
  ghost predicate TurnOf(
    cfg: Settings, routing: Routing.Config, before: Selection.Table, turn: Turn, after: Selection.Table, route: Routing.Route) {
    if Applied(cfg, turn.w) then
      && SelectsFrom(cfg, routing, before, turn) && RouteSettled(cfg, turn.w, route)
      && Selection.Pending(routing, after, route)
         <= Selection.Pending(routing, Selection.Without(before, Taken(cfg, turn)), route)
    else Selection.Pending(routing, after, route) <= Selection.Pending(routing, before, route)
  }

  ghost predicate HealthyRun(
    cfg: Settings, routing: Routing.Config, tables: seq<Selection.Table>, turns: seq<Turn>, route: Routing.Route) {
    && |tables| == |turns| + 1
    && forall k: nat :: k < |turns| ==> TurnAt(cfg, routing, tables, turns, route, k)
  }

  ghost predicate TurnAt(
    cfg: Settings, routing: Routing.Config, tables: seq<Selection.Table>, turns: seq<Turn>, route: Routing.Route, k: nat)
    requires k < |turns| && |tables| == |turns| + 1
  {
    TurnOf(cfg, routing, tables[k], turns[k], tables[k + 1], route)
  }

  function Committed(cfg: Settings, turns: seq<Turn>): nat {
    if turns == [] then 0
    else Committed(cfg, turns[..|turns| - 1]) + if Applied(cfg, turns[|turns| - 1].w) then 1 else 0
  }

  function PendingCount(routing: Routing.Config, t: Selection.Table, route: Routing.Route): nat {
    |Selection.Pending(routing, t, route)|
  }

  // How many of its rows a turn serves a route: its share of the batch, if it commits.
  function Served(cfg: Settings, routing: Routing.Config, before: Selection.Table, turn: Turn): nat {
    if Applied(cfg, turn.w) then Selection.RouteShare(routing, before, cfg.target) else 0
  }

  /** Every committed batch that settles a route's events takes its whole share off the
      route's pending rows, or all that is left of them. */
  lemma TurnServesShare(
    cfg: Settings, routing: Routing.Config, before: Selection.Table, turn: Turn, after: Selection.Table, route: Routing.Route)
    requires TurnOf(cfg, routing, before, turn, after, route)
    ensures PendingCount(routing, after, route) == 0
         || PendingCount(routing, after, route) + Served(cfg, routing, before, turn) <= PendingCount(routing, before, route)
  {
    if Applied(cfg, turn.w) {
      var left := Selection.Without(before, Taken(cfg, turn));
      SettledRouteCommits(cfg, routing, before, turn, route);
      Selection.HealthyCommitShrinks(routing, before, left, cfg.target, route);
      Selection.SubsetSize(Selection.Pending(routing, after, route), Selection.Pending(routing, left, route));
    } else {
      Selection.SubsetSize(Selection.Pending(routing, after, route), Selection.Pending(routing, before, route));
    }
  }

  function TotalServed(cfg: Settings, routing: Routing.Config, tables: seq<Selection.Table>, turns: seq<Turn>): nat
    requires |tables| >= |turns|
  {
    if turns == [] then 0
    else
      var n := |turns| - 1;
      TotalServed(cfg, routing, tables[..n], turns[..n]) + Served(cfg, routing, tables[n], turns[n])
  }

  lemma {:induction false} Countdown(
    cfg: Settings, routing: Routing.Config, tables: seq<Selection.Table>, turns: seq<Turn>, route: Routing.Route)
    requires HealthyRun(cfg, routing, tables, turns, route)
    ensures var left := PendingCount(routing, tables[|turns|], route);
            left == 0 || left + TotalServed(cfg, routing, tables, turns) <= PendingCount(routing, tables[0], route)
  {
    if turns != [] {
      var n := |turns| - 1;
      var firstTables, firstTurns := tables[..n + 1], turns[..n];
      forall k: nat | k < n
        ensures TurnAt(cfg, routing, firstTables, firstTurns, route, k)
      {
        assert TurnAt(cfg, routing, tables, turns, route, k);
      }
      Countdown(cfg, routing, firstTables, firstTurns, route);
      ServedPrefix(cfg, routing, tables, firstTables, firstTurns);
      assert TurnAt(cfg, routing, tables, turns, route, n);
      TurnServesShare(cfg, routing, tables[n], turns[n], tables[n + 1], route);
    }
  }

  // Only the tables the turns start from matter.
  lemma ServedPrefix(
    cfg: Settings, routing: Routing.Config, tables: seq<Selection.Table>, first: seq<Selection.Table>, turns: seq<Turn>)
    requires |turns| <= |first| <= |tables| && first == tables[..|first|]
    ensures TotalServed(cfg, routing, first, turns) == TotalServed(cfg, routing, tables[..|turns|], turns)
  {
    if turns != [] {
      var n := |turns| - 1;
      assert first[..n] == tables[..|turns|][..n] && first[n] == tables[..|turns|][n];
    }
  }

  lemma {:induction false} ServedAtLeastCommitted(
    cfg: Settings, routing: Routing.Config, tables: seq<Selection.Table>, turns: seq<Turn>)
    requires |tables| >= |turns|
    ensures TotalServed(cfg, routing, tables, turns) >= Committed(cfg, turns)
  {
    if turns != [] {
      var n := |turns| - 1;
      ServedAtLeastCommitted(cfg, routing, tables[..n], turns[..n]);
    }
  }

  /** A route is empty as soon as the shares of its committed batches add up to the rows it
      had pending, hence after at most that many committed batches: rolled-back batches in
      between, the outcomes of every other route, and their inserts make no difference. */
  lemma HealthyRouteEmpties(
    cfg: Settings, routing: Routing.Config, tables: seq<Selection.Table>, turns: seq<Turn>, route: Routing.Route)
    requires HealthyRun(cfg, routing, tables, turns, route)
    ensures TotalServed(cfg, routing, tables, turns) >= PendingCount(routing, tables[0], route)
            ==> Selection.Pending(routing, tables[|turns|], route) == {}
    ensures Committed(cfg, turns) >= PendingCount(routing, tables[0], route)
            ==> Selection.Pending(routing, tables[|turns|], route) == {}
  {
    Countdown(cfg, routing, tables, turns, route);
    ServedAtLeastCommitted(cfg, routing, tables, turns);
  }
}

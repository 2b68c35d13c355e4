/** When ordering groups keep their order: a maximum age, and a provider that settles
    entries it was not asked about, are exactly what can let a later row of a group be
    accepted first.
 */
module RelayOrdering {
  import opened Errors
  import opened Routing
  import opened Selection
  import opened RelaySystem

  // A selection with room for the whole table takes the whole table.
  lemma SelectsAll(cfg: Config, t: Table, target: int, route: Route)
    requires t != map[] && target >= |t.Keys|
    requires forall i :: i in t ==> RouteOf(cfg, t, i) == Some(route)
    ensures SelectedIds(cfg, t, target) == t.Keys
  {
    var i :| i in t;
    assert i in RoutableIds(cfg, t);
    assert Routes(cfg, t) == {route};
    assert Pending(cfg, t, route) == t.Keys;
    OldestSize(t.Keys, Share(target, 1));
  }

  lemma TimePasses(cfg: Settings, s: State, n: nat)
    requires Reachable(cfg, s)
    ensures Reachable(cfg, s.(clock := s.clock + n))
  {
    if n > 0 {
      TimePasses(cfg, s, n - 1);
      ReachStep(cfg, s.(clock := s.clock + (n - 1)), Tick);
    } else {
      assert s.(clock := s.clock + 0) == s;
    }
  }

  // The single steps of a relay that is alone, on explicit states.

  lemma Inserts(cfg: Settings, s: State, t: State, id: RowId, m: Message)
    requires Reachable(cfg, s) && forall i :: i in s.history ==> i < id
    requires t == s.(history := s.history[id := m], table := s.table + {id})
    ensures Reachable(cfg, t)
  {
    ReachStep(cfg, s, Insert(id, m));
  }

  lemma Restarts(cfg: Settings, s: State, t: State)
    requires Reachable(cfg, s) && |s.relays| == 1 && t == s.(relays := [FRESH])
    ensures Reachable(cfg, t)
  {
    ReachStep(cfg, s, Restart(0));
    assert Apply(cfg, s, Restart(0)).relays == t.relays;
  }

  lemma Accepts(cfg: Settings, s: State, t: State, i: RowId)
    requires Reachable(cfg, s) && i in s.attempted && i in s.history && s.history[i].fate == Sendable
    requires t == s.(log := s.log + [i])
    ensures Reachable(cfg, t)
  {
    ReachStep(cfg, s, Accept(i));
  }

  lemma Selects(cfg: Settings, s: State, t: State, route: Route)
    requires Reachable(cfg, s) && s.relays == [FRESH] && s.table != {} && s.table <= s.history.Keys
    requires forall i :: i in s.table ==> RouteAt(cfg, s, i) == Some(route)
    requires t == s.(relays := [Relay(Locking(s.table), {}, true, false)])
    ensures Reachable(cfg, t)
  {
    assert Snapshot(s).Keys == s.table;
    SelectsAll(cfg.routing, Snapshot(s), |s.table|, route);
    ReachStep(cfg, s, Select(0, |s.table|));
    assert Apply(cfg, s, Select(0, |s.table|)).relays == t.relays;
  }

  lemma Locks(cfg: Settings, s: State, t: State, todo: set<RowId>, held: set<RowId>)
    requires Reachable(cfg, s) && s.relays == [Relay(Locking(todo), held, true, false)] && todo != {} && todo <= s.table
    requires t == s.(relays := [Relay(Locking(todo - {Least(todo)}), held + {Least(todo)}, true, false)])
    ensures Reachable(cfg, t)
  {
    ReachStep(cfg, s, Lock(0));
    assert Apply(cfg, s, Lock(0)).relays == t.relays;
  }

  lemma Triages(cfg: Settings, s: State, t: State, held: set<RowId>, condemned: set<RowId>)
    requires Reachable(cfg, s) && s.relays == [Relay(Locking({}), held, true, false)]
    requires condemned <= held && held <= s.history.Keys
    requires forall i :: i in held ==> (i in condemned <==> CondemnedByTriage(cfg, s.history[i], s.clock))
    requires t == s.(relays := [Relay(Sending(Batch(held, condemned, {}, {}, {}, {})), held, true, false)])
    ensures Reachable(cfg, t)
  {
    assert condemned == CondemnedRows(cfg, s, held);
    ReachStep(cfg, s, Triage(0));
    assert Apply(cfg, s, Triage(0)).relays == t.relays;
  }

  lemma AttemptsFirst(cfg: Settings, s: State, t: State, rows: set<RowId>, condemned: set<RowId>, i: RowId)
    requires Reachable(cfg, s) && s.relays == [Relay(Sending(Batch(rows, condemned, {}, {}, {}, {})), rows, true, false)]
    requires i in s.history && s.history[i].fate == Sendable
    requires rows - condemned == {i}
    requires t == s.(relays := [Relay(Sending(Batch(rows, condemned, {i}, {}, {}, {})), rows, true, false)], attempted := s.attempted + {i})
    ensures Reachable(cfg, t)
  {
    assert {} + {i} == {i};
    ReachStep(cfg, s, Attempt(0, i));
    assert Apply(cfg, s, Attempt(0, i)).relays == t.relays;
  }

  lemma LocksAll(cfg: Settings, s: State, todo: set<RowId>, held: set<RowId>)
    requires Reachable(cfg, s) && s.relays == [Relay(Locking(todo), held, true, false)] && todo <= s.table
    ensures Reachable(cfg, s.(relays := [Relay(Locking({}), held + todo, true, false)]))
    decreases |todo|
  {
    if todo == {} {
      assert held + todo == held;
      assert s == s.(relays := [Relay(Locking({}), held + todo, true, false)]);
    } else {
      var m := Least(todo);
      var t := s.(relays := [Relay(Locking(todo - {m}), held + {m}, true, false)]);
      Locks(cfg, s, t, todo, held);
      LocksAll(cfg, t, todo - {m}, held + {m});
      assert (held + {m}) + (todo - {m}) == held + todo;
    }
  }

  // From an idle relay to the point where its whole table is in flight.
  lemma CollectsAll(cfg: Settings, s: State, t: State, route: Route, condemned: set<RowId>)
    requires Reachable(cfg, s) && s.relays == [FRESH] && s.table != {} && s.table <= s.history.Keys
    requires forall i :: i in s.table ==> RouteAt(cfg, s, i) == Some(route)
    requires condemned <= s.table
    requires forall i :: i in s.table ==> (i in condemned <==> CondemnedByTriage(cfg, s.history[i], s.clock))
    requires t == s.(relays := [Relay(Sending(Batch(s.table, condemned, {}, {}, {}, {})), s.table, true, false)])
    ensures Reachable(cfg, t)
  {
    var locking := s.(relays := [Relay(Locking(s.table), {}, true, false)]);
    Selects(cfg, s, locking, route);
    LocksAll(cfg, locking, s.table, {});
    assert {} + s.table == s.table;
    Triages(cfg, s.(relays := [Relay(Locking({}), s.table, true, false)]), t, s.table, condemned);
  }

  const KEY := "k"

  function Older(row: Row): Message { Message(row, false, KEY, Sendable, Some(0)) }
  function Newer(row: Row): Message { Message(row, false, KEY, Sendable, None) }

  // Row 0 is handed to a provider, the relay crashes before learning the outcome, and
  // the row outlives the maximum age.
  function Outlived(cfg: Settings, row: Row): State {
    State(map[0 := Older(row)], {0}, map[], [], {0}, [], cfg.maxAge + 1, [FRESH])
  }

  lemma OutlivedReachable(cfg: Settings, row: Row)
    requires Resolve(cfg.routing, row).Some?
    ensures Reachable(cfg, Outlived(cfg, row))
  {
    var s0 := Initial(1);
    assert ReachableIn(cfg, 1, [], s0);
    var s1 := State(map[0 := Older(row)], {0}, map[], [], {}, [], 0, [FRESH]);
    assert {} + {0} == {0};
    Inserts(cfg, s0, s1, 0, Older(row));
    var s2 := s1.(relays := [Relay(Sending(Batch({0}, {}, {}, {}, {}, {})), {0}, true, false)]);
    CollectsAll(cfg, s1, s2, Resolve(cfg.routing, row).value, {});
    var s3 := s2.(relays := [Relay(Sending(Batch({0}, {}, {0}, {}, {}, {})), {0}, true, false)], attempted := {} + {0});
    AttemptsFirst(cfg, s2, s3, {0}, {}, 0);
    var s4 := s1.(attempted := {} + {0});
    Restarts(cfg, s3, s4);
    TimePasses(cfg, s4, cfg.maxAge + 1);
    assert s4.(clock := s4.clock + (cfg.maxAge + 1)) == Outlived(cfg, row);
  }

  // Row 1 of the same group is then collected together with row 0; triage condemns
  // row 0, row 1 goes out, and both are accepted, row 1 first.
  lemma LateAcceptance(cfg: Settings, row: Row) returns (s: State)
    requires cfg.maxAge > 0 && Resolve(cfg.routing, row).Some?
    ensures Reachable(cfg, s) && s.log == [1, 0] && SameGroup(cfg, s, 1, 0)
    ensures RouteAt(cfg, s, 1) == Resolve(cfg.routing, row)
  {
    OutlivedReachable(cfg, row);
    var s0 := Outlived(cfg, row);
    var s1 := s0.(history := s0.history[1 := Newer(row)], table := {0, 1});
    assert {0} + {1} == {0, 1};
    Inserts(cfg, s0, s1, 1, Newer(row));
    var s2 := s1.(relays := [Relay(Sending(Batch({0, 1}, {0}, {}, {}, {}, {})), {0, 1}, true, false)]);
    CollectsAll(cfg, s1, s2, Resolve(cfg.routing, row).value, {0});
    var s3 := s2.(relays := [Relay(Sending(Batch({0, 1}, {0}, {1}, {}, {}, {})), {0, 1}, true, false)], attempted := {0} + {1});
    AttemptsFirst(cfg, s2, s3, {0, 1}, {0}, 1);
    var s4 := s3.(log := [] + [1]);
    Accepts(cfg, s3, s4, 1);
    s := s4.(log := s4.log + [0]);
    Accepts(cfg, s4, s, 0);
  }

  // Rows 0 and 1 of one group are collected together; row 0 goes out, a stray answer makes
  // the group go on without an outcome for it, and both are accepted, row 1 first.
  lemma StrayAcceptance(cfg: Settings, row: Row) returns (s: State)
    requires Resolve(cfg.routing, row).Some? && Resolve(cfg.routing, row).value.target in cfg.strays
    ensures Reachable(cfg, s) && s.log == [1, 0] && SameGroup(cfg, s, 1, 0)
    ensures RouteAt(cfg, s, 1) == Resolve(cfg.routing, row)
  {
    var s2 := BothCollected(cfg, row);
    assert {} + {0} == {0};
    var s3 := s2.(relays := [Relay(Sending(Batch({0, 1}, {}, {0}, {}, {}, {})), {0, 1}, true, false)], attempted := {} + {0});
    Attempts(cfg, s2, s3, Batch({0, 1}, {}, {}, {}, {}, {}), 0);
    var s4 := s3.(relays := [Relay(Sending(Batch({0, 1}, {}, {0}, {}, {}, {0})), {0, 1}, true, false)]);
    Passes(cfg, s3, s4, Batch({0, 1}, {}, {0}, {}, {}, {}), 0);
    var s5 := s4.(relays := [Relay(Sending(Batch({0, 1}, {}, {0} + {1}, {}, {}, {0})), {0, 1}, true, false)], attempted := s4.attempted + {1});
    Attempts(cfg, s4, s5, Batch({0, 1}, {}, {0}, {}, {}, {0}), 1);
    var s6 := s5.(log := [] + [1]);
    Accepts(cfg, s5, s6, 1);
    s := s6.(log := s6.log + [0]);
    Accepts(cfg, s6, s, 0);
  }

  // Two sendable rows of one group, locked and triaged in one batch.
  lemma BothCollected(cfg: Settings, row: Row) returns (s: State)
    requires Resolve(cfg.routing, row).Some?
    ensures Reachable(cfg, s)
    ensures s == State(map[0 := Newer(row), 1 := Newer(row)], {0, 1}, map[], [], {}, [], 0,
                       [Relay(Sending(Batch({0, 1}, {}, {}, {}, {}, {})), {0, 1}, true, false)])
  {
    var s0 := Initial(1);
    assert ReachableIn(cfg, 1, [], s0);
    var s1 := State(map[0 := Newer(row)], {0}, map[], [], {}, [], 0, [FRESH]);
    assert {} + {0} == {0};
    Inserts(cfg, s0, s1, 0, Newer(row));
    var s2 := s1.(history := s1.history[1 := Newer(row)], table := {0, 1});
    assert {0} + {1} == {0, 1};
    Inserts(cfg, s1, s2, 1, Newer(row));
    s := s2.(relays := [Relay(Sending(Batch({0, 1}, {}, {}, {}, {}, {})), {0, 1}, true, false)]);
    CollectsAll(cfg, s2, s, Resolve(cfg.routing, row).value, {});
  }

  lemma Attempts(cfg: Settings, s: State, t: State, b: Batch, i: RowId)
    requires Reachable(cfg, s) && s.relays == [Relay(Sending(b), b.rows, true, false)]
    requires i in b.rows - b.condemned - b.confirmed - b.poison && i in s.history && s.history[i].fate == Sendable
    requires Ready(cfg, s, b, i)
    requires t == s.(relays := [Relay(Sending(b.(tried := b.tried + {i})), b.rows, true, false)], attempted := s.attempted + {i})
    ensures Reachable(cfg, t)
  {
    ReachStep(cfg, s, Attempt(0, i));
    assert Apply(cfg, s, Attempt(0, i)).relays == t.relays;
  }

  lemma Passes(cfg: Settings, s: State, t: State, b: Batch, i: RowId)
    requires Reachable(cfg, s) && s.relays == [Relay(Sending(b), b.rows, true, false)]
    requires i in b.tried && RouteAt(cfg, s, i).Some? && RouteAt(cfg, s, i).value.target in cfg.strays
    requires t == s.(relays := [Relay(Sending(b.(passed := b.passed + {i})), b.rows, true, false)])
    ensures Reachable(cfg, t)
  {
    ReachStep(cfg, s, Pass(0, i));
    assert Apply(cfg, s, Pass(0, i)).relays == t.relays;
  }

  /** On a route some row can take, first acceptances of every ordering group come in id
      order in every reachable state exactly when no maximum age is configured and the
      route's provider settles only entries it was asked about. With a maximum age, an
      expired row that was handed to a provider earlier may still be accepted after its
      successor; with stray answers, a group goes on past an unsettled row. */
  lemma OrderedIff(cfg: Settings, row: Row)
    requires Resolve(cfg.routing, row).Some?
    ensures var route := Resolve(cfg.routing, row).value;
            (forall s :: Reachable(cfg, s) ==> InOrder(cfg, s, route)) <==> cfg.maxAge == 0 && route.target !in cfg.strays
  {
    var route := Resolve(cfg.routing, row).value;
    if KeepsOrder(cfg, route) {
      forall s | Reachable(cfg, s)
        ensures InOrder(cfg, s, route)
      {
        ReachableInvariant(cfg, s);
        AcceptancesAreGapFree(cfg, s, route);
      }
    } else {
      var s;
      if cfg.maxAge > 0 {
        s := LateAcceptance(cfg, row);
      } else {
        s := StrayAcceptance(cfg, row);
      }
      OutOfOrder(cfg, s, route);
    }
  }

  lemma OutOfOrder(cfg: Settings, s: State, route: Route)
    requires Reachable(cfg, s) && s.log == [1, 0] && SameGroup(cfg, s, 1, 0) && RouteAt(cfg, s, 1) == Some(route)
    ensures !InOrder(cfg, s, route)
  {
    assert s.log[0] == 1 && 0 in s.log && 0 !in s.log[..0];
    ReachableInvariant(cfg, s);
  }
}

/** Notification wake-ups of the main loop: one relay, its listener connection, producers
    that insert at any time, and other relays that delete rows of the same outbox.

    Rows stand for the rows this relay would collect. Every committed insert statement
    notifies the sessions subscribed at that moment.
 */
module Wakeup {

  type RowId = nat

  // Where the loop of processEvents is. Asleep is the plain sleep without a listener.
  datatype Phase = Ready | Selecting | Busy(batch: set<RowId>) | Empty | Waiting | Asleep

  // `listener` is the loop's listener object, `subscribed` whether its session really is
  // subscribed, `buffer` the notifications it has not read. `seen` is the snapshot of the
  // latest select; `covered` says the session stayed subscribed since before that select
  // began, and `lost` that rows it had picked were deleted by another relay.
  datatype State = State(
    table: set<RowId>, inserted: set<RowId>, phase: Phase, listener: bool, subscribed: bool, buffer: nat,
    seen: set<RowId>, covered: bool, lost: bool)

  const INITIAL := State({}, {}, Ready, false, false, 0, {}, false, false)

  datatype Step =
    | Insert(rows: set<RowId>)          // one committed insert statement
    | DeletedElsewhere(rows: set<RowId>)
    | BeginSelect
    | EndSelect(picked: set<RowId>)
    | SelectFails                       // a database error, followed by the cooldown
    | EndBatch(finished: set<RowId>)    // commit, or rollback with nothing finished
    | StartWait(listening: bool)        // listening: LISTEN succeeded, when it was needed
    | Wake(drained: nat)                // one notification and those drained with it
    | Timeout
    | DropConnection
    | WaitFails

  predicate Enabled(s: State, step: Step) {
    match step
    case Insert(rows) => rows != {} && rows !! s.inserted
    case DeletedElsewhere(rows) => rows <= s.table && !(s.phase.Busy? && rows * s.phase.batch != {})
    case BeginSelect => s.phase.Ready?
    case EndSelect(picked) => s.phase.Selecting? && picked <= s.seen && (s.seen != {} ==> picked != {})
    case SelectFails => s.phase.Selecting?
    case EndBatch(finished) => s.phase.Busy? && finished <= s.phase.batch
    case StartWait(_) => s.phase.Empty?
    case Wake(drained) => s.phase.Waiting? && 1 <= drained <= s.buffer
    case Timeout => s.phase.Waiting? || s.phase.Asleep?
    case DropConnection => s.subscribed
    case WaitFails => s.phase.Waiting? && !s.subscribed
  }

  function Apply(s: State, step: Step): State
    requires Enabled(s, step)
  {
    match step
    case Insert(rows) =>
      s.(table := s.table + rows, inserted := s.inserted + rows, buffer := if s.subscribed then s.buffer + 1 else s.buffer)
    case DeletedElsewhere(rows) => s.(table := s.table - rows)
    case BeginSelect => s.(phase := Selecting, seen := s.table, covered := s.subscribed, lost := false)
    case EndSelect(picked) =>
      var returned := picked * s.table;
      s.(phase := if returned == {} then Empty else Busy(returned), lost := picked != returned)
    case SelectFails => s.(phase := Ready)
    case EndBatch(finished) => s.(phase := Ready, table := s.table - finished)
    case StartWait(listening) =>
      if s.listener then s.(phase := Waiting)
      else if listening then s.(phase := Waiting, listener := true, subscribed := true, buffer := 0)
      else s.(phase := Asleep)
    case Wake(drained) => s.(phase := Ready, buffer := s.buffer - drained)
    case Timeout => s.(phase := Ready)
    case DropConnection => s.(subscribed := false, buffer := 0, covered := false)
    case WaitFails => s.(phase := Ready, listener := false)
  }

  ghost predicate Runs(s: State, steps: seq<Step>, t: State)
    decreases |steps|
  {
    if steps == [] then s == t else Enabled(s, steps[0]) && Runs(Apply(s, steps[0]), steps[1..], t)
  }

  ghost predicate Reachable(s: State) {
    exists steps :: Runs(INITIAL, steps, s)
  }

  // The loop sits in wait with nothing to read.
  predicate Blocked(s: State) {
    s.phase.Waiting? && s.subscribed && s.buffer == 0
  }

  ghost predicate Invariant(s: State) {
    && s.table <= s.inserted && s.seen <= s.inserted
    && (s.subscribed ==> s.listener)
    && (s.covered ==> s.subscribed)
    && (s.covered && !s.phase.Ready? && s.buffer == 0 ==> s.table <= s.seen)
    && (s.phase.Selecting? ==> !s.lost)
    && (s.phase.Asleep? ==> !s.listener)
    && (s.phase.Empty? || s.phase.Waiting? || s.phase.Asleep? ==> s.lost || s.table * s.seen == {})
  }

  lemma StepKeeps(s: State, step: Step)
    requires Invariant(s) && Enabled(s, step)
    ensures Invariant(Apply(s, step))
  {
  }

  lemma {:induction false} RunKeeps(s: State, steps: seq<Step>, t: State)
    requires Invariant(s) && Runs(s, steps, t)
    ensures Invariant(t)
    decreases |steps|
  {
    if steps != [] {
      StepKeeps(s, steps[0]);
      RunKeeps(Apply(s, steps[0]), steps[1..], t);
    }
  }

  lemma ReachableInvariant(s: State)
    requires Reachable(s)
    ensures Invariant(s)
  {
    var steps :| Runs(INITIAL, steps, s);
    RunKeeps(INITIAL, steps, s);
  }

  /** If the session was subscribed before the latest select began, then whenever the loop
      is blocked with nothing to read, no committed row is missing from what that select
      saw; and unless that select lost rows to another relay, there is no row at all. */
  lemma NoLostWakeup(s: State)
    requires Reachable(s) && Blocked(s) && s.covered
    ensures s.table <= s.seen
    ensures !s.lost ==> s.table == {}
  {
    ReachableInvariant(s);
  }

  /** A committed insert wakes a blocked loop: its notification is there to be read. */
  lemma InsertWakes(s: State, rows: set<RowId>)
    requires Blocked(s) && Enabled(s, Insert(rows))
    ensures var t := Apply(s, Insert(rows)); Enabled(t, Wake(1)) && Apply(t, Wake(1)).phase == Ready && rows <= t.table
  {
  }

  // --- the listener comes back -----------------------------------------------------------------

  predicate Drops(steps: seq<Step>) {
    exists step | step in steps :: step.DropConnection?
  }

  /** After its connection has failed, and unless it fails again, the loop is subscribed
      exactly once an idle cycle has listened anew. */
  lemma ListenerRecovers(s: State, steps: seq<Step>, t: State)
    requires Enabled(s, WaitFails) && Runs(Apply(s, WaitFails), steps, t) && !Drops(steps)
    ensures t.subscribed <==> StartWait(true) in steps
  {
    Subscribes(Apply(s, WaitFails), steps, t);
  }

  // Without a drop the loop's listener object and its session agree.
  lemma {:induction false} Subscribes(s: State, steps: seq<Step>, t: State)
    requires s.listener == s.subscribed && Runs(s, steps, t) && !Drops(steps)
    ensures t.subscribed <==> s.subscribed || StartWait(true) in steps
    decreases |steps|
  {
    if steps != [] {
      assert steps[0] in steps && !steps[0].DropConnection?;
      assert forall x :: x in steps <==> x == steps[0] || x in steps[1..];
      Subscribes(Apply(s, steps[0]), steps[1..], t);
    }
  }

  // --- when the loop may sleep on rows -----------------------------------------------------

  // No other relay deletes rows in this run.
  predicate Alone(steps: seq<Step>) {
    forall step | step in steps :: !step.DeletedElsewhere?
  }

  ghost predicate AloneInv(s: State) {
    !s.lost && (s.phase.Selecting? ==> s.seen <= s.table)
  }

  lemma {:induction false} AloneKeeps(s: State, steps: seq<Step>, t: State)
    requires AloneInv(s) && Alone(steps) && Runs(s, steps, t)
    ensures AloneInv(t)
    decreases |steps|
  {
    if steps != [] {
      assert steps[0] in steps;
      AloneKeeps(Apply(s, steps[0]), steps[1..], t);
    }
  }

  // Runs of the kind allowed, up to a state where the loop is blocked, leave no row behind.
  ghost predicate SleepsOnlyWhenEmpty(alone: bool, covered: bool) {
    forall steps, s ::
      Runs(INITIAL, steps, s) && (alone ==> Alone(steps)) && Blocked(s) && (covered ==> s.covered) ==> s.table == {}
  }

  /** The loop blocks with nothing to read only on an empty outbox exactly under two
      conditions: no other relay deletes rows, and the session has been subscribed since
      before the latest select began. Without the first, rows that select picked can be
      deleted under it and hide the rest; without the second, a row can slip in between
      the select and LISTEN. */
  lemma SleepsOnlyWhenEmptyIff(alone: bool, covered: bool)
    ensures SleepsOnlyWhenEmpty(alone, covered) <==> alone && covered
  {
    if alone && covered {
      forall steps, s | Runs(INITIAL, steps, s) && Alone(steps) && Blocked(s) && s.covered
        ensures s.table == {}
      {
        AloneKeeps(INITIAL, steps, s);
        NoLostWakeup(s);
      }
    } else if covered {
      var loss := ReachesLoss();
      var steps :| Runs(INITIAL, steps, loss);
    } else {
      var gap := State({1}, {1}, Waiting, true, true, 0, {}, false, false);
      RunsToGap(gap);
    }
  }

  lemma ReachStep(s: State, step: Step)
    requires Reachable(s) && Enabled(s, step)
    ensures Reachable(Apply(s, step))
  {
    var steps :| Runs(INITIAL, steps, s);
    RunAppend(INITIAL, steps, s, step);
  }

  lemma {:induction false} RunAppend(s: State, steps: seq<Step>, t: State, step: Step)
    requires Runs(s, steps, t) && Enabled(t, step)
    ensures Runs(s, steps + [step], Apply(t, step))
    decreases |steps|
  {
    if steps == [] {
      assert [step][1..] == [];
    } else {
      assert (steps + [step])[1..] == steps[1..] + [step];
      RunAppend(Apply(s, steps[0]), steps[1..], t, step);
    }
  }

  // A row inserted between the first select and LISTEN.
  lemma RunsToGap(s: State)
    requires s == State({1}, {1}, Waiting, true, true, 0, {}, false, false)
    ensures Runs(INITIAL, [BeginSelect, Insert({1}), EndSelect({}), StartWait(true)], s)
    ensures Alone([BeginSelect, Insert({1}), EndSelect({}), StartWait(true)]) && Reachable(s)
  {
    var s1 := State({}, {}, Selecting, false, false, 0, {}, false, false);
    var s2 := State({1}, {1}, Selecting, false, false, 0, {}, false, false);
    var s3 := State({1}, {1}, Empty, false, false, 0, {}, false, false);
    RunAppend(INITIAL, [], INITIAL, BeginSelect);
    assert [] + [BeginSelect] == [BeginSelect];
    assert {} + {1} == {1};
    RunAppend(INITIAL, [BeginSelect], s1, Insert({1}));
    assert [BeginSelect] + [Insert({1})] == [BeginSelect, Insert({1})];
    assert {} * {1} == {};
    RunAppend(INITIAL, [BeginSelect, Insert({1})], s2, EndSelect({}));
    assert [BeginSelect, Insert({1})] + [EndSelect({})] == [BeginSelect, Insert({1}), EndSelect({})];
    RunAppend(INITIAL, [BeginSelect, Insert({1}), EndSelect({})], s3, StartWait(true));
    assert [BeginSelect, Insert({1}), EndSelect({})] + [StartWait(true)] == [BeginSelect, Insert({1}), EndSelect({}), StartWait(true)];
  }

  // The loop, already subscribed, selects one of two rows; another relay deletes it first.
  lemma ReachesLoss() returns (s: State)
    ensures Reachable(s) && Blocked(s) && s.covered && s.lost && s.table != {}
  {
    var gap := State({1}, {1}, Waiting, true, true, 0, {}, false, false);
    RunsToGap(gap);
    ReachStep(gap, Insert({2}));
    var s1 := State({1, 2}, {1, 2}, Waiting, true, true, 1, {}, false, false);
    assert {1} + {2} == {1, 2};
    ReachStep(s1, Wake(1));
    var s2 := State({1, 2}, {1, 2}, Ready, true, true, 0, {}, false, false);
    ReachStep(s2, BeginSelect);
    var s3 := State({1, 2}, {1, 2}, Selecting, true, true, 0, {1, 2}, true, false);
    ReachStep(s3, DeletedElsewhere({1}));
    var s4 := State({2}, {1, 2}, Selecting, true, true, 0, {1, 2}, true, false);
    assert {1, 2} - {1} == {2};
    ReachStep(s4, EndSelect({1}));
    var s5 := State({2}, {1, 2}, Empty, true, true, 0, {1, 2}, true, true);
    assert {1} * {2} == {};
    ReachStep(s5, StartWait(true));
    s := State({2}, {1, 2}, Waiting, true, true, 0, {1, 2}, true, true);
    assert Apply(s5, StartWait(true)) == s;
    assert 2 in s.table;
  }

  // --- progress ----------------------------------------------------------------------------

  // The relay's own steps, in whatever way they turn out.
  predicate OwnStep(step: Step) {
    !step.Insert? && !step.DeletedElsewhere? && !step.DropConnection?
  }

  // How many of them can still come before the next select.
  function Distance(s: State): nat {
    match s.phase
    case Ready => 0
    case Busy(_) => 1
    case Waiting => 1
    case Asleep => 1
    case Empty => 2
    case Selecting => 3
  }

  function OwnSteps(steps: seq<Step>): nat {
    if steps == [] then 0 else OwnSteps(steps[1..]) + if OwnStep(steps[0]) then 1 else 0
  }

  lemma StepNears(s: State, step: Step)
    requires Enabled(s, step) && step != BeginSelect
    ensures if OwnStep(step) then Distance(Apply(s, step)) < Distance(s) else Distance(Apply(s, step)) == Distance(s)
  {
  }

  // The relay is never stuck: in every state it has a step of its own.
  lemma OwnStepEnabled(s: State) returns (step: Step)
    ensures OwnStep(step) && Enabled(s, step)
  {
    match s.phase
    case Ready => step := BeginSelect;
    case Selecting => step := EndSelect(s.seen);
    case Busy(_) => step := EndBatch({});
    case Empty => step := StartWait(false);
    case Waiting => step := Timeout;
    case Asleep => step := Timeout;
  }

  predicate Removes(step: Step, i: RowId) {
    (step.DeletedElsewhere? && i in step.rows) || (step.EndBatch? && i in step.finished)
  }

  // Step k of the run begins a select whose snapshot holds row i.
  ghost predicate SelectSees(s: State, steps: seq<Step>, k: nat, u: State, i: RowId) {
    k < |steps| && steps[k] == BeginSelect && Runs(s, steps[..k], u) && Enabled(u, BeginSelect) && i in Apply(u, BeginSelect).seen
  }

  /** No committed row waits for ever: whatever producers, other relays and the connection
      do in between, as soon as the relay has taken four steps of its own some select has
      begun, and its snapshot holds every row that was committed and not removed. No
      notification is needed for that; the poll timeout is one of those steps. */
  lemma {:induction false} RowIsSelectedSoon(s: State, steps: seq<Step>, t: State, i: RowId) returns (k: nat, u: State)
    requires Runs(s, steps, t) && OwnSteps(steps) > Distance(s)
    requires i in s.table && forall step :: step in steps ==> !Removes(step, i)
    ensures SelectSees(s, steps, k, u, i) && Distance(s) <= 3
    decreases |steps|
  {
    var step := steps[0];
    assert step in steps;
    if step == BeginSelect {
      k, u := 0, s;
    } else {
      StepNears(s, step);
      var next := Apply(s, step);
      assert forall x :: x in steps[1..] ==> x in steps;
      var k1, u1 := RowIsSelectedSoon(next, steps[1..], t, i);
      k, u := k1 + 1, u1;
      RunPrepend(s, steps, k1, u1);
    }
  }

  lemma RunPrepend(s: State, steps: seq<Step>, k: nat, u: State)
    requires steps != [] && Enabled(s, steps[0]) && k <= |steps[1..]| && Runs(Apply(s, steps[0]), steps[1..][..k], u)
    ensures Runs(s, steps[..k + 1], u)
  {
    assert steps[..k + 1][1..] == steps[1..][..k] && steps[..k + 1][0] == steps[0];
  }

  /** From every state the relay's own steps alone, at most four of them, reach a select
      whose snapshot is the whole committed table. */
  lemma {:induction false} SelectWithinFour(s: State) returns (steps: seq<Step>, t: State)
    ensures Runs(s, steps, t) && 1 <= |steps| <= Distance(s) + 1 <= 4 && forall step :: step in steps ==> OwnStep(step)
    ensures steps[|steps| - 1] == BeginSelect && t.phase.Selecting? && t.seen == t.table
    decreases Distance(s)
  {
    var step := OwnStepEnabled(s);
    if step == BeginSelect {
      steps, t := [BeginSelect], Apply(s, BeginSelect);
      assert steps[1..] == [];
    } else {
      StepNears(s, step);
      var rest;
      rest, t := SelectWithinFour(Apply(s, step));
      steps := [step] + rest;
      assert steps[1..] == rest;
    }
  }
}

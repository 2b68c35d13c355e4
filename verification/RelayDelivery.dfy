/** The relay's own steps do deliver: what one batch changes, exactly, and a run of one relay
    that takes a row from the outbox to its provider and out of the table.
 */
module RelayDelivery {
  import opened Errors
  import opened Routing
  import opened Selection
  import opened RelaySystem

  // --- what the steps of a batch change ------------------------------------------------------

  /** Triage condemns exactly the locked rows that are malformed or past the maximum age. */
  lemma TriageCondemns(cfg: Settings, s: State, k: nat, i: RowId)
    requires Invariant(cfg, s) && Enabled(cfg, s, Triage(k)) && i in s.relays[k].held
    ensures i in s.history && Apply(cfg, s, Triage(k)).relays[k].phase.Sending?
    ensures i in Apply(cfg, s, Triage(k)).relays[k].phase.batch.condemned
       <==> s.history[i].malformed
            || (cfg.maxAge > 0 && s.history[i].timestamp.Some? && s.history[i].timestamp.value + cfg.maxAge < s.clock)
  {
    assert RelayInv(cfg, s, s.relays[k]);
  }

  /** A commit that takes effect removes exactly the batch's confirmed, poisoned and condemned
      rows, each with its ending, and appends exactly its dead letters. */
  lemma CommitRemoves(cfg: Settings, s: State, k: nat, i: RowId)
    requires Invariant(cfg, s) && Enabled(cfg, s, Commit(k, true))
    ensures var b, t := s.relays[k].phase.batch, Apply(cfg, s, Commit(k, true));
            && (i in t.table <==> i in s.table && i !in b.confirmed && i !in b.poison && i !in b.condemned)
            && (i in b.confirmed ==> i in t.removed && t.removed[i] == Sent)
            && (i in b.poison + b.condemned ==> i in t.removed && t.removed[i] == Condemned)
            && (i in t.dlq <==> i in s.dlq || (cfg.dlq && i in b.poison + b.condemned))
            && t.log == s.log
  {
    assert RelayInv(cfg, s, s.relays[k]);
  }

  // --- a relay that is left alone delivers ------------------------------------------------------

  // A step of relay k, or the provider's acceptance of row i.
  predicate OwnStep(step: Step, k: nat, i: RowId) {
    step == Accept(i) || (!step.Insert? && !step.Tick? && !step.Accept? && step.k == k)
  }

  ghost predicate Leads(cfg: Settings, s: State, k: nat, i: RowId, t: State) {
    exists steps :: Runs(cfg, s, steps, t) && forall step :: step in steps ==> OwnStep(step, k, i)
  }

  lemma LeadsOn(cfg: Settings, s: State, k: nat, i: RowId, t: State, step: Step)
    requires Leads(cfg, s, k, i, t) && Enabled(cfg, t, step) && OwnStep(step, k, i)
    ensures Leads(cfg, s, k, i, Apply(cfg, t, step))
  {
    hide Enabled, Apply;
    var steps :| Runs(cfg, s, steps, t) && forall x :: x in steps ==> OwnStep(x, k, i);
    RunAppend(cfg, s, steps, t, step);
    assert forall x :: x in steps + [step] ==> OwnStep(x, k, i);
  }

  // No other relay holds a lock.
  predicate Alone(s: State, k: nat) {
    forall l | 0 <= l < |s.relays| :: l == k || s.relays[l].held == {}
  }

  predicate IsLocking(r: Relay, todo: set<RowId>, held: set<RowId>) {
    r == Relay(Locking(todo), held, true, false)
  }

  // A relay that is alone gets all the locks it asks for.
  lemma {:induction false} LocksAll(cfg: Settings, s: State, k: nat, i: RowId, t: State, todo: set<RowId>, held: set<RowId>)
    requires Leads(cfg, s, k, i, t) && k < |t.relays| && Alone(t, k) && IsLocking(t.relays[k], todo, held) && todo <= t.table
    ensures Leads(cfg, s, k, i, WithRelay(t, k, Relay(Locking({}), held + todo, true, false)))
    decreases |todo|
  {
    hide Leads;
    if todo == {} {
      assert held + todo == held;
      assert WithRelay(t, k, t.relays[k]) == t;
    } else {
      var m := Least(todo);
      LeadsOn(cfg, s, k, i, t, Lock(k));
      var next := WithRelay(t, k, Relay(Locking(todo - {m}), held + {m}, true, false));
      assert Apply(cfg, t, Lock(k)) == next;
      LocksAll(cfg, s, k, i, next, todo - {m}, held + {m});
      assert (held + {m}) + (todo - {m}) == held + todo;
      var locked := Relay(Locking({}), held + todo, true, false);
      assert WithRelay(next, k, locked) == WithRelay(t, k, locked);
    }
  }

  // Every older row of i's group in the table is condemned by triage.
  ghost predicate HeadsGroup(cfg: Settings, s: State, i: RowId) {
    forall j :: j in s.table && j in s.history && j < i && SameGroup(cfg, s, i, j) ==> CondemnedByTriage(cfg, s.history[j], s.clock)
  }

  // A row that can go out at once, and is among those the next select picks.
  ghost predicate Deliverable(cfg: Settings, s: State, i: RowId, target: int) {
    && target > 0 && i in SelectedIds(cfg.routing, Snapshot(s), target)
    && s.history[i].fate == Sendable && !CondemnedByTriage(cfg, s.history[i], s.clock) && HeadsGroup(cfg, s, i)
  }

  function Picked(cfg: Settings, s: State, target: int): (rows: set<RowId>)
    ensures rows <= s.table * s.history.Keys
  {
    SelectedIds(cfg.routing, Snapshot(s), target)
  }

  // The batch of everything a relay that is alone collects.
  function FirstBatch(cfg: Settings, s: State, target: int): Batch {
    Batch(Picked(cfg, s, target), CondemnedRows(cfg, s, Picked(cfg, s, target)), {}, {}, {}, {})
  }

  lemma Collects(cfg: Settings, s: State, k: nat, i: RowId, target: int)
    requires k < |s.relays| && s.relays[k] == FRESH && Alone(s, k) && target > 0
    ensures Leads(cfg, s, k, i, WithRelay(s, k, Relay(Sending(FirstBatch(cfg, s, target)), Picked(cfg, s, target), true, false)))
  {
    var todo := Picked(cfg, s, target);
    assert Leads(cfg, s, k, i, s) by {
      assert Runs(cfg, s, [], s);
    }
    LeadsOn(cfg, s, k, i, s, Select(k, target));
    var locking := WithRelay(s, k, Relay(Locking(todo), {}, true, false));
    assert Apply(cfg, s, Select(k, target)) == locking;
    LocksAll(cfg, s, k, i, locking, todo, {});
    assert {} + todo == todo;
    var locked := WithRelay(s, k, Relay(Locking({}), todo, true, false));
    assert WithRelay(locking, k, Relay(Locking({}), todo, true, false)) == locked;
    LeadsOn(cfg, s, k, i, locked, Triage(k));
    assert Apply(cfg, locked, Triage(k)) == WithRelay(s, k, Relay(Sending(FirstBatch(cfg, s, target)), todo, true, false));
  }

  // The row goes out, is accepted, and its confirmation is recorded.
  lemma Publishes(cfg: Settings, s: State, k: nat, i: RowId, t: State, b: Batch) returns (u: State)
    requires Leads(cfg, s, k, i, t) && k < |t.relays| && t.relays[k] == Relay(Sending(b), b.rows, true, false)
    requires i in b.rows - b.condemned && b.tried == b.confirmed == b.poison == {}
    requires i in t.history && t.history[i].fate == Sendable && Ready(cfg, t, b, i)
    ensures Leads(cfg, s, k, i, u) && i in u.log && u.table == t.table && u.removed == t.removed && |u.relays| == |t.relays|
    ensures u.relays[k] == Relay(Sending(b.(tried := {i}, confirmed := {i})), b.rows, true, false)
  {
    hide Leads;
    LeadsOn(cfg, s, k, i, t, Attempt(k, i));
    var tried := Apply(cfg, t, Attempt(k, i));
    assert {} + {i} == {i};
    LeadsOn(cfg, s, k, i, tried, Accept(i));
    var accepted := Apply(cfg, tried, Accept(i));
    LeadsOn(cfg, s, k, i, accepted, Confirm(k, i));
    u := Apply(cfg, accepted, Confirm(k, i));
  }

  // The batch's writes and its commit.
  lemma Finishes(cfg: Settings, s: State, k: nat, i: RowId, t: State, b: Batch) returns (u: State)
    requires Leads(cfg, s, k, i, t) && k < |t.relays| && t.relays[k] == Relay(Sending(b), b.rows, true, false)
    ensures Leads(cfg, s, k, i, u) && u.log == t.log && |u.relays| == |t.relays| && u.relays[k] == FRESH
    ensures u.table == t.table - Finished(b) && u.removed == t.removed + Endings(b)
    ensures cfg.dlq ==> forall j :: j in b.condemned + b.poison ==> j in u.dlq
  {
    hide Leads;
    var letters := EnumerateRows(b.condemned + b.poison);
    var rows := if cfg.dlq then letters else [];
    LeadsOn(cfg, s, k, i, t, DeadLetter(k, rows));
    var lettered := Apply(cfg, t, DeadLetter(k, rows));
    LeadsOn(cfg, s, k, i, lettered, Delete(k));
    var deleted := Apply(cfg, lettered, Delete(k));
    LeadsOn(cfg, s, k, i, deleted, Commit(k, true));
    u := Apply(cfg, deleted, Commit(k, true));
  }

  /** From every reachable state, an idle relay that no other one blocks delivers any row its
      next select picks, if the row can be sent, is not overdue or malformed, and heads its
      group: its own steps and the provider's acceptance lead to a state in which the row was
      accepted and has left the outbox as sent, and the relay is ready for the next batch. */
  lemma RelayDelivers(cfg: Settings, s: State, k: nat, i: RowId, target: int) returns (t: State)
    requires Reachable(cfg, s) && k < |s.relays| && s.relays[k].phase == Idle && !s.relays[k].live && Alone(s, k)
    requires Deliverable(cfg, s, i, target)
    ensures Leads(cfg, s, k, i, t) && |t.relays| == |s.relays| && t.relays[k] == FRESH
    ensures i in t.log && i !in t.table && i in t.removed && t.removed[i] == Sent
    ensures t.table <= s.table
  {
    hide Leads;
    ReachableInvariant(cfg, s);
    assert RelayInv(cfg, s, s.relays[k]);
    var b := FirstBatch(cfg, s, target);
    Collects(cfg, s, k, i, target);
    var sending := WithRelay(s, k, Relay(Sending(b), b.rows, true, false));
    assert Ready(cfg, sending, b, i) by {
      assert forall j :: SameGroup(cfg, sending, i, j) <==> SameGroup(cfg, s, i, j);
    }
    var sent := Publishes(cfg, s, k, i, sending, b);
    t := Finishes(cfg, s, k, i, sent, b.(tried := {i}, confirmed := {i}));
  }

  // A row the provider will not take, among those the next select picks.
  ghost predicate Refusable(cfg: Settings, s: State, i: RowId, target: int) {
    && target > 0 && i in SelectedIds(cfg.routing, Snapshot(s), target)
    && s.history[i].fate != Sendable && !CondemnedByTriage(cfg, s.history[i], s.clock) && HeadsGroup(cfg, s, i)
  }

  // The row is refused, by the provider or before it is ever sent.
  lemma Refuses(cfg: Settings, s: State, k: nat, i: RowId, t: State, b: Batch) returns (u: State, tried: set<RowId>)
    requires Leads(cfg, s, k, i, t) && k < |t.relays| && t.relays[k] == Relay(Sending(b), b.rows, true, false)
    requires i in b.rows - b.condemned && b.tried == b.confirmed == b.poison == {}
    requires i in t.history && t.history[i].fate != Sendable && Ready(cfg, t, b, i)
    ensures Leads(cfg, s, k, i, u) && u.table == t.table && u.removed == t.removed && u.dlq == t.dlq && |u.relays| == |t.relays|
    ensures u.relays[k] == Relay(Sending(b.(tried := tried, poison := {i})), b.rows, true, false)
  {
    hide Leads;
    u, tried := t, {};
    if t.history[i].fate == BackendRejected {
      LeadsOn(cfg, s, k, i, t, Attempt(k, i));
      u := Apply(cfg, t, Attempt(k, i));
      assert {} + {i} == {i};
      tried := {i};
    }
    LeadsOn(cfg, s, k, i, u, Reject(k, i));
    u := Apply(cfg, u, Reject(k, i));
    assert {} + {i} == {i};
  }

  /** And it gets rid of a row that can never be sent: such a row leaves the outbox as
      condemned, with its dead letter if a dead-letter table is configured. */
  lemma RelayRefuses(cfg: Settings, s: State, k: nat, i: RowId, target: int) returns (t: State)
    requires Reachable(cfg, s) && k < |s.relays| && s.relays[k].phase == Idle && !s.relays[k].live && Alone(s, k)
    requires Refusable(cfg, s, i, target)
    ensures Leads(cfg, s, k, i, t) && |t.relays| == |s.relays| && t.relays[k] == FRESH
    ensures i !in t.table && i in t.removed && t.removed[i] == Condemned && (cfg.dlq ==> i in t.dlq)
  {
    hide Leads;
    ReachableInvariant(cfg, s);
    assert RelayInv(cfg, s, s.relays[k]);
    var b := FirstBatch(cfg, s, target);
    Collects(cfg, s, k, i, target);
    var sending := WithRelay(s, k, Relay(Sending(b), b.rows, true, false));
    assert Ready(cfg, sending, b, i) by {
      assert forall j :: SameGroup(cfg, sending, i, j) <==> SameGroup(cfg, s, i, j);
    }
    var refused, tried := Refuses(cfg, s, k, i, sending, b);
    t := Finishes(cfg, s, k, i, refused, b.(tried := tried, poison := {i}));
  }
}

/** Any number of relay processes sharing one outbox table, as a step machine.

    A run interleaves producer inserts, the batches of the relays (select, lock row
    by row, triage, publish, dead-letter, delete, commit or roll back), provider
    acceptances, which may come long after the publish that caused them, aborted
    transactions, crashes and restarts.

    Invariant holds in every reachable state; the main theorems read it off.
 */
module RelaySystem {
  import opened Errors
  import opened Expiry
  import opened Routing
  import opened Selection

  // --- state ------------------------------------------------------------------------

  // What the provider does with an event's content, whenever it is asked: accept it,
  // reject it permanently, or never see it because local validation refuses it.
  datatype Fate = Sendable | LocallyInvalid | BackendRejected

  // An outbox row. `malformed` events have an options column that does not parse;
  // `key` is the Pub/Sub ordering key or the SQS FIFO group id, "" when unordered.
  datatype Message = Message(row: Row, malformed: bool, key: string, fate: Fate, timestamp: Option<int>)

  // maxAge is MAX_EVENT_AGE_MS, 0 when the policy is off. `strays` are the targets whose
  // provider may answer a call by settling an entry the call did not carry.
  datatype Settings = Settings(routing: Config, maxAge: nat, dlq: bool, strays: set<string>)

  // One batch after triage: the locked rows, those condemned by triage, those handed
  // to a provider, and the outcomes the senders recorded. `passed` are rows without an
  // outcome that their group went on from, misled by a stray answer.
  datatype Batch = Batch(
    rows: set<RowId>, condemned: set<RowId>, tried: set<RowId>, confirmed: set<RowId>, poison: set<RowId>, passed: set<RowId>)

  datatype Phase =
    | Idle
    | Stopped
    | Locking(todo: set<RowId>)
    | Sending(batch: Batch)
    | DeadLettered(batch: Batch, letters: seq<RowId>)
    | Deleted(batch: Batch, letters: seq<RowId>, deletes: set<RowId>)

  // `live` says the relay's transaction is open on the server, `held` the row locks it
  // owns there; a process can outlive its transaction. `fatal` records an ordered
  // publish with an unknown outcome.
  datatype Relay = Relay(phase: Phase, held: set<RowId>, live: bool, fatal: bool)

  datatype Ending = Sent | Condemned

  // history keeps every row ever inserted, table the committed rows, and removed how
  // each committed removal came about. `attempted` are the rows some relay handed to
  // a provider, `log` the provider's acceptances in order, duplicates included.
  datatype State = State(
    history: map<RowId, Message>, table: set<RowId>, removed: map<RowId, Ending>, dlq: seq<RowId>,
    attempted: set<RowId>, log: seq<RowId>, clock: nat, relays: seq<Relay>)

  const FRESH := Relay(Idle, {}, false, false)

  function Initial(relays: nat): State {
    State(map[], {}, map[], [], {}, [], 0, seq(relays, _ => FRESH))
  }

  function Snapshot(s: State): Table {
    map i | i in s.table && i in s.history :: s.history[i].row
  }

  function RouteAt(cfg: Settings, s: State, i: RowId): Option<Route> {
    if i in s.history then Resolve(cfg.routing, s.history[i].row) else None
  }

  predicate SameRoute(cfg: Settings, s: State, i: RowId, j: RowId) {
    RouteAt(cfg, s, i).Some? && RouteAt(cfg, s, i) == RouteAt(cfg, s, j)
  }

  // Two rows of one ordering group: the same key on the same topic or FIFO queue.
  predicate SameGroup(cfg: Settings, s: State, i: RowId, j: RowId) {
    && SameRoute(cfg, s, i, j)
    && !s.history[i].malformed && !s.history[j].malformed
    && s.history[i].key != "" && s.history[i].key == s.history[j].key
  }

  // What triageEvents condemns among rows that resolve to a route.
  predicate CondemnedByTriage(cfg: Settings, m: Message, now: nat) {
    IsExpired(cfg.maxAge, m.timestamp, now) || m.malformed
  }

  // The rows triageEvents puts aside as poison before dispatch.
  function CondemnedRows(cfg: Settings, s: State, rows: set<RowId>): set<RowId> {
    set i | i in rows && i in s.history && CondemnedByTriage(cfg, s.history[i], s.clock)
  }

  // --- steps --------------------------------------------------------------------------

  datatype Step =
    | Insert(id: RowId, message: Message)
    | Tick
    | Select(k: nat, target: int)
    | Lock(k: nat)
    | Triage(k: nat)
    | Attempt(k: nat, i: RowId)
    | Accept(i: RowId)
    | Confirm(k: nat, i: RowId)
    | Reject(k: nat, i: RowId)
    | Pass(k: nat, i: RowId)
    | Deadline(k: nat, i: RowId)
    | DeadLetter(k: nat, rows: seq<RowId>)
    | Delete(k: nat)
    | Commit(k: nat, applied: bool)
    | Fail(k: nat)
    | Abort(k: nat)
    | Restart(k: nat)

  ghost predicate IsLeast(s: set<RowId>, m: RowId) {
    m in s && forall i :: i in s ==> m <= i
  }

  lemma HasLeast(s: set<RowId>) returns (m: RowId)
    requires s != {}
    ensures IsLeast(s, m)
    decreases |s|
  {
    var first :| first in s;
    if i :| i in s && i < first {
      assert i in s - {first} && s == (s - {first}) + {first};
      m := HasLeast(s - {first});
    } else {
      m := first;
    }
  }

  ghost function Least(s: set<RowId>): RowId
    requires s != {}
  {
    HasLeastExists(s);
    var m :| IsLeast(s, m);
    m
  }

  lemma HasLeastExists(s: set<RowId>)
    requires s != {}
    ensures exists m :: IsLeast(s, m)
  {
    var m := HasLeast(s);
  }

  ghost predicate IsLetterList(rows: seq<RowId>, poison: set<RowId>) {
    && (forall i, j :: 0 <= i < j < |rows| ==> rows[i] != rows[j])
    && (forall i :: i in rows <==> i in poison)
  }

  predicate HeldByAnother(s: State, k: nat, i: RowId) {
    exists l | 0 <= l < |s.relays| :: l != k && i in s.relays[l].held
  }

  // The senders' sequencing rule: a row of an ordering group goes out only when every
  // earlier row of its group in the batch has a recorded outcome or was passed over.
  // SenderOrder derives it from the two senders.
  ghost predicate Ready(cfg: Settings, s: State, b: Batch, i: RowId) {
    forall j :: j in b.rows - b.condemned && j < i && SameGroup(cfg, s, i, j) ==> j in b.confirmed + b.poison + b.passed
  }

  ghost predicate Enabled(cfg: Settings, s: State, step: Step) {
    match step
    case Insert(id, _) => forall i :: i in s.history ==> i < id
    case Tick => true
    case Accept(i) => i in s.attempted && i in s.history && s.history[i].fate == Sendable
    case Select(k, target) => k < |s.relays| && s.relays[k].phase == Idle && target > 0
    case _ =>
      && step.k < |s.relays|
      && RelayEnabled(cfg, s, step.k, s.relays[step.k], step)
  }

  ghost predicate RelayEnabled(cfg: Settings, s: State, k: nat, r: Relay, step: Step)
    requires !step.Insert? && !step.Tick? && !step.Accept? && !step.Select?
  {
    match step
    case Lock(_) =>
      && r.phase.Locking? && r.live && r.phase.todo != {}
      && var m := Least(r.phase.todo); (m in s.table ==> !HeldByAnother(s, k, m))
    case Triage(_) => r.phase == Locking({}) && r.live
    case Attempt(_, i) =>
      && r.phase.Sending?
      && i in r.phase.batch.rows - r.phase.batch.condemned - r.phase.batch.confirmed - r.phase.batch.poison
      && i in s.history && s.history[i].fate != LocallyInvalid
      && Ready(cfg, s, r.phase.batch, i)
    case Confirm(_, i) => r.phase.Sending? && i in r.phase.batch.tried - r.phase.batch.poison && i in s.log
    case Reject(_, i) =>
      && r.phase.Sending?
      && i in r.phase.batch.rows - r.phase.batch.condemned - r.phase.batch.confirmed
      && i in s.history
      && (s.history[i].fate == LocallyInvalid || (s.history[i].fate == BackendRejected && i in r.phase.batch.tried))
    case Pass(_, i) =>
      && r.phase.Sending? && i in r.phase.batch.tried
      && RouteAt(cfg, s, i).Some? && RouteAt(cfg, s, i).value.target in cfg.strays
    case Deadline(_, i) => r.phase.Sending? && i in r.phase.batch.tried
    case DeadLetter(_, rows) =>
      && r.phase.Sending? && r.live
      && if cfg.dlq then IsLetterList(rows, r.phase.batch.condemned + r.phase.batch.poison) else rows == []
    case Delete(_) => r.phase.DeadLettered? && r.live
    case Commit(_, applied) => r.phase.Deleted? && (applied ==> r.live)
    case Fail(_) => !r.phase.Idle? && !r.phase.Stopped?
    case Abort(_) => r.live
    case Restart(_) => true
  }

  // deleteIDs: everything that will not be retried.
  function Finished(b: Batch): set<RowId> {
    b.condemned + b.poison + b.confirmed
  }

  function Endings(b: Batch): map<RowId, Ending> {
    map i | i in Finished(b) :: if i in b.confirmed then Sent else Condemned
  }

  // FOR UPDATE reaches row m: a row deleted while the statement waited is skipped.
  function AfterLock(s: State, r: Relay, m: RowId): Relay
    requires r.phase.Locking?
  {
    r.(phase := Locking(r.phase.todo - {m}), held := if m in s.table then r.held + {m} else r.held)
  }

  // The phase a relay enters when a batch ends, however it ends.
  function AfterBatch(r: Relay): Relay {
    Relay(if r.fatal then Stopped else Idle, {}, false, r.fatal)
  }

  function WithRelay(s: State, k: nat, r: Relay): State
    requires k < |s.relays|
  {
    s.(relays := s.relays[k := r])
  }

  ghost function Apply(cfg: Settings, s: State, step: Step): State
    requires Enabled(cfg, s, step)
  {
    match step
    case Insert(id, message) => s.(history := s.history[id := message], table := s.table + {id})
    case Tick => s.(clock := s.clock + 1)
    case Accept(i) => s.(log := s.log + [i])
    case Select(k, target) =>
      WithRelay(s, k, s.relays[k].(phase := Locking(SelectedIds(cfg.routing, Snapshot(s), target)), held := {}, live := true))
    case _ => ApplyRelay(cfg, s, step.k, s.relays[step.k], step)
  }

  ghost function ApplyRelay(cfg: Settings, s: State, k: nat, r: Relay, step: Step): State
    requires !step.Insert? && !step.Tick? && !step.Accept? && !step.Select?
    requires k < |s.relays| && s.relays[k] == r && RelayEnabled(cfg, s, k, r, step)
  {
    match step
    case Lock(_) =>
      WithRelay(s, k, AfterLock(s, r, Least(r.phase.todo)))
    case Triage(_) =>
      WithRelay(s, k, r.(phase := Sending(Batch(r.held, CondemnedRows(cfg, s, r.held), {}, {}, {}, {}))))
    case Attempt(_, i) =>
      var b := r.phase.batch;
      WithRelay(s, k, r.(phase := Sending(b.(tried := b.tried + {i})))).(attempted := s.attempted + {i})
    case Confirm(_, i) =>
      var b := r.phase.batch;
      WithRelay(s, k, r.(phase := Sending(b.(confirmed := b.confirmed + {i}))))
    case Reject(_, i) =>
      var b := r.phase.batch;
      WithRelay(s, k, r.(phase := Sending(b.(poison := b.poison + {i}))))
    case Pass(_, i) =>
      var b := r.phase.batch;
      WithRelay(s, k, r.(phase := Sending(b.(passed := b.passed + {i}))))
    case Deadline(_, i) => WithRelay(s, k, r.(fatal := true))
    case DeadLetter(_, rows) => WithRelay(s, k, r.(phase := DeadLettered(r.phase.batch, rows)))
    case Delete(_) =>
      var b := r.phase.batch;
      WithRelay(s, k, r.(phase := Deleted(b, r.phase.letters, Finished(b))))
    case Commit(_, applied) =>
      var done := WithRelay(s, k, AfterBatch(r));
      if !applied then done
      else
        done.(table := s.table - r.phase.deletes,
              dlq := s.dlq + r.phase.letters,
              removed := s.removed + Endings(r.phase.batch))
    case Fail(_) => WithRelay(s, k, AfterBatch(r))
    case Abort(_) => WithRelay(s, k, r.(held := {}, live := false))
    case Restart(_) => WithRelay(s, k, FRESH)
  }

  // A run from s to t: every step is enabled where it is taken.
  ghost predicate Runs(cfg: Settings, s: State, steps: seq<Step>, t: State)
    decreases |steps|
  {
    if steps == [] then s == t
    else Enabled(cfg, s, steps[0]) && Runs(cfg, Apply(cfg, s, steps[0]), steps[1..], t)
  }

  ghost predicate ReachableIn(cfg: Settings, relays: nat, steps: seq<Step>, s: State) {
    Runs(cfg, Initial(relays), steps, s)
  }

  ghost predicate Reachable(cfg: Settings, s: State) {
    exists relays, steps :: ReachableIn(cfg, relays, steps, s)
  }

  // --- the invariant --------------------------------------------------------------------

  // A row no provider will ever accept, or one the max-age policy has dropped.
  predicate Unsendable(cfg: Settings, s: State, i: RowId)
    requires i in s.history
  {
    s.history[i].fate != Sendable || CondemnedByTriage(cfg, s.history[i], s.clock)
  }

  ghost predicate TablesInv(cfg: Settings, s: State) {
    && s.table <= s.history.Keys
    && s.removed.Keys == s.history.Keys - s.table
    && s.attempted <= s.history.Keys
    && (forall i :: i in s.log ==> i in s.attempted && s.history[i].fate == Sendable)
    && (forall i :: i in s.removed && s.removed[i] == Sent ==> i in s.log)
    && (forall i :: i in s.removed && s.removed[i] == Condemned ==> Unsendable(cfg, s, i))
    && DlqInv(cfg, s)
  }

  ghost predicate DlqInv(cfg: Settings, s: State) {
    && (forall p, q :: 0 <= p < q < |s.dlq| ==> s.dlq[p] != s.dlq[q])
    && (forall i :: i in s.dlq ==> i in s.removed && s.removed[i] == Condemned)
    && (cfg.dlq ==> forall i :: i in s.removed && s.removed[i] == Condemned ==> i in s.dlq)
    && (!cfg.dlq ==> s.dlq == [])
  }

  ghost predicate LockingInv(cfg: Settings, s: State, r: Relay)
    requires r.phase.Locking?
  {
    var todo := r.phase.todo;
    && (forall i :: i in todo + r.held ==> i in s.history && RouteAt(cfg, s, i).Some?)
    && (forall h, t :: h in r.held && t in todo ==> h < t)
    // The rows still to lock and the rows locked are, route by route, oldest first.
    && (r.live ==> forall i, j :: i in todo + r.held && j in s.table && j in s.history && j < i && SameRoute(cfg, s, i, j) ==> j in todo + r.held)
  }

  ghost predicate BatchInv(cfg: Settings, s: State, r: Relay, b: Batch) {
    && (forall i :: i in b.rows ==> i in s.history && RouteAt(cfg, s, i).Some?)
    && (r.live ==> b.rows == r.held)
    && b.condemned <= b.rows && b.tried <= b.rows - b.condemned && b.confirmed <= b.tried && b.poison <= b.rows - b.condemned
    && b.confirmed !! b.poison
    && b.passed <= b.tried
    && (forall i :: i in b.passed ==> RouteAt(cfg, s, i).Some? && RouteAt(cfg, s, i).value.target in cfg.strays)
    && b.tried <= s.attempted
    && (forall i :: i in b.confirmed ==> i in s.log)
    && (forall i :: i in b.poison ==> s.history[i].fate != Sendable)
    && (forall i :: i in b.condemned ==> CondemnedByTriage(cfg, s.history[i], s.clock))
    && (forall i :: i in b.rows && s.history[i].malformed ==> i in b.condemned)
    // Every older row of a batch row's route is in the batch or already removed.
    && (forall i, j :: i in b.rows && j in s.history && j < i && SameRoute(cfg, s, i, j) ==> j in b.rows || j !in s.table)
  }

  ghost predicate LettersInv(cfg: Settings, b: Batch, letters: seq<RowId>) {
    if cfg.dlq then IsLetterList(letters, b.condemned + b.poison) else letters == []
  }

  ghost predicate RelayInv(cfg: Settings, s: State, r: Relay) {
    && (if r.live then r.held <= s.table else r.held == {})
    && match r.phase
       case Idle => r.held == {} && !r.fatal
       case Stopped => r.held == {}
       case Locking(_) => LockingInv(cfg, s, r)
       case Sending(b) => BatchInv(cfg, s, r, b)
       case DeadLettered(b, letters) => BatchInv(cfg, s, r, b) && LettersInv(cfg, b, letters)
       case Deleted(b, letters, deletes) =>
         BatchInv(cfg, s, r, b) && LettersInv(cfg, b, letters) && deletes == Finished(b)
  }

  ghost predicate LocksDisjoint(s: State) {
    forall k, l :: 0 <= k < l < |s.relays| ==> s.relays[k].held !! s.relays[l].held
  }

  ghost predicate Invariant(cfg: Settings, s: State) {
    && TablesInv(cfg, s)
    && LocksDisjoint(s)
    && forall k :: 0 <= k < |s.relays| ==> RelayInv(cfg, s, s.relays[k])
  }

  // --- the invariant is inductive -----------------------------------------------------------

  // What any step may do to the shared state, seen by a relay that does not move.
  ghost predicate Grows(s: State, t: State) {
    && s.history.Keys <= t.history.Keys
    && (forall i :: i in s.history ==> t.history[i] == s.history[i])
    && (forall i, j :: i in s.history && j in t.history && j !in s.history ==> i < j)
    && (forall i :: i in t.table && i in s.history ==> i in s.table)
    && s.attempted <= t.attempted
    && (forall i :: i in s.log ==> i in t.log)
    && s.clock <= t.clock
  }

  lemma SameRouteStable(cfg: Settings, s: State, t: State, i: RowId, j: RowId)
    requires Grows(s, t) && i in s.history && j in s.history
    ensures RouteAt(cfg, t, i) == RouteAt(cfg, s, i)
    ensures SameRoute(cfg, t, i, j) <==> SameRoute(cfg, s, i, j)
  {
  }

  lemma LockingInvStable(cfg: Settings, s: State, t: State, r: Relay)
    requires r.phase.Locking? && LockingInv(cfg, s, r) && Grows(s, t)
    ensures LockingInv(cfg, t, r)
  {
    var rows := r.phase.todo + r.held;
    forall i | i in rows
      ensures i in t.history && RouteAt(cfg, t, i).Some?
    {
      SameRouteStable(cfg, s, t, i, i);
    }
    forall i, j | r.live && i in rows && j in t.table && j in t.history && j < i && SameRoute(cfg, t, i, j)
      ensures j in rows
    {
      SameRouteStable(cfg, s, t, i, j);
    }
  }

  lemma BatchInvStable(cfg: Settings, s: State, t: State, r: Relay, b: Batch)
    requires BatchInv(cfg, s, r, b) && Grows(s, t)
    ensures BatchInv(cfg, t, r, b)
  {
    forall i | i in b.rows
      ensures i in t.history && RouteAt(cfg, t, i).Some?
    {
      SameRouteStable(cfg, s, t, i, i);
    }
    forall i, j | i in b.rows && j in t.history && j < i && SameRoute(cfg, t, i, j)
      ensures j in b.rows || j !in t.table
    {
      SameRouteStable(cfg, s, t, i, j);
    }
  }

  lemma RelayInvStable(cfg: Settings, s: State, t: State, r: Relay)
    requires RelayInv(cfg, s, r) && Grows(s, t)
    requires r.held <= t.table
    ensures RelayInv(cfg, t, r)
  {
    match r.phase
    case Idle =>
    case Stopped =>
    case Locking(_) => LockingInvStable(cfg, s, t, r);
    case Sending(b) => BatchInvStable(cfg, s, t, r, b);
    case DeadLettered(b, _) => BatchInvStable(cfg, s, t, r, b);
    case Deleted(b, _, _) => BatchInvStable(cfg, s, t, r, b);
  }

  lemma InitialInvariant(cfg: Settings, n: nat)
    ensures Invariant(cfg, Initial(n))
  {
  }

  lemma OthersStable(cfg: Settings, s: State, t: State, k: nat)
    requires Invariant(cfg, s) && Grows(s, t) && k < |s.relays| == |t.relays|
    requires forall l :: 0 <= l < |s.relays| && l != k ==> t.relays[l] == s.relays[l] && s.relays[l].held <= t.table
    requires RelayInv(cfg, t, t.relays[k])
    ensures forall l :: 0 <= l < |t.relays| ==> RelayInv(cfg, t, t.relays[l])
  {
    forall l | 0 <= l < |t.relays| && l != k
      ensures RelayInv(cfg, t, t.relays[l])
    {
      RelayInvStable(cfg, s, t, s.relays[l]);
    }
  }

  // A step that changes nothing but one relay's own record.
  lemma RelayMoves(cfg: Settings, s: State, k: nat, r: Relay)
    requires Invariant(cfg, s) && k < |s.relays|
    requires RelayInv(cfg, s, r)
    requires forall l :: 0 <= l < |s.relays| && l != k ==> r.held !! s.relays[l].held
    ensures Invariant(cfg, WithRelay(s, k, r))
  {
    var t := WithRelay(s, k, r);
    assert Grows(s, t);
    RelayInvStable(cfg, s, t, r);
    forall l | 0 <= l < |s.relays| && l != k
      ensures s.relays[l].held <= t.table && t.relays[l] == s.relays[l]
    {
      assert RelayInv(cfg, s, s.relays[l]);
    }
    OthersStable(cfg, s, t, k);
    assert TablesInv(cfg, t);
  }

  lemma InsertKeeps(cfg: Settings, s: State, step: Step)
    requires Invariant(cfg, s) && Enabled(cfg, s, step) && step.Insert?
    ensures Invariant(cfg, Apply(cfg, s, step))
  {
    var id := step.id;
    var t := Apply(cfg, s, step);
    assert id !in s.history && id !in s.table;
    assert Grows(s, t);
    assert TablesInv(cfg, t) by {
      assert t.removed.Keys == t.history.Keys - t.table;
    }
    forall k | 0 <= k < |s.relays|
      ensures RelayInv(cfg, t, t.relays[k])
    {
      assert RelayInv(cfg, s, s.relays[k]);
      RelayInvStable(cfg, s, t, s.relays[k]);
    }
  }

  lemma TickKeeps(cfg: Settings, s: State, step: Step)
    requires Invariant(cfg, s) && Enabled(cfg, s, step) && step.Tick?
    ensures Invariant(cfg, Apply(cfg, s, step))
  {
    var t := Apply(cfg, s, step);
    assert Grows(s, t);
    forall k | 0 <= k < |s.relays|
      ensures RelayInv(cfg, t, t.relays[k])
    {
      assert RelayInv(cfg, s, s.relays[k]);
      RelayInvStable(cfg, s, t, s.relays[k]);
    }
  }

  lemma AcceptKeeps(cfg: Settings, s: State, step: Step)
    requires Invariant(cfg, s) && Enabled(cfg, s, step) && step.Accept?
    ensures Invariant(cfg, Apply(cfg, s, step))
  {
    var t := Apply(cfg, s, step);
    assert Grows(s, t);
    forall k | 0 <= k < |s.relays|
      ensures RelayInv(cfg, t, t.relays[k])
    {
      assert RelayInv(cfg, s, s.relays[k]);
      RelayInvStable(cfg, s, t, s.relays[k]);
    }
  }

  lemma SelectKeeps(cfg: Settings, s: State, step: Step)
    requires Invariant(cfg, s) && Enabled(cfg, s, step) && step.Select?
    ensures Invariant(cfg, Apply(cfg, s, step))
  {
    var k, target := step.k, step.target;
    var snapshot := Snapshot(s);
    var todo := SelectedIds(cfg.routing, snapshot, target);
    var r := s.relays[k].(phase := Locking(todo), held := {}, live := true);
    assert RelayInv(cfg, s, s.relays[k]);
    forall i, j | i in todo && j in s.table && j in s.history && j < i && SameRoute(cfg, s, i, j)
      ensures j in todo
    {
      SelectionIsRoutePrefix(cfg.routing, snapshot, target, i, j);
    }
    assert LockingInv(cfg, s, r);
    RelayMoves(cfg, s, k, r);
  }

  lemma LockingAdvances(cfg: Settings, s: State, r: Relay, m: RowId)
    requires r.phase.Locking? && r.live && LockingInv(cfg, s, r) && IsLeast(r.phase.todo, m)
    ensures LockingInv(cfg, s, AfterLock(s, r, m))
  {
    var next := AfterLock(s, r, m);
    var rows := r.phase.todo + r.held;
    assert next.phase.todo + next.held == if m in s.table then rows else (rows - {m}) + (next.held * {m});
    forall h, t | h in next.held && t in next.phase.todo
      ensures h < t
    {
      assert t in r.phase.todo && t != m;
    }
    forall i, j | i in next.phase.todo + next.held && j in s.table && j in s.history && j < i && SameRoute(cfg, s, i, j)
      ensures j in next.phase.todo + next.held
    {
      assert i in rows && j in rows;
    }
  }

  lemma LockKeeps(cfg: Settings, s: State, step: Step)
    requires Invariant(cfg, s) && Enabled(cfg, s, step) && step.Lock?
    ensures Invariant(cfg, Apply(cfg, s, step))
  {
    var k := step.k;
    var r := s.relays[k];
    assert RelayInv(cfg, s, r);
    var m := Least(r.phase.todo);
    var next := AfterLock(s, r, m);
    OthersDisjoint(s, k);
    forall l | 0 <= l < |s.relays| && l != k
      ensures next.held !! s.relays[l].held
    {
      assert m in s.table ==> m !in s.relays[l].held;
    }
    LockingAdvances(cfg, s, r, m);
    RelayMoves(cfg, s, k, next);
  }

  lemma TriageKeeps(cfg: Settings, s: State, step: Step)
    requires Invariant(cfg, s) && Enabled(cfg, s, step) && step.Triage?
    ensures Invariant(cfg, Apply(cfg, s, step))
  {
    var k := step.k;
    var r := s.relays[k];
    assert RelayInv(cfg, s, r);
    var b := Batch(r.held, CondemnedRows(cfg, s, r.held), {}, {}, {}, {});
    var next := r.(phase := Sending(b));
    assert forall i :: i in r.held ==> i in r.phase.todo + r.held;
    assert BatchInv(cfg, s, next, b);
    OthersDisjoint(s, k);
    RelayMoves(cfg, s, k, next);
  }

  lemma OthersDisjoint(s: State, k: nat)
    requires LocksDisjoint(s) && k < |s.relays|
    ensures forall l :: 0 <= l < |s.relays| && l != k ==> s.relays[k].held !! s.relays[l].held
  {
  }

  // A relay that holds what it held, in a phase whose batch keeps its invariant.
  lemma BatchMoves(cfg: Settings, s: State, k: nat, next: Relay)
    requires Invariant(cfg, s) && k < |s.relays| && next.phase.Sending?
    requires next.held == s.relays[k].held && next.live == s.relays[k].live && BatchInv(cfg, s, next, next.phase.batch)
    ensures Invariant(cfg, WithRelay(s, k, next))
  {
    assert RelayInv(cfg, s, s.relays[k]);
    OthersDisjoint(s, k);
    RelayMoves(cfg, s, k, next);
  }

  lemma RecordKeeps(cfg: Settings, s: State, step: Step)
    requires Invariant(cfg, s) && Enabled(cfg, s, step) && (step.Confirm? || step.Reject? || step.Pass? || step.Deadline?)
    ensures Invariant(cfg, Apply(cfg, s, step))
  {
    var k := step.k;
    assert RelayInv(cfg, s, s.relays[k]);
    var next := Apply(cfg, s, step).relays[k];
    assert Apply(cfg, s, step) == WithRelay(s, k, next);
    BatchMoves(cfg, s, k, next);
  }

  lemma WriteKeeps(cfg: Settings, s: State, step: Step)
    requires Invariant(cfg, s) && Enabled(cfg, s, step) && (step.DeadLetter? || step.Delete?)
    ensures Invariant(cfg, Apply(cfg, s, step))
  {
    var k := step.k;
    assert RelayInv(cfg, s, s.relays[k]);
    OthersDisjoint(s, k);
    var next := Apply(cfg, s, step).relays[k];
    assert BatchInv(cfg, s, next, next.phase.batch);
    assert Apply(cfg, s, step) == WithRelay(s, k, next);
    RelayMoves(cfg, s, k, next);
  }

  lemma AttemptKeeps(cfg: Settings, s: State, step: Step)
    requires Invariant(cfg, s) && Enabled(cfg, s, step) && step.Attempt?
    ensures Invariant(cfg, Apply(cfg, s, step))
  {
    var k, i := step.k, step.i;
    var t := Apply(cfg, s, step);
    var r := s.relays[k];
    assert RelayInv(cfg, s, r);
    assert Grows(s, t);
    forall l | 0 <= l < |s.relays| && l != k
      ensures s.relays[l].held <= t.table
    {
      assert RelayInv(cfg, s, s.relays[l]);
    }
    BatchInvStable(cfg, s, t, r, r.phase.batch);
    assert RelayInv(cfg, t, t.relays[k]);
    OthersStable(cfg, s, t, k);
  }

  // Steps that end a batch, or a transaction, without changing the tables.
  predicate IsEndStep(step: Step) {
    step.Fail? || step.Abort? || step.Restart? || (step.Commit? && !step.applied)
  }

  lemma EndStepKeeps(cfg: Settings, s: State, step: Step)
    requires Invariant(cfg, s) && Enabled(cfg, s, step) && IsEndStep(step)
    ensures Invariant(cfg, Apply(cfg, s, step))
  {
    var k := step.k;
    var next := Apply(cfg, s, step).relays[k];
    assert RelayInv(cfg, s, s.relays[k]);
    assert RelayInv(cfg, s, next);
    assert Apply(cfg, s, step) == WithRelay(s, k, next);
    RelayMoves(cfg, s, k, next);
  }

  // The rows a commit removes were still in the table, so none had been removed or
  // dead-lettered before, and exactly the condemned and poison ones get a letter.
  lemma CommitTables(cfg: Settings, s: State, t: State, r: Relay, b: Batch, letters: seq<RowId>)
    requires TablesInv(cfg, s) && BatchInv(cfg, s, r, b) && LettersInv(cfg, b, letters)
    requires r.live && r.held <= s.table
    requires t == s.(table := s.table - Finished(b), dlq := s.dlq + letters, removed := s.removed + Endings(b), relays := t.relays)
    ensures TablesInv(cfg, t)
  {
    assert t.removed.Keys == t.history.Keys - t.table;
    assert forall i :: i in s.removed ==> i !in Finished(b) && t.removed[i] == s.removed[i];
    assert forall i :: i in Finished(b) ==> i in t.removed && t.removed[i] == if i in b.confirmed then Sent else Condemned;
    CommitDlq(cfg, s, t, b, letters);
  }

  lemma CommitDlq(cfg: Settings, s: State, t: State, b: Batch, letters: seq<RowId>)
    requires DlqInv(cfg, s) && LettersInv(cfg, b, letters)
    requires t.dlq == s.dlq + letters
    requires b.confirmed !! b.condemned + b.poison
    requires forall i :: i in s.removed ==> i in t.removed && t.removed[i] == s.removed[i]
    requires forall i :: i in b.condemned + b.poison + b.confirmed ==> i !in s.removed && i in t.removed
    requires forall i :: i in b.condemned + b.poison + b.confirmed ==> t.removed[i] == if i in b.confirmed then Sent else Condemned
    requires forall i :: i in t.removed ==> i in s.removed || i in b.condemned + b.poison + b.confirmed
    ensures DlqInv(cfg, t)
  {
    forall p, q | 0 <= p < q < |t.dlq|
      ensures t.dlq[p] != t.dlq[q]
    {
      if p < |s.dlq| <= q {
        assert t.dlq[p] in s.dlq && t.dlq[q] in letters;
      }
    }
  }

  lemma CommitKeeps(cfg: Settings, s: State, step: Step)
    requires Invariant(cfg, s) && Enabled(cfg, s, step) && step.Commit? && step.applied
    ensures Invariant(cfg, Apply(cfg, s, step))
  {
    var k := step.k;
    var t := Apply(cfg, s, step);
    assert RelayInv(cfg, s, s.relays[k]);
    assert Grows(s, t);
    OthersDisjoint(s, k);
    forall l | 0 <= l < |s.relays| && l != k
      ensures t.relays[l] == s.relays[l] && s.relays[l].held <= t.table
    {
      assert RelayInv(cfg, s, s.relays[l]);
    }
    assert RelayInv(cfg, t, t.relays[k]);
    OthersStable(cfg, s, t, k);
    CommitTables(cfg, s, t, s.relays[k], s.relays[k].phase.batch, s.relays[k].phase.letters);
  }

  lemma StepKeeps(cfg: Settings, s: State, step: Step)
    requires Invariant(cfg, s) && Enabled(cfg, s, step)
    ensures Invariant(cfg, Apply(cfg, s, step))
  {
    if step.Insert? {
      InsertKeeps(cfg, s, step);
    } else if step.Tick? {
      TickKeeps(cfg, s, step);
    } else if step.Accept? {
      AcceptKeeps(cfg, s, step);
    } else if step.Select? {
      SelectKeeps(cfg, s, step);
    } else if step.Lock? {
      LockKeeps(cfg, s, step);
    } else if step.Triage? {
      TriageKeeps(cfg, s, step);
    } else if step.Attempt? {
      AttemptKeeps(cfg, s, step);
    } else if step.Commit? && step.applied {
      CommitKeeps(cfg, s, step);
    } else if IsEndStep(step) {
      EndStepKeeps(cfg, s, step);
    } else if step.DeadLetter? || step.Delete? {
      WriteKeeps(cfg, s, step);
    } else {
      RecordKeeps(cfg, s, step);
    }
  }

  lemma {:induction false} RunKeeps(cfg: Settings, s: State, steps: seq<Step>, t: State)
    requires Invariant(cfg, s) && Runs(cfg, s, steps, t)
    ensures Invariant(cfg, t)
    decreases |steps|
  {
    if steps != [] {
      StepKeeps(cfg, s, steps[0]);
      RunKeeps(cfg, Apply(cfg, s, steps[0]), steps[1..], t);
    }
  }

  lemma ReachableInvariant(cfg: Settings, s: State)
    requires Reachable(cfg, s)
    ensures Invariant(cfg, s)
  {
    var relays, steps :| ReachableIn(cfg, relays, steps, s);
    InitialInvariant(cfg, relays);
    RunKeeps(cfg, Initial(relays), steps, s);
  }

  // --- at least once ----------------------------------------------------------------------

  /** In every reachable state each row ever inserted is still in the outbox, has been
      accepted by a provider, or is unsendable; a sendable and well-formed row that is gone
      before its maximum age has passed was accepted. */
  lemma NothingLost(cfg: Settings, s: State, i: RowId)
    requires Reachable(cfg, s) && i in s.history
    ensures i in s.table || i in s.log || Unsendable(cfg, s, i)
    ensures i !in s.table && s.history[i].fate == Sendable && !s.history[i].malformed
            && (cfg.maxAge == 0 || s.history[i].timestamp.None? || s.clock <= s.history[i].timestamp.value + cfg.maxAge)
            ==> i in s.log
    ensures i in s.log ==> s.history[i].fate == Sendable
  {
    ReachableInvariant(cfg, s);
    if i !in s.table {
      assert i in s.removed;
    }
  }

  lemma {:induction false} RowsStay(cfg: Settings, s: State, steps: seq<Step>, t: State)
    requires Runs(cfg, s, steps, t) && Invariant(cfg, s)
    ensures forall i :: i in s.log ==> i in t.log
    decreases |steps|
  {
    if steps != [] {
      StepKeeps(cfg, s, steps[0]);
      RowsStay(cfg, Apply(cfg, s, steps[0]), steps[1..], t);
    }
  }

  /** So a sendable, well-formed row that left the outbox in time has been accepted, however
      long ago that was. */
  lemma LeftInTime(cfg: Settings, s: State, steps: seq<Step>, t: State, i: RowId)
    requires Reachable(cfg, s) && Runs(cfg, s, steps, t) && i in s.history && i !in s.table
    requires s.history[i].fate == Sendable && !s.history[i].malformed
    requires cfg.maxAge == 0 || s.history[i].timestamp.None? || s.clock <= s.history[i].timestamp.value + cfg.maxAge
    ensures i in t.log
  {
    ReachableInvariant(cfg, s);
    NothingLost(cfg, s, i);
    RowsStay(cfg, s, steps, t);
  }

  function Occurrences(rows: seq<RowId>, i: RowId): nat {
    if rows == [] then 0
    else Occurrences(rows[..|rows| - 1], i) + if rows[|rows| - 1] == i then 1 else 0
  }

  lemma {:induction false} DistinctOccurrences(rows: seq<RowId>, i: RowId)
    requires forall p, q :: 0 <= p < q < |rows| ==> rows[p] != rows[q]
    ensures Occurrences(rows, i) == if i in rows then 1 else 0
  {
    if rows != [] {
      var init, last := rows[..|rows| - 1], rows[|rows| - 1];
      DistinctOccurrences(init, i);
      assert rows == init + [last];
      assert i in rows <==> i in init || i == last;
    }
  }

  /** With a dead-letter table configured, a row has exactly one dead letter if it was
      removed as condemned or poison and none otherwise; the outbox and the dead-letter
      table never share a row. Without one, nothing is ever dead-lettered. */
  lemma DeadLettersExact(cfg: Settings, s: State, i: RowId)
    requires Reachable(cfg, s) && i in s.history
    ensures cfg.dlq ==> Occurrences(s.dlq, i) == if i in s.removed && s.removed[i] == Condemned then 1 else 0
    ensures !cfg.dlq ==> s.dlq == []
    ensures i in s.dlq ==> i !in s.table && Unsendable(cfg, s, i)
    ensures i in s.removed <==> i !in s.table
  {
    ReachableInvariant(cfg, s);
    DistinctOccurrences(s.dlq, i);
  }

  // --- one relay per route -------------------------------------------------------------------

  // The rows a relay has locked are, route by route, the oldest rows of the table.
  lemma HeldIsRoutePrefix(cfg: Settings, s: State, k: nat, i: RowId, j: RowId)
    requires Invariant(cfg, s) && k < |s.relays|
    requires i in s.relays[k].held && j in s.table && j < i && SameRoute(cfg, s, i, j)
    ensures j in s.relays[k].held
  {
    var r := s.relays[k];
    assert RelayInv(cfg, s, r);
    match r.phase
    case Locking(todo) =>
      assert i in todo + r.held;
      assert j in todo + r.held;
    case Sending(b) => assert BatchInv(cfg, s, r, b);
    case DeadLettered(b, _) => assert BatchInv(cfg, s, r, b);
    case Deleted(b, _, _) => assert BatchInv(cfg, s, r, b);
    case _ =>
  }

  /** Two relays never hold locks on rows of the same route at the same time, at any
      point of their batches. */
  lemma RouteExclusive(cfg: Settings, s: State, k: nat, l: nat, i: RowId, j: RowId)
    requires Reachable(cfg, s) && k < |s.relays| && l < |s.relays| && k != l
    requires i in s.relays[k].held && j in s.relays[l].held
    ensures i != j && !SameRoute(cfg, s, i, j)
  {
    ReachableInvariant(cfg, s);
    OthersDisjoint(s, k);
    assert RelayInv(cfg, s, s.relays[k]) && RelayInv(cfg, s, s.relays[l]);
    if SameRoute(cfg, s, i, j) {
      if i < j {
        HeldIsRoutePrefix(cfg, s, l, j, i);
      } else if j < i {
        HeldIsRoutePrefix(cfg, s, k, i, j);
      }
    }
  }

  // --- lock waits -------------------------------------------------------------------------------

  // Relay k's FOR UPDATE is blocked on a row relay l has locked.
  ghost predicate Waits(s: State, k: nat, l: nat) {
    && k < |s.relays| && l < |s.relays| && k != l
    && var r := s.relays[k];
       r.phase.Locking? && r.live && r.phase.todo != {} && Least(r.phase.todo) in s.table
       && Least(r.phase.todo) in s.relays[l].held
  }

  ghost predicate Blocked(s: State, k: nat) {
    exists l :: Waits(s, k, l)
  }

  ghost function WaitRow(s: State, k: nat): RowId
    requires Blocked(s, k)
  {
    Least(s.relays[k].phase.todo)
  }

  lemma WaitsAscend(cfg: Settings, s: State, k: nat, l: nat)
    requires Invariant(cfg, s) && Waits(s, k, l) && Blocked(s, l)
    ensures WaitRow(s, k) < WaitRow(s, l)
  {
    assert RelayInv(cfg, s, s.relays[l]);
  }

  /** Lock waits never form a cycle: no chain of waiting relays returns to its start. */
  lemma {:induction false} NoWaitCycle(cfg: Settings, s: State, chain: seq<nat>)
    requires Reachable(cfg, s) && |chain| >= 2
    requires forall n :: 0 < n < |chain| ==> Waits(s, chain[n - 1], chain[n])
    ensures chain[0] != chain[|chain| - 1]
  {
    ReachableInvariant(cfg, s);
    if chain[0] == chain[|chain| - 1] {
      assert Waits(s, chain[0], chain[1]);
      ChainAscends(cfg, s, chain, |chain| - 1);
    }
  }

  lemma {:induction false} ChainAscends(cfg: Settings, s: State, chain: seq<nat>, n: nat)
    requires Invariant(cfg, s) && 0 < n < |chain|
    requires forall m :: 0 < m < |chain| ==> Waits(s, chain[m - 1], chain[m])
    requires Blocked(s, chain[n])
    ensures Blocked(s, chain[0]) && WaitRow(s, chain[0]) < WaitRow(s, chain[n])
  {
    assert Waits(s, chain[n - 1], chain[n]);
    WaitsAscend(cfg, s, chain[n - 1], chain[n]);
    if n > 1 {
      ChainAscends(cfg, s, chain, n - 1);
    }
  }

  // A step by which a relay moves its own batch forward.
  predicate Advances(step: Step, k: nat) {
    (step.Lock? || step.Triage? || step.DeadLetter? || step.Delete? || step.Commit?) && step.k == k
  }

  /** Whenever a relay waits for a lock, some relay that holds locks can go on with its
      batch, and so will release them. */
  lemma SomeHolderAdvances(cfg: Settings, s: State, k: nat) returns (l: nat, step: Step)
    requires Reachable(cfg, s) && Blocked(s, k)
    ensures l < |s.relays| && s.relays[l].held != {} && Advances(step, l) && Enabled(cfg, s, step)
  {
    ReachableInvariant(cfg, s);
    l := UnblockedHolder(cfg, s, k, {});
    step := CanAdvance(cfg, s, l);
  }

  lemma {:induction false} UnblockedHolder(cfg: Settings, s: State, k: nat, seen: set<nat>) returns (l: nat)
    requires Invariant(cfg, s) && Blocked(s, k)
    requires forall x :: x in seen ==> x < |s.relays| && Blocked(s, x) && WaitRow(s, x) < WaitRow(s, k)
    ensures l < |s.relays| && s.relays[l].held != {} && !Blocked(s, l)
    decreases |s.relays| - |seen|
  {
    l :| Waits(s, k, l);
    if Blocked(s, l) {
      WaitsAscend(cfg, s, k, l);
      SubsetSize(seen + {k}, Indices(|s.relays|));
      assert k !in seen;
      l := UnblockedHolder(cfg, s, l, seen + {k});
    }
  }

  function Indices(n: nat): (r: set<nat>)
    ensures |r| == n && forall x: nat :: x in r <==> x < n
  {
    if n == 0 then {} else Indices(n - 1) + {n - 1}
  }

  lemma CanAdvance(cfg: Settings, s: State, l: nat) returns (step: Step)
    requires Invariant(cfg, s) && l < |s.relays| && s.relays[l].held != {} && !Blocked(s, l)
    ensures Advances(step, l) && Enabled(cfg, s, step)
  {
    var r := s.relays[l];
    assert RelayInv(cfg, s, r);
    if r.phase.Locking? {
      step := LockingCanAdvance(cfg, s, l);
    } else if r.phase.Sending? {
      var letters := EnumerateRows(r.phase.batch.condemned + r.phase.batch.poison);
      step := DeadLetter(l, if cfg.dlq then letters else []);
    } else {
      step := if r.phase.DeadLettered? then Delete(l) else Commit(l, true);
    }
  }

  lemma LockingCanAdvance(cfg: Settings, s: State, l: nat) returns (step: Step)
    requires l < |s.relays| && s.relays[l].phase.Locking? && s.relays[l].live && !Blocked(s, l)
    ensures Advances(step, l) && Enabled(cfg, s, step)
  {
    var r := s.relays[l];
    if r.phase.todo == {} {
      step := Triage(l);
    } else {
      step := Lock(l);
      forall x: nat | x < |s.relays| && x != l && Least(r.phase.todo) in s.table
        ensures Least(r.phase.todo) !in s.relays[x].held
      {
        assert !Waits(s, l, x);
      }
    }
  }

  lemma EnumerateRows(s: set<RowId>) returns (rows: seq<RowId>)
    ensures IsLetterList(rows, s)
    decreases |s|
  {
    rows := [];
    if s != {} {
      var i :| i in s;
      var rest := EnumerateRows(s - {i});
      rows := rest + [i];
      assert forall x :: x in rows <==> x in rest || x == i;
    }
  }

  // --- ordering --------------------------------------------------------------------------------------

  // Whatever was handed to a provider on this route, everything older in its group is
  // accepted or will never be.
  ghost predicate OrderInv(cfg: Settings, s: State, route: Route) {
    forall a, b :: b in s.attempted && RouteAt(cfg, s, b) == Some(route) && a in s.history && a < b && SameGroup(cfg, s, b, a)
      ==> a in s.log || s.history[a].fate != Sendable
  }

  // No acceptance on this route overtakes an older sendable row of its group.
  ghost predicate GapFree(cfg: Settings, s: State, route: Route) {
    forall p, a :: 0 <= p < |s.log| && RouteAt(cfg, s, s.log[p]) == Some(route) && a in s.history && a < s.log[p]
                   && s.log[p] in s.history && SameGroup(cfg, s, s.log[p], a)
      ==> a in s.log[..p] || s.history[a].fate != Sendable
  }

  // First acceptances of every group on this route come in id order.
  ghost predicate InOrder(cfg: Settings, s: State, route: Route) {
    forall p, a :: 0 <= p < |s.log| && RouteAt(cfg, s, s.log[p]) == Some(route) && a in s.log && a < s.log[p]
                   && s.log[p] in s.history && a in s.history && SameGroup(cfg, s, s.log[p], a)
      ==> a in s.log[..p]
  }

  // No maximum age, and a provider whose answers settle only what they were asked about.
  predicate KeepsOrder(cfg: Settings, route: Route) {
    cfg.maxAge == 0 && route.target !in cfg.strays
  }

  // The heart of the ordering proof: when a row is handed to a provider, every older
  // row of its group is in the same batch with a recorded outcome, or already gone.
  lemma AttemptIsOrdered(cfg: Settings, s: State, step: Step, route: Route, a: RowId)
    requires Invariant(cfg, s) && Enabled(cfg, s, step) && step.Attempt? && KeepsOrder(cfg, route)
    requires RouteAt(cfg, s, step.i) == Some(route)
    requires a in s.history && a < step.i && SameGroup(cfg, s, step.i, a)
    ensures a in s.log || s.history[a].fate != Sendable
  {
    var r := s.relays[step.k];
    var b := r.phase.batch;
    assert RelayInv(cfg, s, r);
    assert BatchInv(cfg, s, r, b);
    if a in b.rows {
      assert a !in b.condemned && a !in b.passed;
      assert a in b.confirmed + b.poison;
    } else {
      assert a in s.removed;
    }
  }

  lemma OrderAttempt(cfg: Settings, s: State, t: State, route: Route, i: RowId)
    requires OrderInv(cfg, s, route) && t.history == s.history && t.log == s.log && t.attempted == s.attempted + {i}
    requires RouteAt(cfg, s, i) == Some(route) ==>
               forall a :: a in s.history && a < i && SameGroup(cfg, s, i, a) ==> a in s.log || s.history[a].fate != Sendable
    ensures OrderInv(cfg, t, route)
    ensures GapFree(cfg, s, route) ==> GapFree(cfg, t, route)
  {
    assert forall a, b :: SameGroup(cfg, t, b, a) <==> SameGroup(cfg, s, b, a);
    assert forall b :: RouteAt(cfg, t, b) == RouteAt(cfg, s, b);
  }

  lemma OrderAccept(cfg: Settings, s: State, t: State, route: Route, i: RowId)
    requires OrderInv(cfg, s, route) && GapFree(cfg, s, route) && i in s.attempted
    requires t == s.(log := s.log + [i])
    ensures OrderInv(cfg, t, route) && GapFree(cfg, t, route)
  {
    forall p, a | 0 <= p < |t.log| && RouteAt(cfg, t, t.log[p]) == Some(route) && a in t.history && a < t.log[p]
                  && t.log[p] in t.history && SameGroup(cfg, t, t.log[p], a)
      ensures a in t.log[..p] || t.history[a].fate != Sendable
    {
      assert SameGroup(cfg, s, t.log[p], a);
      if p < |s.log| {
        assert t.log[..p] == s.log[..p];
      } else {
        assert t.log[..p] == s.log;
      }
    }
  }

  lemma OrderInsert(cfg: Settings, s: State, t: State, route: Route, id: RowId, message: Message)
    requires TablesInv(cfg, s) && OrderInv(cfg, s, route) && GapFree(cfg, s, route)
    requires forall i :: i in s.history ==> i < id
    requires t == s.(history := s.history[id := message], table := s.table + {id})
    ensures OrderInv(cfg, t, route) && GapFree(cfg, t, route)
  {
    forall a, b | a in t.history && a < b && b in s.history && SameGroup(cfg, t, b, a)
      ensures a in s.history && SameGroup(cfg, s, b, a) && t.history[a] == s.history[a]
    {
    }
  }

  lemma OrderFrame(cfg: Settings, s: State, t: State, route: Route)
    requires OrderInv(cfg, s, route) && GapFree(cfg, s, route)
    requires t.history == s.history && t.log == s.log && t.attempted == s.attempted
    ensures OrderInv(cfg, t, route) && GapFree(cfg, t, route)
  {
    assert forall a, b :: SameGroup(cfg, t, b, a) <==> SameGroup(cfg, s, b, a);
    assert forall b :: RouteAt(cfg, t, b) == RouteAt(cfg, s, b);
  }

  lemma OrderStep(cfg: Settings, s: State, step: Step, route: Route)
    requires Invariant(cfg, s) && Enabled(cfg, s, step) && KeepsOrder(cfg, route)
    requires OrderInv(cfg, s, route) && GapFree(cfg, s, route)
    ensures OrderInv(cfg, Apply(cfg, s, step), route) && GapFree(cfg, Apply(cfg, s, step), route)
  {
    var t := Apply(cfg, s, step);
    if step.Attempt? {
      forall a | RouteAt(cfg, s, step.i) == Some(route) && a in s.history && a < step.i && SameGroup(cfg, s, step.i, a) {
        AttemptIsOrdered(cfg, s, step, route, a);
      }
      OrderAttempt(cfg, s, t, route, step.i);
    } else if step.Accept? {
      OrderAccept(cfg, s, t, route, step.i);
    } else if step.Insert? {
      OrderInsert(cfg, s, t, route, step.id, step.message);
    } else {
      OrderFrame(cfg, s, t, route);
    }
  }

  lemma {:induction false} OrderRun(cfg: Settings, s: State, steps: seq<Step>, t: State, route: Route)
    requires Invariant(cfg, s) && Runs(cfg, s, steps, t) && KeepsOrder(cfg, route)
    requires OrderInv(cfg, s, route) && GapFree(cfg, s, route)
    ensures GapFree(cfg, t, route)
    decreases |steps|
  {
    if steps != [] {
      StepKeeps(cfg, s, steps[0]);
      OrderStep(cfg, s, steps[0], route);
      OrderRun(cfg, Apply(cfg, s, steps[0]), steps[1..], t, route);
    }
  }

  /** Without a max-age policy, and with a provider that never settles a stray entry, no
      acceptance on a route ever overtakes an older sendable row of its ordering group,
      in any run of any number of relays. */
  lemma AcceptancesAreGapFree(cfg: Settings, s: State, route: Route)
    requires Reachable(cfg, s) && KeepsOrder(cfg, route)
    ensures GapFree(cfg, s, route)
  {
    var relays, steps :| ReachableIn(cfg, relays, steps, s);
    InitialInvariant(cfg, relays);
    OrderRun(cfg, Initial(relays), steps, s, route);
  }

  lemma ReachStep(cfg: Settings, s: State, step: Step)
    requires Reachable(cfg, s) && Enabled(cfg, s, step)
    ensures Reachable(cfg, Apply(cfg, s, step))
  {
    var relays, steps :| ReachableIn(cfg, relays, steps, s);
    RunAppend(cfg, Initial(relays), steps, s, step);
    assert ReachableIn(cfg, relays, steps + [step], Apply(cfg, s, step));
  }

  lemma {:induction false} RunAppend(cfg: Settings, s: State, steps: seq<Step>, t: State, step: Step)
    requires Runs(cfg, s, steps, t) && Enabled(cfg, t, step)
    ensures Runs(cfg, s, steps + [step], Apply(cfg, t, step))
    decreases |steps|
  {
    if steps == [] {
      assert [step][1..] == [];
    } else {
      assert (steps + [step])[1..] == steps[1..] + [step];
      RunAppend(cfg, Apply(cfg, s, steps[0]), steps[1..], t, step);
    }
  }
}

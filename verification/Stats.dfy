/** appStats: cumulative counters, last-batch gauges and the baseline of the periodic
    log line, stated between committed batches.
 */
module Stats {

  // One set of counters: a snapshot, a delta, or one batch's contribution.
  datatype Counters = Counters(
    selected: int, sent: int, poison: int, dlq: int, keptForRetry: int,
    batchesProcessed: int, batchErrors: int, senderErrors: int, fatalAfterCommitErrors: int)
  {
    // Every selected event is accounted for exactly once.
    predicate Balanced() {
      selected == sent + poison + dlq + keptForRetry
    }
  }

  function Sub(a: Counters, b: Counters): Counters {
    Counters(a.selected - b.selected, a.sent - b.sent, a.poison - b.poison, a.dlq - b.dlq,
             a.keptForRetry - b.keptForRetry, a.batchesProcessed - b.batchesProcessed,
             a.batchErrors - b.batchErrors, a.senderErrors - b.senderErrors,
             a.fatalAfterCommitErrors - b.fatalAfterCommitErrors)
  }

  function Plus(a: Counters, b: Counters): Counters {
    Counters(a.selected + b.selected, a.sent + b.sent, a.poison + b.poison, a.dlq + b.dlq,
             a.keptForRetry + b.keptForRetry, a.batchesProcessed + b.batchesProcessed,
             a.batchErrors + b.batchErrors, a.senderErrors + b.senderErrors,
             a.fatalAfterCommitErrors + b.fatalAfterCommitErrors)
  }

  const ZERO := Counters(0, 0, 0, 0, 0, 0, 0, 0, 0)

  // The last-batch gauges of one batch, in milliseconds: the age of its oldest event and
  // the time it published and worked in the database.
  datatype Timing = Timing(oldestEventAge: nat, publish: nat, db: nat)

  datatype BatchStats = BatchStats(
    selected: nat, sent: nat, poison: nat, dlq: nat, keptForRetry: nat, senderErrors: nat, fatalAfterCommitErrors: nat,
    timing: Timing)

  function BatchCounters(batch: BatchStats): Counters {
    Counters(batch.selected, batch.sent, batch.poison, batch.dlq, batch.keptForRetry, 1, 0,
             batch.senderErrors, batch.fatalAfterCommitErrors)
  }

  class AppStats {
    var selected: int
    var sent: int
    var poison: int
    var dlq: int
    var keptForRetry: int
    var batchesProcessed: int
    var batchErrors: int
    var senderErrors: int
    var fatalAfterCommitErrors: int

    var lastBatchSelected: int
    var lastBatchKeptForRetry: int
    var oldestEventAge: nat
    var lastSuccess: int
    var lastBatchPublish: nat
    var lastBatchDb: nat
    var backlogEvents: int
    var backlogFloor: bool

    var lastLogged: Counters

    constructor (now: int)
      ensures Totals() == ZERO && lastLogged == ZERO && lastSuccess == now
      ensures backlogEvents == 0 && backlogFloor
    {
      selected, sent, poison, dlq, keptForRetry := 0, 0, 0, 0, 0;
      batchesProcessed, batchErrors, senderErrors, fatalAfterCommitErrors := 0, 0, 0, 0;
      lastBatchSelected, lastBatchKeptForRetry, lastSuccess := 0, 0, now;
      oldestEventAge, lastBatchPublish, lastBatchDb := 0, 0, 0;
      backlogEvents, backlogFloor := 0, true;
      lastLogged := ZERO;
    }

    function Totals(): Counters
      reads this
    {
      Counters(selected, sent, poison, dlq, keptForRetry, batchesProcessed, batchErrors, senderErrors, fatalAfterCommitErrors)
    }

    function LastTiming(): Timing
      reads this
    {
      Timing(oldestEventAge, lastBatchPublish, lastBatchDb)
    }

    method AddCommittedBatch(batch: BatchStats, now: int)
      modifies this
      ensures Totals() == Plus(old(Totals()), BatchCounters(batch))
      ensures batchesProcessed == old(batchesProcessed) + 1 && batchErrors == old(batchErrors)
      ensures senderErrors == old(senderErrors) + batch.senderErrors
      ensures fatalAfterCommitErrors == old(fatalAfterCommitErrors) + batch.fatalAfterCommitErrors
      ensures lastBatchSelected == batch.selected && lastBatchKeptForRetry == batch.keptForRetry && lastSuccess == now
      ensures LastTiming() == batch.timing
      ensures lastLogged == old(lastLogged) && backlogEvents == old(backlogEvents) && backlogFloor == old(backlogFloor)
    {
      AddOutcomes(batch);
      senderErrors := senderErrors + batch.senderErrors;
      fatalAfterCommitErrors := fatalAfterCommitErrors + batch.fatalAfterCommitErrors;
      batchesProcessed := batchesProcessed + 1;

      lastBatchSelected := batch.selected;
      lastBatchKeptForRetry := batch.keptForRetry;
      oldestEventAge := batch.timing.oldestEventAge;
      lastSuccess := now;
      lastBatchPublish := batch.timing.publish;
      lastBatchDb := batch.timing.db;
    }

    // The counters that account for the batch's events.
    method AddOutcomes(batch: BatchStats)
      modifies this`selected, this`sent, this`poison, this`dlq, this`keptForRetry
      ensures selected == old(selected) + batch.selected
      ensures sent == old(sent) + batch.sent
      ensures poison == old(poison) + batch.poison
      ensures dlq == old(dlq) + batch.dlq
      ensures keptForRetry == old(keptForRetry) + batch.keptForRetry
    {
      selected := selected + batch.selected;
      sent := sent + batch.sent;
      poison := poison + batch.poison;
      dlq := dlq + batch.dlq;
      keptForRetry := keptForRetry + batch.keptForRetry;
    }

    method AddBatchError()
      modifies this`batchErrors
      ensures Totals() == old(Totals()).(batchErrors := old(batchErrors) + 1)
    {
      batchErrors := batchErrors + 1;
    }

    method SetBacklog(events: int, floor: bool)
      modifies this`backlogEvents, this`backlogFloor
      ensures backlogEvents == events && backlogFloor == floor
    {
      backlogEvents := events;
      backlogFloor := floor;
    }

    // The change since the previous call; the baseline moves to now.
    method IntervalSnapshot() returns (delta: Counters)
      modifies this`lastLogged
      ensures delta == Sub(Totals(), old(lastLogged)) && lastLogged == Totals()
    {
      var current := Totals();
      delta := LogInterval(current);
    }

    // The part of it that runs under the mutex: `current` was read before.
    method LogInterval(current: Counters) returns (delta: Counters)
      modifies this`lastLogged
      ensures delta == Sub(current, old(lastLogged)) && lastLogged == current
    {
      delta := Sub(current, lastLogged);
      lastLogged := current;
    }
  }

  // --- what a run of these calls reports -------------------------------------------------

  datatype Op = Batch(batch: BatchStats) | BatchError | Interval

  // Totals, baseline and the deltas logged so far.
  datatype Ledger = Ledger(totals: Counters, baseline: Counters, logged: seq<Counters>)

  function After(ledger: Ledger, op: Op): Ledger {
    match op
    case Batch(batch) => ledger.(totals := Plus(ledger.totals, BatchCounters(batch)))
    case BatchError => ledger.(totals := ledger.totals.(batchErrors := ledger.totals.batchErrors + 1))
    case Interval => Ledger(ledger.totals, ledger.totals, ledger.logged + [Sub(ledger.totals, ledger.baseline)])
  }

  function Play(ops: seq<Op>): Ledger {
    if ops == [] then Ledger(ZERO, ZERO, []) else After(Play(ops[..|ops| - 1]), ops[|ops| - 1])
  }

  function Sum(deltas: seq<Counters>): Counters {
    if deltas == [] then ZERO else Plus(Sum(deltas[..|deltas| - 1]), deltas[|deltas| - 1])
  }

  predicate BatchBalanced(batch: BatchStats) {
    batch.selected == batch.sent + batch.poison + batch.dlq + batch.keptForRetry
  }

  // Drives an AppStats object through a sequence of calls.
  method Drive(stats: AppStats, ops: seq<Op>) returns (logged: seq<Counters>)
    requires stats.Totals() == ZERO && stats.lastLogged == ZERO
    modifies stats
    ensures Ledger(stats.Totals(), stats.lastLogged, logged) == Play(ops)
  {
    logged := [];
    for i := 0 to |ops|
      invariant Ledger(stats.Totals(), stats.lastLogged, logged) == Play(ops[..i])
    {
      assert ops[..i + 1][..i] == ops[..i];
      match ops[i] {
        case Batch(batch) => stats.AddCommittedBatch(batch, 0);
        case BatchError => stats.AddBatchError();
        case Interval =>
          var delta := stats.IntervalSnapshot();
          logged := logged + [delta];
      }
    }
    assert ops[..|ops|] == ops;
  }

  // What is logged plus what is not logged yet.
  predicate Partitioned(ledger: Ledger) {
    Plus(Sum(ledger.logged), Sub(ledger.totals, ledger.baseline)) == ledger.totals
  }

  predicate AllBalanced(ledger: Ledger) {
    && ledger.totals.Balanced() && ledger.baseline.Balanced()
    && forall i | 0 <= i < |ledger.logged| :: ledger.logged[i].Balanced()
  }

  lemma PartitionStep(ledger: Ledger, op: Op)
    requires Partitioned(ledger)
    ensures Partitioned(After(ledger, op))
  {
    if op.Interval? {
      var delta := Sub(ledger.totals, ledger.baseline);
      assert (ledger.logged + [delta])[..|ledger.logged|] == ledger.logged;
      assert Sum(ledger.logged + [delta]) == Plus(Sum(ledger.logged), delta) == ledger.totals;
      assert Sub(ledger.totals, ledger.totals) == ZERO;
    }
  }

  lemma BalanceStep(ledger: Ledger, op: Op)
    requires AllBalanced(ledger) && (op.Batch? ==> BatchBalanced(op.batch))
    ensures AllBalanced(After(ledger, op))
  {
  }

  /** The logged intervals partition the counters: together with what is not logged yet
      they add up to the totals. */
  lemma {:induction false} IntervalsPartition(ops: seq<Op>)
    ensures Partitioned(Play(ops))
  {
    if ops != [] {
      IntervalsPartition(ops[..|ops| - 1]);
      PartitionStep(Play(ops[..|ops| - 1]), ops[|ops| - 1]);
    }
  }

  /** If every committed batch accounts for each selected event once, so do the totals
      and every logged interval. */
  lemma {:induction false} IntervalsBalanced(ops: seq<Op>)
    requires forall i :: 0 <= i < |ops| && ops[i].Batch? ==> BatchBalanced(ops[i].batch)
    ensures AllBalanced(Play(ops))
  {
    if ops != [] {
      IntervalsBalanced(ops[..|ops| - 1]);
      BalanceStep(Play(ops[..|ops| - 1]), ops[|ops| - 1]);
    }
  }

  // --- overlapping callers ------------------------------------------------------------------

  // The ticker and the final flush can overlap: each reads the counters first and takes the
  // mutex afterwards. `points` says at which point of the counters' history each call read
  // them, in the order in which the calls take the mutex.

  function TotalsAt(ops: seq<Op>, k: nat): Counters
    requires k <= |ops|
  {
    Play(ops[..k]).totals
  }

  predicate ReadsFrom(ops: seq<Op>, points: seq<nat>) {
    forall k | 0 <= k < |points| :: points[k] <= |ops|
  }

  function Baseline(ops: seq<Op>, points: seq<nat>): Counters
    requires ReadsFrom(ops, points)
  {
    if points == [] then ZERO else TotalsAt(ops, points[|points| - 1])
  }

  // What the calls log.
  function Deltas(ops: seq<Op>, points: seq<nat>): seq<Counters>
    requires ReadsFrom(ops, points)
  {
    if points == [] then []
    else
      var init, last := points[..|points| - 1], points[|points| - 1];
      Deltas(ops, init) + [Sub(TotalsAt(ops, last), Baseline(ops, init))]
  }

  method LogOverlapping(stats: AppStats, ops: seq<Op>, points: seq<nat>) returns (logged: seq<Counters>)
    requires ReadsFrom(ops, points) && stats.lastLogged == ZERO
    modifies stats`lastLogged
    ensures logged == Deltas(ops, points) && stats.lastLogged == Baseline(ops, points)
  {
    logged := [];
    for k := 0 to |points|
      invariant logged == Deltas(ops, points[..k]) && stats.lastLogged == Baseline(ops, points[..k])
    {
      assert points[..k + 1][..k] == points[..k];
      var delta := stats.LogInterval(TotalsAt(ops, points[k]));
      logged := logged + [delta];
    }
    assert points[..|points|] == points;
  }

  /** However the calls overlap, what they log adds up to the counters as the last of them
      read them, so nothing is logged twice or left out. */
  lemma {:induction false} OverlappingDeltasAddUp(ops: seq<Op>, points: seq<nat>)
    requires ReadsFrom(ops, points)
    ensures Sum(Deltas(ops, points)) == Baseline(ops, points)
  {
    if points != [] {
      var init := points[..|points| - 1];
      OverlappingDeltasAddUp(ops, init);
      assert Deltas(ops, points)[..|Deltas(ops, init)|] == Deltas(ops, init);
    }
  }

  predicate NonNegative(c: Counters) {
    && c.selected >= 0 && c.sent >= 0 && c.poison >= 0 && c.dlq >= 0 && c.keptForRetry >= 0
    && c.batchesProcessed >= 0 && c.batchErrors >= 0 && c.senderErrors >= 0 && c.fatalAfterCommitErrors >= 0
  }

  // Something was counted between two points of the history.
  predicate CountedBetween(ops: seq<Op>, from: nat, until: nat) {
    exists i | from <= i < until :: i < |ops| && !ops[i].Interval?
  }

  // Counters only grow, and every counted operation is visible in one of them.
  lemma {:induction false} TotalsGrow(ops: seq<Op>, from: nat, until: nat)
    requires from <= until <= |ops|
    ensures NonNegative(Sub(TotalsAt(ops, until), TotalsAt(ops, from)))
    ensures CountedBetween(ops, from, until) <==> !NonNegative(Sub(TotalsAt(ops, from), TotalsAt(ops, until)))
    decreases until
  {
    if from != until {
      TotalsGrow(ops, from, until - 1);
      assert ops[..until][..until - 1] == ops[..until - 1];
      assert CountedBetween(ops, from, until) <==> CountedBetween(ops, from, until - 1) || !ops[until - 1].Interval?;
    }
  }

  lemma {:induction false} DeltaAt(ops: seq<Op>, points: seq<nat>, k: nat)
    requires ReadsFrom(ops, points) && k < |points|
    ensures |Deltas(ops, points)| == |points|
    ensures Deltas(ops, points)[k] == Sub(TotalsAt(ops, points[k]), if k == 0 then ZERO else TotalsAt(ops, points[k - 1]))
  {
    var init := points[..|points| - 1];
    if k < |init| {
      DeltaAt(ops, init, k);
    } else if init != [] {
      DeltaAt(ops, init, |init| - 1);
    }
  }

  /** A logged delta has a negative counter exactly when its call read the counters before
      the call logged just ahead of it did, and something was counted between the two reads. */
  lemma NegativeDeltaIff(ops: seq<Op>, points: seq<nat>, k: nat)
    requires ReadsFrom(ops, points) && k < |points|
    ensures |Deltas(ops, points)| == |points|
    ensures !NonNegative(Deltas(ops, points)[k]) <==> k > 0 && CountedBetween(ops, points[k], points[k - 1])
  {
    DeltaAt(ops, points, k);
    if k == 0 {
      TotalsGrow(ops, 0, points[0]);
      assert TotalsAt(ops, 0) == ZERO;
    } else if points[k] <= points[k - 1] {
      TotalsGrow(ops, points[k], points[k - 1]);
    } else {
      TotalsGrow(ops, points[k - 1], points[k]);
    }
  }
}

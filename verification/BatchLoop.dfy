/** The relay's main loop over a script of batches: one transaction per batch, its
    outcome under every fault, the counters and the backlog gauge, and the stop at
    the first fatal batch.

    A Snapshot is everything the loop changes; AfterBatches says, from the outcomes of
    the events alone, what a run leaves behind.
 */
module BatchLoop {
  import opened Errors
  import opened Collector
  import opened Processor
  import Selection
  import Stats

  // --- which stage a batch reaches ------------------------------------------------------

  // scanEvents refuses a row without a resolved route.
  predicate ScanFails(events: seq<Event>) {
    exists e | e in events :: e.route.target == "" || e.route.destination == ""
  }

  predicate Publishes(cfg: Settings, w: World) {
    && w.fault != BeginFails && w.fault != SelectFails
    && !ScanFails(w.events) && !TriageFails(cfg, w.events, w.now)
  }

  // deleteIDs: everything that will not be retried.
  function Finished(cfg: Settings, w: World): set<EventId> {
    SentIds(cfg, w, Everyone(w)) + PoisonedIds(cfg, w, Everyone(w))
  }

  // A statement with nothing to write is not sent, so it cannot fail.
  predicate WritesFail(cfg: Settings, w: World) {
    || (w.fault == LettersFail && cfg.dlq && PoisonedIds(cfg, w, Everyone(w)) != {})
    || (w.fault == DeleteFails && Finished(cfg, w) != {})
  }

  // The transaction takes effect.
  predicate Applied(cfg: Settings, w: World) {
    Publishes(cfg, w) && !WritesFail(cfg, w) && w.fault != CommitFails
  }

  // The relay learns that it did.
  predicate Acknowledged(cfg: Settings, w: World) {
    Applied(cfg, w) && w.fault != AckLost
  }

  // Some sender that ran returned an error with the fatal sentinel anywhere inside.
  predicate FatalBatch(cfg: Settings, w: World) {
    Publishes(cfg, w) && Reports(cfg, w, w.order, FatalAfterCommit)
  }

  // --- what a batch leaves behind ----------------------------------------------------------

  function LettersOf(cfg: Settings, w: World): seq<PoisonReport> {
    if cfg.dlq then Gather(cfg, w, w.order).poison else []
  }

  function BatchStatsOf(cfg: Settings, w: World): Stats.BatchStats {
    var poisoned := |PoisonedIds(cfg, w, Everyone(w))|;
    Stats.BatchStats(
      |w.events|,
      |SentIds(cfg, w, Everyone(w))|,
      if cfg.dlq then 0 else poisoned,
      if cfg.dlq then poisoned else 0,
      |KeptIds(cfg, w, Everyone(w))|,
      ErrorTotal(cfg, w, w.order),
      if FatalBatch(cfg, w) then 1 else 0,
      TimingOf(w))
  }

  // Events are selected in id order, so the first one is the oldest.
  function OldestEventAge(events: seq<Event>, now: int): nat {
    if events == [] || events[0].timestamp.None? || now < events[0].timestamp.value then 0
    else now - events[0].timestamp.value
  }

  function TimingOf(w: World): Stats.Timing {
    Stats.Timing(OldestEventAge(w.events, w.now), w.publishTime, w.dbTime)
  }

  // The backlog gauge and the time of the last probe.
  datatype Gauge = Gauge(events: int, floor: bool, lastProbe: Option<int>)

  datatype Snapshot = Snapshot(table: set<EventId>, letters: seq<PoisonReport>, totals: Stats.Counters, gauge: Gauge)

  const FALLBACK_PROBE_INTERVAL := 10000

  function ProbeInterval(cfg: Settings): int {
    if cfg.statsInterval > 0 then cfg.statsInterval else FALLBACK_PROBE_INTERVAL
  }

  predicate Throttled(cfg: Settings, g: Gauge, now: int) {
    g.lastProbe.Some? && now - g.lastProbe.value < ProbeInterval(cfg)
  }

  // The gauge after a committed batch that kept `kept` events for retry.
  function GaugeAfter(cfg: Settings, g: Gauge, drained: bool, kept: nat, now: int, probe: Option<(nat, bool)>): Gauge {
    if drained then g.(events := kept, floor := false)
    else if cfg.backlogLimit <= 0 then g.(events := kept, floor := true)
    else if Throttled(cfg, g, now) then g
    else if probe.None? then g.(lastProbe := Some(now))
    else Gauge(probe.value.0, probe.value.1, Some(now))
  }

  // What the loop does once a batch has ended.
  datatype Next = Stop | Cooldown | Again | Wait

  function NextAfter(cfg: Settings, w: World): Next {
    if FatalBatch(cfg, w) then Stop
    else if !Acknowledged(cfg, w) then Cooldown
    else if w.events == [] then Wait
    else Again
  }

  // The batch's statements and its commit all succeed, and are known to: the transaction
  // opens, the rows are read and every one has a route, triage finds a sender for all that
  // are not overdue, what is to be dead-lettered and deleted is, and the commit is
  // acknowledged.
  predicate Succeeds(cfg: Settings, w: World) {
    && w.fault !in {BeginFails, SelectFails, CommitFails, AckLost}
    && (forall e | e in w.events :: e.route.target != "" && e.route.destination != "")
    && (forall e | e in w.events ::
          e.route.target in cfg.senders || (cfg.maxAge > 0 && e.timestamp.Some? && e.timestamp.value + cfg.maxAge < w.now))
    && !(w.fault == LettersFail && cfg.dlq && exists e | e in w.events :: OutcomeOf(cfg, w, Everyone(w), e).Poisoned?)
    && !(w.fault == DeleteFails && exists e | e in w.events :: OutcomeOf(cfg, w, Everyone(w), e) != Kept)
  }

  lemma SucceedsIffAcknowledged(cfg: Settings, w: World)
    ensures Succeeds(cfg, w) <==> Acknowledged(cfg, w)
  {
    assert TriageFails(cfg, w.events, w.now) <==>
      exists e | e in w.events :: Judge(cfg, e, w.now).Unroutable?;
    assert PoisonedIds(cfg, w, Everyone(w)) != {} <==> exists e | e in w.events :: OutcomeOf(cfg, w, Everyone(w), e).Poisoned? by {
      if e :| e in w.events && OutcomeOf(cfg, w, Everyone(w), e).Poisoned? {
        assert e.id in PoisonedIds(cfg, w, Everyone(w));
      }
    }
    assert Finished(cfg, w) != {} <==> exists e | e in w.events :: OutcomeOf(cfg, w, Everyone(w), e) != Kept by {
      if e :| e in w.events && OutcomeOf(cfg, w, Everyone(w), e) != Kept {
        assert e.id in Finished(cfg, w);
      }
    }
  }

  /** What the loop does after a batch: it stops after a fatal one, cools down after any other
      that failed somewhere, waits after one that found nothing to select, and goes on at once
      after one that did. */
  predicate ActionFits(cfg: Settings, w: World, action: Next) {
    && (action == Stop <==> FatalBatch(cfg, w))
    && (action == Cooldown <==> !FatalBatch(cfg, w) && !Succeeds(cfg, w))
    && (action == Wait <==> !FatalBatch(cfg, w) && Succeeds(cfg, w) && |w.events| == 0)
    && (action == Again <==> !FatalBatch(cfg, w) && Succeeds(cfg, w) && |w.events| > 0)
  }

  lemma NextFits(cfg: Settings, w: World)
    ensures ActionFits(cfg, w, NextAfter(cfg, w))
  {
    SucceedsIffAcknowledged(cfg, w);
  }

  // What the backlog gauge is told after a batch.
  datatype Reading = Reading(drained: bool, kept: nat, now: int, probe: Option<(nat, bool)>)

  // The rows and dead letters a transaction writes when it takes effect.
  datatype Writes = Writes(removed: set<EventId>, letters: seq<PoisonReport>)

  // The effect of one batch: its writes if they take effect, what it adds to the
  // counters (None for a batch error), and its reading of the backlog.
  datatype Effect = Effect(writes: Option<Writes>, counted: Option<Stats.BatchStats>, reading: Option<Reading>)

  function ReadingOf(cfg: Settings, w: World): Reading {
    Reading(Selection.Drained(Brief(w.events), cfg.target), |KeptIds(cfg, w, Everyone(w))|, w.later, w.probe)
  }

  function EffectOf(cfg: Settings, w: World): Effect {
    Effect(
      if Applied(cfg, w) then Some(Writes(Finished(cfg, w), LettersOf(cfg, w))) else None,
      if Acknowledged(cfg, w) then Some(BatchStatsOf(cfg, w)) else None,
      if Acknowledged(cfg, w) && !FatalBatch(cfg, w) then Some(ReadingOf(cfg, w)) else None)
  }

  function AfterEffect(cfg: Settings, s: Snapshot, e: Effect): Snapshot {
    Snapshot(
      if e.writes.Some? then s.table - e.writes.value.removed else s.table,
      if e.writes.Some? then s.letters + e.writes.value.letters else s.letters,
      if e.counted.Some? then Stats.Plus(s.totals, Stats.BatchCounters(e.counted.value))
      else s.totals.(batchErrors := s.totals.batchErrors + 1),
      if e.reading.None? then s.gauge
      else var r := e.reading.value; GaugeAfter(cfg, s.gauge, r.drained, r.kept, r.now, r.probe))
  }

  function AfterEffects(cfg: Settings, s: Snapshot, effects: seq<Effect>): Snapshot {
    if effects == [] then s
    else AfterEffect(cfg, AfterEffects(cfg, s, effects[..|effects| - 1]), effects[|effects| - 1])
  }

  // The effects of a script of batches, in order, and what follows each of them.
  function Effects(cfg: Settings, worlds: seq<World>): seq<Effect> {
    if worlds == [] then []
    else Effects(cfg, worlds[..|worlds| - 1]) + [EffectOf(cfg, worlds[|worlds| - 1])]
  }

  function Nexts(cfg: Settings, worlds: seq<World>): seq<Next> {
    if worlds == [] then []
    else Nexts(cfg, worlds[..|worlds| - 1]) + [NextAfter(cfg, worlds[|worlds| - 1])]
  }

  lemma {:induction false} EffectsLength(cfg: Settings, worlds: seq<World>)
    ensures |Effects(cfg, worlds)| == |worlds|
  {
    if worlds != [] {
      EffectsLength(cfg, worlds[..|worlds| - 1]);
    }
  }

  // The effects of a script are those of its batches, one by one, and a prefix of the
  // script has a prefix of the effects.
  lemma {:induction false} EffectsAt(cfg: Settings, worlds: seq<World>, k: nat)
    requires k < |worlds|
    ensures |Effects(cfg, worlds)| == |worlds|
    ensures Effects(cfg, worlds)[k] == EffectOf(cfg, worlds[k])
    ensures Effects(cfg, worlds)[..k] == Effects(cfg, worlds[..k])
  {
    var init := worlds[..|worlds| - 1];
    EffectsLength(cfg, init);
    if k < |init| {
      EffectsAt(cfg, init, k);
      assert init[..k] == worlds[..k] && init[k] == worlds[k];
    } else if init != [] {
      EffectsAt(cfg, init, |init| - 1);
    }
  }

  lemma OneMore(cfg: Settings, s: Snapshot, worlds: seq<World>, k: nat)
    requires k < |worlds|
    ensures Nexts(cfg, worlds[..k + 1]) == Nexts(cfg, worlds[..k]) + [NextAfter(cfg, worlds[k])]
    ensures AfterEffects(cfg, s, Effects(cfg, worlds[..k + 1]))
         == AfterEffect(cfg, AfterEffects(cfg, s, Effects(cfg, worlds[..k])), EffectOf(cfg, worlds[k]))
  {
    assert worlds[..k + 1][..k] == worlds[..k];
    var effects := Effects(cfg, worlds[..k]);
    assert (effects + [EffectOf(cfg, worlds[k])])[..|effects|] == effects;
  }

  // A transaction alone, before the loop looks at the backlog.
  function AfterTransaction(cfg: Settings, s: Snapshot, w: World): Snapshot {
    AfterEffect(cfg, s, EffectOf(cfg, w).(reading := None))
  }

  // --- errors of the database side -----------------------------------------------------------

  function FmtDbError(): Error {
    Join(Some(Leaf(DatabaseBatch)), Some(Leaf(Provider)))
  }

  lemma FmtDbErrorIs()
    ensures Is(FmtDbError(), DatabaseBatch) && !Is(FmtDbError(), FatalAfterCommit)
  {
    JoinIs(Some(Leaf(DatabaseBatch)), Some(Leaf(Provider)), DatabaseBatch);
    JoinIs(Some(Leaf(DatabaseBatch)), Some(Leaf(Provider)), FatalAfterCommit);
  }

  // The error of a write that failed after publishing keeps the senders' errors.
  function WriteError(senderErr: Error): Error {
    if senderErr.Some? then Join(senderErr, FmtDbError()) else FmtDbError()
  }

  lemma WriteErrorIs(senderErr: Error)
    ensures Is(WriteError(senderErr), DatabaseBatch)
    ensures Is(WriteError(senderErr), FatalAfterCommit) <==> Is(senderErr, FatalAfterCommit)
  {
    FmtDbErrorIs();
    JoinIs(senderErr, FmtDbError(), DatabaseBatch);
    JoinIs(senderErr, FmtDbError(), FatalAfterCommit);
  }

  // The error of a failed commit; only a fatal sender error is kept beside it.
  function CommitError(batchErr: Error): Error {
    if Is(batchErr, FatalAfterCommit) then Join(batchErr, FmtDbError()) else FmtDbError()
  }

  lemma CommitErrorIs(batchErr: Error)
    ensures Is(CommitError(batchErr), DatabaseBatch)
    ensures Is(CommitError(batchErr), FatalAfterCommit) <==> Is(batchErr, FatalAfterCommit)
  {
    FmtDbErrorIs();
    WriteErrorIs(batchErr);
  }

  // --- one batch --------------------------------------------------------------------------------

  datatype BatchResult = BatchResult(selected: nat, drained: bool, stats: Stats.BatchStats)

  const NO_STATS := Stats.BatchStats(0, 0, 0, 0, 0, 0, 0, Stats.Timing(0, 0, 0))

  // The uncommitted writes of the open transaction.
  class Tx {
    var letters: seq<PoisonReport>
    var deletes: set<EventId>

    constructor ()
      ensures letters == [] && deletes == {}
    {
      letters, deletes := [], {};
    }

    method InsertDeadLetters(dlq: bool, poison: seq<PoisonReport>, fault: Fault) returns (err: Error)
      modifies this`letters
      ensures err.Some? <==> dlq && poison != [] && fault == LettersFail
      ensures letters == if dlq && err.None? then old(letters) + poison else old(letters)
    {
      if !dlq || poison == [] {
        return None;
      }
      if fault == LettersFail {
        return Some(Leaf(Provider));
      }
      letters := letters + poison;
      err := None;
    }

    method DeleteEvents(ids: seq<EventId>, fault: Fault) returns (err: Error)
      modifies this`deletes
      ensures err.Some? <==> ids != [] && fault == DeleteFails
      ensures deletes == if err.None? then old(deletes) + Elements(ids) else old(deletes)
    {
      if ids == [] {
        return None;
      }
      if fault == DeleteFails {
        return Some(Leaf(Provider));
      }
      deletes := deletes + Elements(ids);
      err := None;
    }
  }

  // Publishing: every target's sender runs, and their results are joined in the order
  // in which they finish.
  method Publish(cfg: Settings, w: World, triage: Triage) returns (g: Gathered)
    requires ValidWorld(cfg, w)
    requires triage.poison == CondemnedOf(cfg, w.events, w.now)
    requires forall t :: GroupOf(triage.byTarget, t) == ForTarget(cfg, w.events, w.now, t)
    requires forall t :: t in triage.byTarget ==> triage.byTarget[t] != []
    ensures g == Gather(cfg, w, w.order)
  {
    g := Gathered([], triage.poison, PoisonIds(triage.poison), None);
    for k := 0 to |w.order|
      invariant g == Gather(cfg, w, w.order[..k])
    {
      var target := w.order[k];
      assert w.order[..k + 1][..k] == w.order[..k];
      assert GroupOf(triage.byTarget, target) == ForTarget(cfg, w.events, w.now, target);
      if target in triage.byTarget {
        var output := CollectSenderOutput(IdsOf(triage.byTarget[target]), RunOf(w, target).calls);
        g := AddResult(g, output, RunOf(w, target).err);
      }
    }
    assert w.order[..|w.order|] == w.order;
  }

  // The counters of a batch, computed from what was gathered.
  method CountOutcomes(cfg: Settings, w: World, g: Gathered) returns (stats: Stats.BatchStats)
    requires ValidWorld(cfg, w) && Publishes(cfg, w) && g == Gather(cfg, w, w.order)
    ensures stats == BatchStatsOf(cfg, w)
    ensures |g.poison| == |PoisonedIds(cfg, w, Everyone(w))|
  {
    GatherExact(cfg, w, w.order);
    OutcomesPartition(cfg, w, Everyone(w));
    GatherErrorIs(cfg, w, w.order, FatalAfterCommit);
    GatherErrorCount(cfg, w, w.order);
    GatheredSizes(cfg, w, g);
    var selected, sent := |w.events|, |g.confirmed|;
    var poison := if cfg.dlq then 0 else |g.poison|;
    var dlq := if cfg.dlq then |g.poison| else 0;
    // The clamp at zero never changes the value.
    var keptForRetry := selected - sent - poison - dlq;
    assert keptForRetry == |KeptIds(cfg, w, Everyone(w))|;
    if keptForRetry < 0 {
      keptForRetry := 0;
    }
    stats := Stats.BatchStats(selected, sent, poison, dlq, keptForRetry, CountJoinedErrors(g.err),
                              if Is(g.err, FatalAfterCommit) then 1 else 0, TimingOf(w));
  }

  lemma GatheredSizes(cfg: Settings, w: World, g: Gathered)
    requires GatherInv(cfg, w, Everyone(w), g)
    ensures |g.confirmed| == |SentIds(cfg, w, Everyone(w))|
    ensures |g.poison| == |PoisonedIds(cfg, w, Everyone(w))|
    ensures Elements(g.deleteIds) == Finished(cfg, w)
  {
    UniqueSize(g.confirmed);
    UniqueSize(PoisonIds(g.poison));
    PoisonIdElements(g.poison);
    PoisonsAndIds(cfg, w, Everyone(w));
    assert Elements(PoisonIds(g.poison)) == PoisonedIds(cfg, w, Everyone(w));
  }

  // What a finished or failed batch returns, and the writes it has staged.
  ghost predicate BatchReturns(cfg: Settings, w: World, result: BatchResult, err: Error) {
    && (Is(err, FatalAfterCommit) <==> FatalBatch(cfg, w))
    && (Is(err, DatabaseBatch) <==> !Publishes(cfg, w) || WritesFail(cfg, w))
    && (Publishes(cfg, w) ==> result == BatchResult(|w.events|, Selection.Drained(Brief(w.events), cfg.target), BatchStatsOf(cfg, w)))
  }

  method ProcessEventBatch(cfg: Settings, w: World, tx: Tx) returns (result: BatchResult, err: Error)
    requires ValidWorld(cfg, w) && w.fault != BeginFails
    requires tx.letters == [] && tx.deletes == {}
    modifies tx
    ensures BatchReturns(cfg, w, result, err)
    ensures !Is(err, DatabaseBatch) ==> tx.letters == LettersOf(cfg, w) && tx.deletes == Finished(cfg, w)
  {
    FmtDbErrorIs();
    if w.fault == SelectFails || ScanFails(w.events) {
      return BatchResult(0, false, NO_STATS), FmtDbError();
    }
    var drained := Selection.BatchDrained(Brief(w.events), cfg.target);
    result := BatchResult(|w.events|, drained, NO_STATS.(selected := |w.events|));

    var triage, triageErr := TriageEvents(cfg, w.events, w.now);
    if triageErr.Some? {
      return result, FmtDbError();
    }
    var g := Publish(cfg, w, triage);
    var stats := CountOutcomes(cfg, w, g);
    result := result.(stats := stats);
    err := WriteOutcomes(cfg, w, tx, g);
  }

  lemma GatheredFacts(cfg: Settings, w: World, g: Gathered)
    requires ValidWorld(cfg, w) && Publishes(cfg, w) && g == Gather(cfg, w, w.order)
    ensures g.poison == [] <==> PoisonedIds(cfg, w, Everyone(w)) == {}
    ensures g.deleteIds == [] <==> Finished(cfg, w) == {}
    ensures Elements(g.deleteIds) == Finished(cfg, w)
    ensures Is(g.err, FatalAfterCommit) <==> FatalBatch(cfg, w)
    ensures !Is(g.err, DatabaseBatch)
    ensures Is(WriteError(g.err), DatabaseBatch)
    ensures Is(WriteError(g.err), FatalAfterCommit) <==> FatalBatch(cfg, w)
  {
    GatherExact(cfg, w, w.order);
    GatheredSizes(cfg, w, g);
    assert g.deleteIds != [] ==> g.deleteIds[0] in Elements(g.deleteIds);
    GatherErrorIs(cfg, w, w.order, FatalAfterCommit);
    GatherErrorIs(cfg, w, w.order, DatabaseBatch);
    WriteErrorIs(g.err);
  }

  // The dead letters, then the deletes.
  method WriteOutcomes(cfg: Settings, w: World, tx: Tx, g: Gathered) returns (err: Error)
    requires ValidWorld(cfg, w) && Publishes(cfg, w) && g == Gather(cfg, w, w.order)
    requires tx.letters == [] && tx.deletes == {}
    modifies tx
    ensures Is(err, FatalAfterCommit) <==> FatalBatch(cfg, w)
    ensures Is(err, DatabaseBatch) <==> WritesFail(cfg, w)
    ensures !Is(err, DatabaseBatch) ==> tx.letters == LettersOf(cfg, w) && tx.deletes == Finished(cfg, w)
  {
    GatheredFacts(cfg, w, g);
    var lettersErr := tx.InsertDeadLetters(cfg.dlq, g.poison, w.fault);
    if lettersErr.Some? {
      return WriteError(g.err);
    }
    var deleteErr := tx.DeleteEvents(g.deleteIds, w.fault);
    if deleteErr.Some? {
      return WriteError(g.err);
    }
    err := g.err;
  }

  class App {
    const cfg: Settings
    var table: set<EventId>
    var letters: seq<PoisonReport>
    const stats: Stats.AppStats
    var lastBacklogProbe: Option<int>

    constructor (cfg: Settings, table: set<EventId>, now: int)
      ensures this.cfg == cfg && fresh(stats)
      ensures State() == Snapshot(table, [], Stats.ZERO, Gauge(0, true, None))
    {
      this.cfg, this.table := cfg, table;
      letters, lastBacklogProbe := [], None;
      stats := new Stats.AppStats(now);
    }

    function State(): Snapshot
      reads this, stats
    {
      Snapshot(table, letters, stats.Totals(), Gauge(stats.backlogEvents, stats.backlogFloor, lastBacklogProbe))
    }

    /** One transaction. A fatal sender error reaches the caller whatever else fails;
        the table and the dead letters change together or not at all. */
    method ProcessOneBatch(w: World) returns (result: BatchResult, err: Error)
      requires ValidWorld(cfg, w)
      modifies this, stats
      ensures State() == AfterTransaction(cfg, old(State()), w)
      ensures Is(err, FatalAfterCommit) <==> FatalBatch(cfg, w)
      ensures Is(err, DatabaseBatch) <==> !Acknowledged(cfg, w)
      ensures Acknowledged(cfg, w) ==>
                result == BatchResult(|w.events|, Selection.Drained(Brief(w.events), cfg.target), BatchStatsOf(cfg, w))
    {
      FmtDbErrorIs();
      if w.fault == BeginFails {
        stats.AddBatchError();
        return BatchResult(0, false, NO_STATS), FmtDbError();
      }
      var tx := new Tx();
      var batchErr;
      result, batchErr := ProcessEventBatch(cfg, w, tx);
      err := EndTransaction(tx, w, result.stats, batchErr);
    }

    // Rollback after a database error, commit otherwise.
    method EndTransaction(tx: Tx, w: World, batch: Stats.BatchStats, batchErr: Error) returns (err: Error)
      requires Is(batchErr, DatabaseBatch) <==> !Publishes(cfg, w) || WritesFail(cfg, w)
      requires !Is(batchErr, DatabaseBatch) ==>
                 batch == BatchStatsOf(cfg, w) && tx.letters == LettersOf(cfg, w) && tx.deletes == Finished(cfg, w)
      modifies this, stats
      ensures State() == AfterTransaction(cfg, old(State()), w)
      ensures Is(err, FatalAfterCommit) <==> Is(batchErr, FatalAfterCommit)
      ensures Is(err, DatabaseBatch) <==> !Acknowledged(cfg, w)
    {
      if Is(batchErr, DatabaseBatch) {
        stats.AddBatchError();
        return batchErr;
      }
      err := Finish(tx, w.fault, batch, w.later, batchErr);
    }

    // The commit of a batch whose writes succeeded.
    method Finish(tx: Tx, fault: Fault, batch: Stats.BatchStats, now: int, batchErr: Error) returns (err: Error)
      requires !Is(batchErr, DatabaseBatch)
      modifies this, stats
      ensures table == if fault == CommitFails then old(table) else old(table) - tx.deletes
      ensures letters == if fault == CommitFails then old(letters) else old(letters) + tx.letters
      ensures State().totals == if fault == CommitFails || fault == AckLost
                                then old(State()).totals.(batchErrors := old(State()).totals.batchErrors + 1)
                                else Stats.Plus(old(State()).totals, Stats.BatchCounters(batch))
      ensures State().gauge == old(State()).gauge
      ensures Is(err, FatalAfterCommit) <==> Is(batchErr, FatalAfterCommit)
      ensures Is(err, DatabaseBatch) <==> fault == CommitFails || fault == AckLost
    {
      var commitErr := Commit(tx, fault);
      if commitErr.Some? {
        stats.AddBatchError();
        CommitErrorIs(batchErr);
        return CommitError(batchErr);
      }
      stats.AddCommittedBatch(batch, now);
      err := batchErr;
    }

    // The transaction's writes take effect together, with or without acknowledgement.
    method Commit(tx: Tx, fault: Fault) returns (err: Error)
      modifies this`table, this`letters
      ensures err.Some? <==> fault == CommitFails || fault == AckLost
      ensures table == if fault == CommitFails then old(table) else old(table) - tx.deletes
      ensures letters == if fault == CommitFails then old(letters) else old(letters) + tx.letters
    {
      if fault == CommitFails {
        return Some(Leaf(Provider));
      }
      table, letters := table - tx.deletes, letters + tx.letters;
      err := if fault == AckLost then Some(Leaf(Provider)) else None;
    }

    method UpdateBacklog(result: BatchResult, now: int, probe: Option<(nat, bool)>)
      modifies this`lastBacklogProbe, stats`backlogEvents, stats`backlogFloor
      ensures State() == old(State()).(gauge := GaugeAfter(cfg, old(State()).gauge, result.drained, result.stats.keptForRetry, now, probe))
    {
      if result.drained {
        stats.SetBacklog(result.stats.keptForRetry, false);
        return;
      }
      if cfg.backlogLimit <= 0 {
        stats.SetBacklog(result.stats.keptForRetry, true);
        return;
      }
      if lastBacklogProbe.Some? && now - lastBacklogProbe.value < ProbeInterval(cfg) {
        return;
      }
      lastBacklogProbe := Some(now);
      if probe.Some? {
        stats.SetBacklog(probe.value.0, probe.value.1);
      }
    }

    // One turn of the main loop.
    method RunBatch(w: World) returns (next: Next, err: Error)
      requires ValidWorld(cfg, w)
      modifies this, stats
      ensures next == NextAfter(cfg, w)
      ensures if next.Stop? then Is(err, FatalAfterCommit) else err.None?
      ensures State() == AfterEffect(cfg, old(State()), EffectOf(cfg, w))
    {
      var result, batchErr := ProcessOneBatch(w);
      if Is(batchErr, FatalAfterCommit) {
        return Stop, batchErr;
      }
      if Is(batchErr, DatabaseBatch) {
        return Cooldown, None;
      }
      UpdateBacklog(result, w.later, w.probe);
      next := if result.selected == 0 then Wait else Again;
      err := None;
    }

    /** The main loop, until the script ends or a batch is fatal. Every batch is followed
        by exactly the action its outcome calls for, no batch starts after a fatal one,
        and the relay's state is the sum of the effects of the batches it ran. */
    method ProcessEvents(worlds: seq<World>) returns (actions: seq<Next>, err: Error)
      requires forall w :: w in worlds ==> ValidWorld(cfg, w)
      modifies this, stats
      ensures LoopResult(cfg, worlds, actions)
      ensures forall k :: 0 <= k < |actions| ==> ActionFits(cfg, worlds[k], actions[k])
      ensures if err.Some? then Is(err, FatalAfterCommit) && FirstStop(actions) else |actions| == |worlds| && Stop !in actions
      ensures State() == AfterEffects(cfg, old(State()), Effects(cfg, worlds[..|actions|]))
    {
      hide ActionFits, NextAfter, AfterEffect, EffectOf;
      actions := [];
      for k := 0 to |worlds|
        invariant |actions| == k && actions == Nexts(cfg, worlds[..k]) && Stop !in actions
        invariant State() == AfterEffects(cfg, old(State()), Effects(cfg, worlds[..k]))
      {
        OneMore(cfg, old(State()), worlds, k);
        var next, batchErr := RunBatch(worlds[k]);
        actions := actions + [next];
        if next.Stop? {
          ActionsFit(cfg, worlds, actions);
          return actions, batchErr;
        }
      }
      assert worlds[..|worlds|] == worlds;
      ActionsFit(cfg, worlds, actions);
      err := None;
    }
  }

  // The last action stops the loop, and no earlier one does.
  predicate FirstStop(actions: seq<Next>) {
    actions != [] && actions[|actions| - 1] == Stop && Stop !in actions[..|actions| - 1]
  }

  // The loop runs the batches of the script up to the first one that stops it.
  predicate LoopResult(cfg: Settings, worlds: seq<World>, actions: seq<Next>) {
    && |actions| <= |worlds| && actions == Nexts(cfg, worlds[..|actions|])
    && (FirstStop(actions) || (|actions| == |worlds| && Stop !in actions))
  }

  lemma {:induction false} NextsAt(cfg: Settings, worlds: seq<World>, k: nat)
    requires k < |worlds|
    ensures |Nexts(cfg, worlds)| == |worlds| && Nexts(cfg, worlds)[k] == NextAfter(cfg, worlds[k])
  {
    var init := worlds[..|worlds| - 1];
    if init != [] {
      NextsAt(cfg, init, if k < |init| then k else 0);
    }
  }

  lemma ActionsFit(cfg: Settings, worlds: seq<World>, actions: seq<Next>)
    requires |actions| <= |worlds| && actions == Nexts(cfg, worlds[..|actions|])
    ensures forall k :: 0 <= k < |actions| ==> ActionFits(cfg, worlds[k], actions[k])
  {
    hide ActionFits;
    forall k | 0 <= k < |actions|
      ensures ActionFits(cfg, worlds[k], actions[k])
    {
      NextsAt(cfg, worlds[..|actions|], k);
      NextFits(cfg, worlds[k]);
    }
  }

  /** No batch of the script runs after one that stops the loop. */
  lemma NothingAfterStop(cfg: Settings, worlds: seq<World>, actions: seq<Next>, k: nat)
    requires LoopResult(cfg, worlds, actions) && k < |worlds| && NextAfter(cfg, worlds[k]) == Stop
    ensures |actions| <= k + 1
  {
    if k < |actions| {
      NextsAt(cfg, worlds[..|actions|], k);
      assert actions[k] == Stop;
      assert forall i :: 0 <= i < |actions| - 1 ==> actions[..|actions| - 1][i] == actions[i];
    }
  }
}

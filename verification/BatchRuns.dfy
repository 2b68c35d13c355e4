/** What whole runs of the batch loop guarantee: every selected event is counted once,
    rows leave the table exactly with an outcome, dead letters are unique, and exactly
    when the backlog gauge can be wrong.
 */
module BatchRuns {
  import opened Errors
  import opened Collector
  import opened Processor
  import opened BatchLoop
  import Routing
  import Selection
  import Stats

  ghost predicate ValidRun(cfg: Settings, worlds: seq<World>) {
    forall k :: 0 <= k < |worlds| ==> ValidWorld(cfg, worlds[k])
  }

  /** A batch selected by the query under the relay's own configuration always reaches
      the senders once its SELECT has succeeded: neither scanning nor triage can fail. */
  lemma SelectedAlwaysPublishes(
    cfg: Settings, routing: Routing.Config, t: Selection.Table, ids: set<Selection.RowId>, w: World)
    requires Routing.ValidConfig(routing) && cfg.senders == (set p | p in routing.providers :: p.target)
    requires Selection.IsSelection(routing, t, ids, Brief(w.events))
    ensures Publishes(cfg, w) <==> w.fault != BeginFails && w.fault != SelectFails
  {
    var brief := Brief(w.events);
    SelectedNeverFailsTriage(cfg, routing, t, ids, brief, w.events, w.now);
    forall e | e in w.events
      ensures e.route.target != "" && e.route.destination != ""
    {
      var k :| 0 <= k < |w.events| && w.events[k] == e;
      assert brief[k] in brief && Routing.Resolve(routing, t[brief[k].id]) == Some(e.route);
    }
  }

  /** selected == sent + poison + dlq + keptForRetry, exactly, for every batch whatever
      its senders report. */
  lemma BatchStatsBalance(cfg: Settings, w: World)
    requires ValidWorld(cfg, w)
    ensures Stats.BatchBalanced(BatchStatsOf(cfg, w))
  {
    OutcomesPartition(cfg, w, Everyone(w));
  }

  /** The cumulative counters of a run keep the same equation, through failed batches
      and lost acknowledgements. */
  lemma RunTotalsBalance(cfg: Settings, s: Snapshot, worlds: seq<World>)
    requires ValidRun(cfg, worlds) && s.totals.Balanced()
    ensures AfterEffects(cfg, s, Effects(cfg, worlds)).totals.Balanced()
  {
    var effects := Effects(cfg, worlds);
    EffectsLength(cfg, worlds);
    forall k | 0 <= k < |worlds|
      ensures CountsBalance(effects[k])
    {
      BatchStatsBalance(cfg, worlds[k]);
      EffectsAt(cfg, worlds, k);
    }
    TotalsBalance(cfg, s, effects);
  }

  predicate CountsBalance(e: Effect) {
    e.counted.Some? ==> Stats.BatchBalanced(e.counted.value)
  }

  lemma {:induction false} TotalsBalance(cfg: Settings, s: Snapshot, effects: seq<Effect>)
    requires s.totals.Balanced() && forall k :: 0 <= k < |effects| ==> CountsBalance(effects[k])
    ensures AfterEffects(cfg, s, effects).totals.Balanced()
  {
    if effects != [] {
      TotalsBalance(cfg, s, effects[..|effects| - 1]);
      assert CountsBalance(effects[|effects| - 1]);
    }
  }

  function RemovedBy(e: Effect): set<EventId> {
    if e.writes.Some? then e.writes.value.removed else {}
  }

  function LettersBy(e: Effect): set<EventId> {
    if e.writes.Some? then LetterIds(e.writes.value.letters) else {}
  }

  // --- what the loop does next ---------------------------------------------------------------

  /** A relay that has seen the whole selection goes to sleep after a batch that succeeded
      exactly if its snapshot held no row it could route, and goes on at once otherwise. */
  lemma WaitsIffNothingRoutable(cfg: Settings, routing: Routing.Config, t: Selection.Table, w: World)
    requires Succeeds(cfg, w) && !FatalBatch(cfg, w)
    requires Selection.IsSelection(routing, t, Selection.SelectedIds(routing, t, cfg.target), Brief(w.events))
    ensures NextAfter(cfg, w) == if Selection.RoutableIds(routing, t) == {} then Wait else Again
  {
    SucceedsIffAcknowledged(cfg, w);
    EventsAreIds(routing, t, Selection.SelectedIds(routing, t, cfg.target), w.events);
    if i :| i in Selection.RoutableIds(routing, t) {
      var route := Selection.RouteOf(routing, t, i).value;
      assert i in Selection.Pending(routing, t, route) && route in Selection.Routes(routing, t);
      Selection.FairShare(routing, t, cfg.target, route);
      assert Selection.SelectedOf(routing, t, cfg.target, route) != {};
      var j :| j in Selection.SelectedOf(routing, t, cfg.target, route);
      assert j in IdsOf(w.events);
    }
    NoEventsIffNoIds(w.events);
  }

  lemma NoEventsIffNoIds(events: seq<Event>)
    ensures events == [] <==> IdsOf(events) == {}
  {
    if events != [] {
      assert events[0].id in IdsOf(events);
    }
  }

  // --- what the counters count -----------------------------------------------------------------

  /** The counters of one batch: outcomes by kind, poison counted under the dead letters
      exactly when they are written, and the times the batch took. */
  lemma BatchStatsMean(cfg: Settings, w: World)
    requires ValidWorld(cfg, w)
    ensures var stats := BatchStatsOf(cfg, w);
            && stats.selected == |w.events| && stats.sent == |SentIds(cfg, w, Everyone(w))|
            && stats.keptForRetry == |KeptIds(cfg, w, Everyone(w))|
            && stats.dlq == |LettersOf(cfg, w)| && stats.poison + stats.dlq == |PoisonedIds(cfg, w, Everyone(w))|
            && (cfg.dlq ==> stats.poison == 0)
            && (stats.fatalAfterCommitErrors > 0 <==> FatalBatch(cfg, w))
            && stats.senderErrors == CountJoinedErrors(Gather(cfg, w, w.order).err)
            && stats.timing.publish == w.publishTime && stats.timing.db == w.dbTime
  {
    GatherErrorCount(cfg, w, w.order);
    LettersExact(cfg, w);
    UniqueSize(PoisonIds(LettersOf(cfg, w)));
  }

  /** With timestamps that do not decrease in id order, the reported age is that of the oldest
      selected event, and 0 for one from the future. */
  lemma OldestAgeIsGreatest(events: seq<Event>, now: int, k: nat)
    requires k < |events| && events[0].timestamp.Some? && events[k].timestamp.Some?
    requires events[0].timestamp.value <= events[k].timestamp.value
    ensures OldestEventAge(events, now) >= now - events[k].timestamp.value
    ensures OldestEventAge(events, now) == if now < events[0].timestamp.value then 0 else now - events[0].timestamp.value
  {
  }

  // What the counters say once a run's batches have ended.
  function Acked(cfg: Settings, worlds: seq<World>): nat {
    if worlds == [] then 0
    else Acked(cfg, worlds[..|worlds| - 1]) + if Succeeds(cfg, worlds[|worlds| - 1]) then 1 else 0
  }

  function SelectedIn(cfg: Settings, worlds: seq<World>): nat {
    if worlds == [] then 0
    else SelectedIn(cfg, worlds[..|worlds| - 1]) + if Succeeds(cfg, worlds[|worlds| - 1]) then |worlds[|worlds| - 1].events| else 0
  }

  function SentIn(cfg: Settings, worlds: seq<World>): nat {
    if worlds == [] then 0
    else
      var w := worlds[|worlds| - 1];
      SentIn(cfg, worlds[..|worlds| - 1]) + if Succeeds(cfg, w) then |SentIds(cfg, w, Everyone(w))| else 0
  }

  function CondemnedCount(cfg: Settings, worlds: seq<World>): nat {
    if worlds == [] then 0
    else
      var w := worlds[|worlds| - 1];
      CondemnedCount(cfg, worlds[..|worlds| - 1]) + if Succeeds(cfg, w) then |PoisonedIds(cfg, w, Everyone(w))| else 0
  }

  function FatalIn(cfg: Settings, worlds: seq<World>): nat {
    if worlds == [] then 0
    else
      var w := worlds[|worlds| - 1];
      FatalIn(cfg, worlds[..|worlds| - 1]) + if Succeeds(cfg, w) && FatalBatch(cfg, w) then 1 else 0
  }

  /** Over a run, every batch is counted once, as processed if it succeeded and as an error
      otherwise, and the outcome counters grow by the outcomes of the successful ones: a batch
      whose acknowledgement was lost is an error although its rows are gone. */
  lemma {:induction false} RunCounts(cfg: Settings, s: Snapshot, worlds: seq<World>)
    requires ValidRun(cfg, worlds)
    ensures var before, after := s.totals, AfterEffects(cfg, s, Effects(cfg, worlds)).totals;
            && after.batchesProcessed == before.batchesProcessed + Acked(cfg, worlds)
            && after.batchErrors + Acked(cfg, worlds) == before.batchErrors + |worlds|
            && after.selected == before.selected + SelectedIn(cfg, worlds)
            && after.sent == before.sent + SentIn(cfg, worlds)
            && after.poison + after.dlq == before.poison + before.dlq + CondemnedCount(cfg, worlds)
            && (if cfg.dlq then after.poison == before.poison else after.dlq == before.dlq)
            && after.fatalAfterCommitErrors == before.fatalAfterCommitErrors + FatalIn(cfg, worlds)
  {
    if worlds != [] {
      var k := |worlds| - 1;
      assert worlds[..k + 1] == worlds;
      RunCounts(cfg, s, worlds[..k]);
      OneMore(cfg, s, worlds, k);
      SucceedsIffAcknowledged(cfg, worlds[k]);
    }
  }

  // --- rows ---------------------------------------------------------------------------------

  // Some batch's transaction took effect and gave row `id` a final outcome.
  predicate SettledIn(cfg: Settings, worlds: seq<World>, id: EventId) {
    exists k | 0 <= k < |worlds| :: Applied(cfg, worlds[k]) && id in Finished(cfg, worlds[k])
  }

  /** A row is gone after a run exactly when some applied batch confirmed or condemned
      it: no rollback, refused commit or lost acknowledgement loses a row, and none
      brings one back. */
  lemma {:induction false} RowsLeaveWhenSettled(cfg: Settings, s: Snapshot, worlds: seq<World>, id: EventId)
    ensures id in AfterEffects(cfg, s, Effects(cfg, worlds)).table <==> id in s.table && !SettledIn(cfg, worlds, id)
  {
    var effects := Effects(cfg, worlds);
    EffectsLength(cfg, worlds);
    forall k | 0 <= k < |worlds|
      ensures (id in RemovedBy(effects[k]) <==> Applied(cfg, worlds[k]) && id in Finished(cfg, worlds[k]))
    {
      EffectsAt(cfg, worlds, k);
    }
    RowsRemoved(cfg, s, effects, id);
  }

  lemma {:induction false} RowsRemoved(cfg: Settings, s: Snapshot, effects: seq<Effect>, id: EventId)
    ensures id in AfterEffects(cfg, s, effects).table
       <==> id in s.table && forall k :: 0 <= k < |effects| ==> id !in RemovedBy(effects[k])
  {
    if effects != [] {
      var init, last := effects[..|effects| - 1], effects[|effects| - 1];
      RowsRemoved(cfg, s, init, id);
      assert forall k :: 0 <= k < |init| ==> init[k] == effects[k];
    }
  }

  // --- dead letters -------------------------------------------------------------------------

  function LetterIds(letters: seq<PoisonReport>): set<EventId> {
    Elements(PoisonIds(letters))
  }

  lemma LettersExact(cfg: Settings, w: World)
    requires ValidWorld(cfg, w)
    ensures Unique(PoisonIds(LettersOf(cfg, w)))
    ensures LetterIds(LettersOf(cfg, w)) == if cfg.dlq then PoisonedIds(cfg, w, Everyone(w)) else {}
    ensures cfg.dlq ==> Elements(LettersOf(cfg, w)) == Poisons(cfg, w, Everyone(w))
  {
    GatherExact(cfg, w, w.order);
    PoisonIdElements(LettersOf(cfg, w));
    PoisonsAndIds(cfg, w, Everyone(w));
  }

  // An effect's dead letters are distinct rows among those it removes.
  predicate LettersFit(e: Effect) {
    e.writes.Some? ==> Unique(PoisonIds(e.writes.value.letters)) && LettersBy(e) <= RemovedBy(e)
  }

  lemma EffectFits(cfg: Settings, w: World)
    requires ValidWorld(cfg, w)
    ensures LettersFit(EffectOf(cfg, w))
    ensures LettersBy(EffectOf(cfg, w)) == if Applied(cfg, w) && cfg.dlq then PoisonedIds(cfg, w, Everyone(w)) else {}
  {
    LettersExact(cfg, w);
  }

  // Dead letters name distinct rows, none of them still in the table.
  ghost predicate LettersApart(s: Snapshot) {
    Unique(PoisonIds(s.letters)) && LetterIds(s.letters) !! s.table
  }

  lemma LettersStep(cfg: Settings, s: Snapshot, e: Effect)
    requires LettersApart(s) && LettersFit(e) && RemovedBy(e) <= s.table
    ensures LettersApart(AfterEffect(cfg, s, e))
    ensures LetterIds(AfterEffect(cfg, s, e).letters) == LetterIds(s.letters) + LettersBy(e)
  {
    if e.writes.Some? {
      PoisonIdsConcat(s.letters, e.writes.value.letters);
      UniqueConcat(PoisonIds(s.letters), PoisonIds(e.writes.value.letters));
    }
  }

  // Every effect removes rows that are in the table at that time.
  ghost predicate RemovesFromTable(cfg: Settings, s: Snapshot, effects: seq<Effect>) {
    forall k :: 0 <= k < |effects| ==> RemovedBy(effects[k]) <= AfterEffects(cfg, s, effects[..k]).table
  }

  predicate LetteredIn(effects: seq<Effect>, id: EventId) {
    exists k | 0 <= k < |effects| :: id in LettersBy(effects[k])
  }

  lemma {:induction false} LettersAccumulate(cfg: Settings, s: Snapshot, effects: seq<Effect>)
    requires LettersApart(s) && RemovesFromTable(cfg, s, effects)
    requires forall k :: 0 <= k < |effects| ==> LettersFit(effects[k])
    ensures LettersApart(AfterEffects(cfg, s, effects))
    ensures forall id :: id in LetterIds(AfterEffects(cfg, s, effects).letters) <==> id in LetterIds(s.letters) || LetteredIn(effects, id)
  {
    if effects != [] {
      var init, last := effects[..|effects| - 1], effects[|effects| - 1];
      assert forall k :: 0 <= k < |init| ==> effects[..k] == init[..k] && effects[k] == init[k];
      LettersAccumulate(cfg, s, init);
      assert LettersFit(last);
      LettersStep(cfg, AfterEffects(cfg, s, init), last);
      LetteredAppend(init, last);
      assert effects == init + [last];
    }
  }

  lemma LetteredAppend(effects: seq<Effect>, e: Effect)
    ensures forall id :: LetteredIn(effects + [e], id) <==> LetteredIn(effects, id) || id in LettersBy(e)
  {
    var all := effects + [e];
    assert all[|effects|] == e;
    assert forall k | 0 <= k < |effects| :: all[k] == effects[k];
  }

  predicate CondemnedIn(cfg: Settings, worlds: seq<World>, id: EventId) {
    exists k | 0 <= k < |worlds| :: Applied(cfg, worlds[k]) && id in PoisonedIds(cfg, worlds[k], Everyone(worlds[k]))
  }

  // Every batch selects rows that are in the table when it runs.
  ghost predicate SelectsFromTable(cfg: Settings, s: Snapshot, worlds: seq<World>) {
    forall k :: 0 <= k < |worlds| ==> IdsOf(worlds[k].events) <= AfterEffects(cfg, s, Effects(cfg, worlds[..k])).table
  }

  /** Over a whole run, with a dead-letter table configured, exactly the rows some
      applied batch condemned are dead-lettered, each of them once, and none of them is
      still in the outbox; without one nothing is. */
  lemma DeadLettersOnce(cfg: Settings, s: Snapshot, worlds: seq<World>)
    requires ValidRun(cfg, worlds) && SelectsFromTable(cfg, s, worlds) && LettersApart(s)
    ensures LettersApart(AfterEffects(cfg, s, Effects(cfg, worlds)))
    ensures forall id :: id in LetterIds(AfterEffects(cfg, s, Effects(cfg, worlds)).letters)
                    <==> id in LetterIds(s.letters) || (cfg.dlq && CondemnedIn(cfg, worlds, id))
  {
    var effects := Effects(cfg, worlds);
    EffectsLength(cfg, worlds);
    forall k: nat | k < |worlds| {
      EffectAtFits(cfg, s, worlds, k);
    }
    LettersAccumulate(cfg, s, effects);
    forall id {
      LetteredIffCondemned(cfg, worlds, id);
    }
  }

  lemma EffectAtFits(cfg: Settings, s: Snapshot, worlds: seq<World>, k: nat)
    requires ValidRun(cfg, worlds) && SelectsFromTable(cfg, s, worlds) && k < |worlds|
    ensures var effects := Effects(cfg, worlds);
            |effects| == |worlds| && LettersFit(effects[k]) && RemovedBy(effects[k]) <= AfterEffects(cfg, s, effects[..k]).table
  {
    EffectsAt(cfg, worlds, k);
    EffectFits(cfg, worlds[k]);
    RemovedAreSelected(cfg, worlds[k]);
  }

  lemma RemovedAreSelected(cfg: Settings, w: World)
    ensures RemovedBy(EffectOf(cfg, w)) <= IdsOf(w.events)
  {
  }

  lemma LetteredIffCondemned(cfg: Settings, worlds: seq<World>, id: EventId)
    requires ValidRun(cfg, worlds)
    ensures LetteredIn(Effects(cfg, worlds), id) <==> cfg.dlq && CondemnedIn(cfg, worlds, id)
  {
    var effects := Effects(cfg, worlds);
    EffectsLength(cfg, worlds);
    forall k | 0 <= k < |worlds|
      ensures LettersBy(effects[k]) == if Applied(cfg, worlds[k]) && cfg.dlq then PoisonedIds(cfg, worlds[k], Everyone(worlds[k])) else {}
    {
      EffectsAt(cfg, worlds, k);
      EffectFits(cfg, worlds[k]);
    }
    if LetteredIn(effects, id) {
      var k :| 0 <= k < |effects| && id in LettersBy(effects[k]);
      assert Applied(cfg, worlds[k]) && id in PoisonedIds(cfg, worlds[k], Everyone(worlds[k]));
    }
    if cfg.dlq && CondemnedIn(cfg, worlds, id) {
      var k :| 0 <= k < |worlds| && Applied(cfg, worlds[k]) && id in PoisonedIds(cfg, worlds[k], Everyone(worlds[k]));
      assert id in LettersBy(effects[k]);
    }
  }

  // --- the backlog gauge --------------------------------------------------------------------

  // What a gauge says about the number of routable rows left.
  predicate Truthful(g: Gauge, total: nat) {
    if g.floor then g.events <= total else g.events == total
  }

  predicate SameReading(a: Gauge, b: Gauge) {
    a.events == b.events && a.floor == b.floor
  }

  // The probe of a batch that does not look drained is due: none ran within its interval.
  predicate ProbeDue(cfg: Settings, g: Gauge, now: int) {
    g.lastProbe.None? || now >= g.lastProbe.value + if cfg.statsInterval > 0 then cfg.statsInterval else 10000
  }

  // How the gauge moves: a drained-looking batch sets what it kept, marked exact; another one
  // sets it as a floor when probing is off, takes the answer of a probe that is due, and is
  // otherwise no news.
  predicate GaugeMoves(cfg: Settings, g: Gauge, drained: bool, kept: nat, now: int, probe: Option<(nat, bool)>, after: Gauge) {
    && (drained ==> after.events == kept && !after.floor)
    && (!drained && cfg.backlogLimit <= 0 ==> after.events == kept && after.floor)
    && (!drained && cfg.backlogLimit > 0 && ProbeDue(cfg, g, now) && probe.Some? ==>
          after.events == probe.value.0 && after.floor == probe.value.1)
    && (!drained && cfg.backlogLimit > 0 && (!ProbeDue(cfg, g, now) || probe.None?) ==> SameReading(after, g))
    && after.lastProbe == if !drained && cfg.backlogLimit > 0 && ProbeDue(cfg, g, now) then Some(now) else g.lastProbe
  }

  lemma GaugeCases(cfg: Settings, g: Gauge, drained: bool, kept: nat, now: int, probe: Option<(nat, bool)>, total: nat)
    requires kept <= total
    requires cfg.backlogLimit > 0 && probe.Some? ==> Truthful(Gauge(probe.value.0, probe.value.1, None), total)
    ensures var after := GaugeAfter(cfg, g, drained, kept, now, probe);
            && GaugeMoves(cfg, g, drained, kept, now, probe, after)
            && if drained then Truthful(after, total) <==> kept == total
               else Truthful(after, total) || (cfg.backlogLimit > 0 && (!ProbeDue(cfg, g, now) || probe.None?))
  {
  }

  // The routable rows left once `gone` has been removed from the table.
  function LeftAfter(routing: Routing.Config, t: Selection.Table, gone: set<Selection.RowId>): nat {
    |Selection.RoutableIds(routing, Selection.Without(t, gone))|
  }

  lemma StrictSize(a: set<Selection.RowId>, b: set<Selection.RowId>)
    requires a <= b
    ensures |a| <= |b| && (|a| == |b| <==> a == b)
  {
    assert b == a + (b - a);
  }

  // The rows kept for retry are among those left, and all of them unless some route keeps
  // rows that were not selected.
  lemma KeptIsLeft(
    routing: Routing.Config, t: Selection.Table, target: int, gone: set<Selection.RowId>, done: set<Selection.RowId>)
    requires done <= Selection.SelectedIds(routing, t, target) - gone
    ensures var kept := |Selection.SelectedIds(routing, t, target) - gone| - |done|;
            && 0 <= kept <= LeftAfter(routing, t, gone + done)
            && (kept == LeftAfter(routing, t, gone + done) <==> !Selection.LeavesBehind(routing, t, target, gone))
  {
    var selected, routable := Selection.SelectedIds(routing, t, target) - gone, Selection.RoutableIds(routing, t) - gone;
    Selection.LeavesBehindIff(routing, t, target, gone);
    Selection.LeftRoutable(routing, t, gone + done);
    assert Selection.RoutableIds(routing, t) - (gone + done) == routable - done;
    KeptSize(selected, routable, done);
  }

  lemma KeptSize(selected: set<Selection.RowId>, routable: set<Selection.RowId>, done: set<Selection.RowId>)
    requires done <= selected <= routable
    ensures |selected| - |done| <= |routable - done| && (|selected| - |done| == |routable - done| <==> selected == routable)
  {
    assert selected == (selected - done) + done && routable == (routable - done) + done;
    StrictSize(selected, routable);
  }

  // The probe, if it answers, counts the table after `removed` is gone from it.
  predicate ProbesTable(cfg: Settings, routing: Routing.Config, t: Selection.Table, removed: set<Selection.RowId>, probe: Option<(nat, bool)>) {
    cfg.backlogLimit > 0 && probe.Some? ==>
      probe.value == Selection.CountBacklog(routing, Selection.Without(t, removed), cfg.backlogLimit)
  }

  // What the reading after a batch is worth: one that does not look drained gives an exact
  // value or a true floor, unless its probe was not due or did not answer; one that looks
  // drained gives a value marked exact, which is wrong exactly when some route keeps rows
  // that were not selected.
  predicate ReadingIsWorth(after: Gauge, drained: bool, left: nat, probed: bool, leavesBehind: bool) {
    if drained then !after.floor && (Truthful(after, left) <==> !leavesBehind)
    else probed ==> Truthful(after, left)
  }

  // Probing is off, or the probe was due and answered.
  predicate Probed(cfg: Settings, g: Gauge, now: int, probe: Option<(nat, bool)>) {
    cfg.backlogLimit <= 0 || (ProbeDue(cfg, g, now) && probe.Some?)
  }

  lemma GaugeIsTruthful(
    cfg: Settings, g: Gauge, routing: Routing.Config, t: Selection.Table, gone: set<Selection.RowId>,
    events: seq<Selection.Event>, done: set<Selection.RowId>, kept: nat, now: int, probe: Option<(nat, bool)>)
    requires Routing.ValidConfig(routing)
    requires done <= Selection.SelectedIds(routing, t, cfg.target) - gone
    requires Selection.IsSelection(routing, t, Selection.SelectedIds(routing, t, cfg.target) - gone, events)
    requires kept == |Selection.SelectedIds(routing, t, cfg.target) - gone| - |done|
    requires ProbesTable(cfg, routing, t, gone + done, probe)
    ensures var looks, after := Selection.LooksDrained(routing, t, cfg.target, gone),
                                GaugeAfter(cfg, g, Selection.Drained(events, cfg.target), kept, now, probe);
            && GaugeMoves(cfg, g, looks, kept, now, probe, after)
            && ReadingIsWorth(after, looks, LeftAfter(routing, t, gone + done), Probed(cfg, g, now, probe),
                              Selection.LeavesBehind(routing, t, cfg.target, gone))
  {
    KeptIsLeft(routing, t, cfg.target, gone, done);
    Selection.DrainedAfterLoss(routing, t, cfg.target, gone, events);
    if cfg.backlogLimit > 0 {
      Selection.ProbeIsExactUnlessCapped(routing, Selection.Without(t, gone + done), cfg.backlogLimit);
    }
    GaugeCases(cfg, g, Selection.Drained(events, cfg.target), kept, now, probe, LeftAfter(routing, t, gone + done));
  }

  // A batch finishes only rows it selected, and keeps the others.
  lemma FinishedAndKept(cfg: Settings, routing: Routing.Config, t: Selection.Table, ids: set<Selection.RowId>, w: World)
    requires ValidWorld(cfg, w) && Selection.IsSelection(routing, t, ids, Brief(w.events))
    ensures Finished(cfg, w) <= ids && |KeptIds(cfg, w, Everyone(w))| == |ids| - |Finished(cfg, w)|
  {
    EventsAreIds(routing, t, ids, w.events);
    EventCount(cfg, w);
    OutcomesPartition(cfg, w, Everyone(w));
    OutcomesDisjoint(cfg, w, Everyone(w));
    OutcomesCover(cfg, w, Everyone(w));
  }

  lemma EventsAreIds(routing: Routing.Config, t: Selection.Table, ids: set<Selection.RowId>, events: seq<Event>)
    requires Selection.IsSelection(routing, t, ids, Brief(events))
    ensures IdsOf(events) == ids
  {
    var brief := Brief(events);
    forall e | e in events
      ensures e.id in ids
    {
      var k :| 0 <= k < |events| && events[k] == e;
      assert brief[k] in brief;
    }
    forall i | i in ids
      ensures i in IdsOf(events)
    {
      var k :| 0 <= k < |brief| && brief[k] == Selection.Event(i, Selection.RouteOf(routing, t, i).value);
      assert events[k] in events && events[k].id == i;
    }
  }

  /** The gauge after a batch of the loop, with no inserts since its selection, the rows
      `gone` deleted by other relays meanwhile. If the batch does not look drained, what it
      kept is a true floor when probing is off, and the answer of a probe that is due is
      taken and true; if it does, the reading is marked exact, and is wrong exactly when some
      route keeps more rows than were selected of it. */
  lemma BatchGaugeIsTruthful(
    cfg: Settings, s: Snapshot, routing: Routing.Config, t: Selection.Table, gone: set<Selection.RowId>, w: World)
    requires ValidWorld(cfg, w) && Routing.ValidConfig(routing) && Acknowledged(cfg, w) && !FatalBatch(cfg, w)
    requires Selection.IsSelection(routing, t, Selection.SelectedIds(routing, t, cfg.target) - gone, Brief(w.events))
    requires ProbesTable(cfg, routing, t, gone + Finished(cfg, w), w.probe)
    ensures var looks, after := Selection.LooksDrained(routing, t, cfg.target, gone), AfterEffect(cfg, s, EffectOf(cfg, w)).gauge;
            && GaugeMoves(cfg, s.gauge, looks, |KeptIds(cfg, w, Everyone(w))|, w.later, w.probe, after)
            && ReadingIsWorth(after, looks, LeftAfter(routing, t, gone + Finished(cfg, w)), Probed(cfg, s.gauge, w.later, w.probe),
                              Selection.LeavesBehind(routing, t, cfg.target, gone))
  {
    FinishedAndKept(cfg, routing, t, Selection.SelectedIds(routing, t, cfg.target) - gone, w);
    GaugeIsTruthful(cfg, s.gauge, routing, t, gone, Brief(w.events), Finished(cfg, w), |KeptIds(cfg, w, Everyone(w))|, w.later, w.probe);
  }

  /** A concrete case: one of two selected rows is deleted by another relay, the other is
      kept for retry, and the gauge claims exactly one routable row where two are left. */
  lemma LossFoolsGauge(cfg: Settings, g: Gauge, now: int, probe: Option<(nat, bool)>)
    returns (routing: Routing.Config, t: Selection.Table, gone: set<Selection.RowId>, events: seq<Selection.Event>)
    requires cfg.target == 2
    ensures gone <= Selection.SelectedIds(routing, t, 2)
    ensures Selection.IsSelection(routing, t, Selection.SelectedIds(routing, t, 2) - gone, events) && |events| == 1
    ensures var after := GaugeAfter(cfg, g, Selection.Drained(events, 2), 1, now, probe);
            after.events == 1 && !after.floor && LeftAfter(routing, t, gone) == 2
  {
    routing, t, gone, events := Selection.LossLooksDrained();
    Selection.LeftRoutable(routing, t, gone);
    assert Selection.RoutableIds(routing, t) - gone == {1, 2};
  }
}

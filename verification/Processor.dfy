/** Triage of a selected batch and the gathering of its senders' results.

    OutcomeOf says of each selected event, independently of the code, how it ends;
    the methods are proved against it.
 */
module Processor {
  import opened Errors
  import opened Routing
  import opened Collector
  import opened Expiry
  import Selection

  // A selected row with its resolved route, as scanEvents returns it. `malformed`
  // events have an options column that does not parse.
  datatype Event = Event(id: EventId, route: Route, timestamp: Option<int>, malformed: bool)

  // maxAge is MAX_EVENT_AGE_MS, statsInterval the period of the stats log (0 when
  // off), dlq whether a dead-letter table is configured.
  datatype Settings = Settings(
    senders: set<string>, target: int, maxAge: int, dlq: bool, backlogLimit: int, statsInterval: int)

  // --- what the environment does to one batch -------------------------------------------

  // The callbacks one provider call makes, in the order the collector receives them,
  // and the error it returns.
  datatype SenderRun = SenderRun(calls: seq<Callback>, err: Error)

  // The database operation that fails, if any. AckLost is a commit that takes effect
  // although its acknowledgement is lost.
  datatype Fault = NoFault | BeginFails | SelectFails | LettersFail | DeleteFails | CommitFails | AckLost

  // `events` are the selected rows, `now` and `later` clock readings before and after
  // the batch, `runs` the provider calls by target, `order` the order in which they
  // finish, `publishTime` and `dbTime` how long the batch publishes and works in the
  // database, `probe` the backlog probe's answer.
  datatype World = World(
    fault: Fault, events: seq<Event>, now: int, runs: map<string, SenderRun>, order: seq<string>,
    publishTime: nat, dbTime: nat, later: int, probe: Option<(nat, bool)>)

  function RunOf(w: World, target: string): SenderRun {
    if target in w.runs then w.runs[target] else SenderRun([], None)
  }

  predicate Unique<T(==)>(s: seq<T>) {
    forall i, j | 0 <= i < j < |s| :: s[i] != s[j]
  }

  // Selected rows have distinct ids, every sender finishes once, and no provider
  // returns the relay's private database sentinel.
  predicate ValidWorld(cfg: Settings, w: World) {
    && (forall i, j | 0 <= i < j < |w.events| :: w.events[i].id != w.events[j].id)
    && Unique(w.order)
    && (forall target | target in cfg.senders :: target in w.order)
    && (forall target | target in w.runs :: !Is(w.runs[target].err, DatabaseBatch))
  }

  // --- triage -----------------------------------------------------------------------------

  const EXPIRED := "Event expired by MAX_EVENT_AGE_MS"
  const MALFORMED := "malformed options"

  datatype Verdict = Condemned(reason: string) | Unroutable | Dispatched

  function Judge(cfg: Settings, e: Event, now: int): Verdict {
    if IsExpired(cfg.maxAge, e.timestamp, now) then Condemned(EXPIRED)
    else if e.route.target == "" || e.route.target !in cfg.senders then Unroutable
    else if e.malformed then Condemned(MALFORMED)
    else Dispatched
  }

  // The poison reports of triage, in selection order.
  function CondemnedOf(cfg: Settings, events: seq<Event>, now: int): seq<PoisonReport> {
    if events == [] then []
    else
      var init, last := events[..|events| - 1], events[|events| - 1];
      var verdict := Judge(cfg, last, now);
      CondemnedOf(cfg, init, now) + if verdict.Condemned? then [PoisonReport(last.id, verdict.reason)] else []
  }

  // The events handed to one target's sender, in selection order.
  function ForTarget(cfg: Settings, events: seq<Event>, now: int, target: string): seq<Event> {
    if events == [] then []
    else
      var init, last := events[..|events| - 1], events[|events| - 1];
      ForTarget(cfg, init, now, target)
      + if Judge(cfg, last, now).Dispatched? && last.route.target == target then [last] else []
  }

  datatype Triage = Triage(byTarget: map<string, seq<Event>>, poison: seq<PoisonReport>)

  function GroupOf(byTarget: map<string, seq<Event>>, target: string): seq<Event> {
    if target in byTarget then byTarget[target] else []
  }

  predicate TriageFails(cfg: Settings, events: seq<Event>, now: int) {
    exists e | e in events :: Judge(cfg, e, now).Unroutable?
  }

  method TriageEvents(cfg: Settings, events: seq<Event>, now: int) returns (triage: Triage, err: Error)
    ensures err.Some? <==> TriageFails(cfg, events, now)
    ensures err.Some? ==> err == Some(Leaf(Provider))
    ensures err.None? ==> triage.poison == CondemnedOf(cfg, events, now)
    ensures err.None? ==> forall t :: GroupOf(triage.byTarget, t) == ForTarget(cfg, events, now, t)
    ensures forall t :: t in triage.byTarget ==> t in cfg.senders && triage.byTarget[t] != []
    ensures err.Some? <==> exists e :: && e in events && (e.route.target == "" || e.route.target !in cfg.senders)
                                       && !(cfg.maxAge > 0 && e.timestamp.Some? && e.timestamp.value + cfg.maxAge < now)
    ensures err.None? ==> forall id, reason ::
              PoisonReport(id, reason) in triage.poison <==>
                exists e :: && e in events && e.id == id
                            && if cfg.maxAge > 0 && e.timestamp.Some? && e.timestamp.value + cfg.maxAge < now then reason == EXPIRED
                               else e.malformed && reason == MALFORMED
    ensures err.None? ==> forall t, e ::
              e in GroupOf(triage.byTarget, t) <==>
                && e in events && e.route.target == t && !e.malformed
                && !(cfg.maxAge > 0 && e.timestamp.Some? && e.timestamp.value + cfg.maxAge < now)
  {
    triage := Triage(map[], []);
    for i := 0 to |events|
      invariant triage.poison == CondemnedOf(cfg, events[..i], now)
      invariant forall t :: GroupOf(triage.byTarget, t) == ForTarget(cfg, events[..i], now, t)
      invariant forall t :: t in triage.byTarget ==> t in cfg.senders && triage.byTarget[t] != []
      invariant forall k :: 0 <= k < i ==> !Judge(cfg, events[k], now).Unroutable?
    {
      var e := events[i];
      assert events[..i + 1][..i] == events[..i];
      if IsExpired(cfg.maxAge, e.timestamp, now) {
        triage := triage.(poison := triage.poison + [PoisonReport(e.id, EXPIRED)]);
        continue;
      }
      var target := e.route.target;
      if target == "" {
        assert Judge(cfg, e, now).Unroutable?;
        return triage, Some(Leaf(Provider));
      }
      if target !in cfg.senders {
        assert Judge(cfg, e, now).Unroutable?;
        return triage, Some(Leaf(Provider));
      }
      if e.malformed {
        triage := triage.(poison := triage.poison + [PoisonReport(e.id, MALFORMED)]);
        continue;
      }
      var group := if target in triage.byTarget then triage.byTarget[target] else [];
      triage := triage.(byTarget := triage.byTarget[target := group + [e]]);
    }
    assert events[..|events|] == events;
    CondemnedMeans(cfg, events, now);
    forall t {
      ForTargetMembers(cfg, events, now, t);
    }
    err := None;
  }

  lemma CondemnedMeans(cfg: Settings, events: seq<Event>, now: int)
    requires !TriageFails(cfg, events, now)
    ensures forall id, reason ::
              PoisonReport(id, reason) in CondemnedOf(cfg, events, now) <==>
                exists e :: && e in events && e.id == id
                            && if cfg.maxAge > 0 && e.timestamp.Some? && e.timestamp.value + cfg.maxAge < now then reason == EXPIRED
                               else e.malformed && reason == MALFORMED
  {
    forall id, reason {
      CondemnedMember(cfg, events, now, id, reason);
    }
  }

  lemma {:induction false} CondemnedMember(cfg: Settings, events: seq<Event>, now: int, id: EventId, reason: string)
    ensures PoisonReport(id, reason) in CondemnedOf(cfg, events, now)
       <==> exists e :: e in events && e.id == id && Judge(cfg, e, now) == Condemned(reason)
  {
    if events != [] {
      var init, last := events[..|events| - 1], events[|events| - 1];
      CondemnedMember(cfg, init, now, id, reason);
      assert forall e :: e in events <==> e in init || e == last;
    }
  }

  /** Triage never fails on a selection made under the same configuration: every row
      the query selects has a route whose target has a sender. */
  lemma SelectedNeverFailsTriage(
    cfg: Settings, routing: Config, t: Selection.Table, ids: set<Selection.RowId>, brief: seq<Selection.Event>,
    events: seq<Event>, now: int)
    requires ValidConfig(routing) && cfg.senders == (set p | p in routing.providers :: p.target)
    requires Selection.IsSelection(routing, t, ids, brief) && Brief(events) == brief
    ensures !TriageFails(cfg, events, now)
  {
    forall e | e in events
      ensures e.route.target != "" && e.route.target in cfg.senders
    {
      var k :| 0 <= k < |events| && events[k] == e;
      assert brief[k] in brief && brief[k].route == e.route;
      assert Resolve(routing, t[brief[k].id]) == Some(e.route);
    }
  }

  // The part of a selected event batchDrained looks at.
  function Brief(events: seq<Event>): (brief: seq<Selection.Event>)
    ensures |brief| == |events|
    ensures forall k | 0 <= k < |events| :: brief[k] == Selection.Event(events[k].id, events[k].route)
  {
    seq(|events|, k requires 0 <= k < |events| => Selection.Event(events[k].id, events[k].route))
  }

  // --- how each event ends ---------------------------------------------------------------------

  datatype Outcome = Sent | Poisoned(reason: string) | Kept

  // The outcome of a selected event once the senders in `done` have returned: triage
  // condemns it, or the first report its own sender makes about it decides.
  function OutcomeOf(cfg: Settings, w: World, done: set<string>, e: Event): Outcome {
    match Judge(cfg, e, w.now)
    case Condemned(reason) => Poisoned(reason)
    case Unroutable => Kept
    case Dispatched =>
      if e.route.target !in done then Kept
      else
        match FirstFor(RunOf(w, e.route.target).calls, e.id)
        case None => Kept
        case Some(Confirm(_)) => Sent
        case Some(Poison(_, reason)) => Poisoned(reason)
  }

  /** What the outcome of a selected event means, once its sender has returned: it is dropped
      when it is past the maximum age, poisoned when its options are malformed, and otherwise
      ends as the first report its own sender makes about it says. */
  lemma OutcomeMeans(cfg: Settings, w: World, done: set<string>, e: Event)
    requires e.route.target in done && e.route.target in cfg.senders && e.route.target != ""
    ensures var overdue := cfg.maxAge > 0 && e.timestamp.Some? && e.timestamp.value + cfg.maxAge < w.now;
            var calls := RunOf(w, e.route.target).calls;
            && (OutcomeOf(cfg, w, done, e) == Sent
                <==> !overdue && !e.malformed && IsFirst(calls, e.id, Confirm(Some(e.id))))
            && (forall reason ::
                  OutcomeOf(cfg, w, done, e) == Poisoned(reason)
                  <==> if overdue then reason == EXPIRED else if e.malformed then reason == MALFORMED
                       else IsFirst(calls, e.id, Poison(Some(e.id), reason)))
  {
    FirstForIsFirst(RunOf(w, e.route.target).calls, e.id);
  }

  // `call` is the first of the calls about this id.
  ghost predicate IsFirst(calls: seq<Callback>, id: EventId, call: Callback) {
    exists k :: 0 <= k < |calls| && calls[k] == call && call.id == Some(id) && forall i :: 0 <= i < k ==> calls[i].id != Some(id)
  }

  lemma {:induction false} FirstForIsFirst(calls: seq<Callback>, id: EventId)
    ensures forall call :: FirstFor(calls, id) == Some(call) <==> IsFirst(calls, id, call)
    decreases |calls|
  {
    if calls != [] {
      var tail := calls[1..];
      FirstForIsFirst(tail, id);
      forall call
        ensures IsFirst(calls, id, call) <==> if calls[0].id == Some(id) then call == calls[0] else IsFirst(tail, id, call)
      {
        FirstShifts(calls, id, call);
      }
    }
  }

  lemma FirstShifts(calls: seq<Callback>, id: EventId, call: Callback)
    requires calls != []
    ensures IsFirst(calls, id, call) <==> if calls[0].id == Some(id) then call == calls[0] else IsFirst(calls[1..], id, call)
  {
    if k :| 0 <= k < |calls| && calls[k] == call && call.id == Some(id) && forall i :: 0 <= i < k ==> calls[i].id != Some(id) {
      if k > 0 {
        assert calls[1..][k - 1] == call && forall i :: 0 <= i < k - 1 ==> calls[1..][i] == calls[i + 1];
      }
    }
    if calls[0].id != Some(id) && IsFirst(calls[1..], id, call) {
      var k :| 0 <= k < |calls[1..]| && calls[1..][k] == call && forall i :: 0 <= i < k ==> calls[1..][i].id != Some(id);
      assert calls[k + 1] == call && forall i :: 0 < i < k + 1 ==> calls[i] == calls[1..][i - 1];
    }
  }

  function SentIds(cfg: Settings, w: World, done: set<string>): set<EventId> {
    set e | e in w.events && OutcomeOf(cfg, w, done, e) == Sent :: e.id
  }

  function Poisons(cfg: Settings, w: World, done: set<string>): set<PoisonReport> {
    set e | e in w.events && OutcomeOf(cfg, w, done, e).Poisoned? :: PoisonReport(e.id, OutcomeOf(cfg, w, done, e).reason)
  }

  function PoisonedIds(cfg: Settings, w: World, done: set<string>): set<EventId> {
    set e | e in w.events && OutcomeOf(cfg, w, done, e).Poisoned? :: e.id
  }

  function KeptIds(cfg: Settings, w: World, done: set<string>): set<EventId> {
    set e | e in w.events && OutcomeOf(cfg, w, done, e) == Kept :: e.id
  }

  function Elements<T>(s: seq<T>): set<T> {
    set x | x in s
  }

  // All the senders that ran.
  function Everyone(w: World): set<string> {
    Elements(w.order)
  }

  function IdsOf(events: seq<Event>): set<EventId> {
    set e | e in events :: e.id
  }

  // --- gathering the senders' results ----------------------------------------------------------

  datatype Gathered = Gathered(confirmed: seq<EventId>, poison: seq<PoisonReport>, deleteIds: seq<EventId>, err: Error)

  function SenderOutputOf(cfg: Settings, w: World, target: string): SenderOutput {
    Collected(IdsOf(ForTarget(cfg, w.events, w.now, target)), RunOf(w, target).calls)
  }

  function AddResult(g: Gathered, output: SenderOutput, err: Error): Gathered {
    Gathered(g.confirmed + output.confirmed, g.poison + output.poison, g.deleteIds + FinishedIds(output),
             if err.None? then g.err else Join(g.err, err))
  }

  // The results of the senders in `order`, one after the other.
  function Gather(cfg: Settings, w: World, order: seq<string>): Gathered {
    if order == [] then
      var condemned := CondemnedOf(cfg, w.events, w.now);
      Gathered([], condemned, PoisonIds(condemned), None)
    else
      var g, target := Gather(cfg, w, order[..|order| - 1]), order[|order| - 1];
      if ForTarget(cfg, w.events, w.now, target) == [] then g
      else AddResult(g, SenderOutputOf(cfg, w, target), RunOf(w, target).err)
  }

  // What a partial gathering knows: the two outcome lists are exact and free of
  // duplicates, and deleteIds holds both, once each.
  ghost predicate GatherInv(cfg: Settings, w: World, done: set<string>, g: Gathered) {
    && Unique(g.confirmed) && Elements(g.confirmed) == SentIds(cfg, w, done)
    && Unique(PoisonIds(g.poison)) && Elements(g.poison) == Poisons(cfg, w, done)
    && Unique(g.deleteIds) && Elements(g.deleteIds) == SentIds(cfg, w, done) + PoisonedIds(cfg, w, done)
    && |g.deleteIds| == |g.confirmed| + |g.poison|
  }

  lemma UniqueConcat<T>(a: seq<T>, b: seq<T>)
    requires Unique(a) && Unique(b) && Elements(a) !! Elements(b)
    ensures Unique(a + b) && Elements(a + b) == Elements(a) + Elements(b)
  {
    forall i, j | 0 <= i < j < |a + b|
      ensures (a + b)[i] != (a + b)[j]
    {
      if i < |a| <= j {
        assert a[i] in Elements(a) && b[j - |a|] in Elements(b);
      }
    }
  }

  lemma {:induction false} UniqueSize<T>(s: seq<T>)
    requires Unique(s)
    ensures |Elements(s)| == |s|
  {
    if s != [] {
      var init, last := s[..|s| - 1], s[|s| - 1];
      UniqueSize(init);
      assert Elements(s) == Elements(init) + {last};
    }
  }

  lemma PoisonIdsConcat(a: seq<PoisonReport>, b: seq<PoisonReport>)
    ensures PoisonIds(a + b) == PoisonIds(a) + PoisonIds(b)
  {
  }

  lemma PoisonIdElements(poison: seq<PoisonReport>)
    ensures Elements(PoisonIds(poison)) == set p | p in poison :: p.id
  {
    forall p | p in poison
      ensures p.id in PoisonIds(poison)
    {
      var k :| 0 <= k < |poison| && poison[k] == p;
      assert PoisonIds(poison)[k] == p.id;
    }
  }

  lemma {:induction false} ForTargetMembers(cfg: Settings, events: seq<Event>, now: int, target: string)
    ensures forall e :: e in ForTarget(cfg, events, now, target)
                   <==> e in events && Judge(cfg, e, now).Dispatched? && e.route.target == target
  {
    if events != [] {
      var init, last := events[..|events| - 1], events[|events| - 1];
      ForTargetMembers(cfg, init, now, target);
      assert forall e :: e in events <==> e in init || e == last;
    }
  }

  function CondemnedSet(cfg: Settings, events: seq<Event>, now: int): set<PoisonReport> {
    set e | e in events && Judge(cfg, e, now).Condemned? :: PoisonReport(e.id, Judge(cfg, e, now).reason)
  }

  lemma CondemnedSetAppend(cfg: Settings, events: seq<Event>, e: Event, now: int)
    ensures CondemnedSet(cfg, events + [e], now)
         == CondemnedSet(cfg, events, now)
          + if Judge(cfg, e, now).Condemned? then {PoisonReport(e.id, Judge(cfg, e, now).reason)} else {}
  {
    assert forall x :: x in events + [e] <==> x in events || x == e;
  }

  lemma {:induction false} CondemnedMembers(cfg: Settings, events: seq<Event>, now: int)
    requires forall i, j | 0 <= i < j < |events| :: events[i].id != events[j].id
    ensures Unique(PoisonIds(CondemnedOf(cfg, events, now)))
    ensures Elements(CondemnedOf(cfg, events, now)) == CondemnedSet(cfg, events, now)
  {
    if events != [] {
      var init, last := events[..|events| - 1], events[|events| - 1];
      assert events == init + [last];
      CondemnedMembers(cfg, init, now);
      CondemnedSetAppend(cfg, init, last, now);
      var before := CondemnedOf(cfg, init, now);
      if Judge(cfg, last, now).Condemned? {
        var report := PoisonReport(last.id, Judge(cfg, last, now).reason);
        PoisonIdElements(before);
        forall p | p in before
          ensures p.id != last.id
        {
          assert p in Elements(before);
        }
        assert PoisonIds(before + [report]) == PoisonIds(before) + [last.id];
        UniqueConcat(PoisonIds(before), [last.id]);
        assert Elements(before + [report]) == Elements(before) + {report};
      }
    }
  }

  lemma GatherNothing(cfg: Settings, w: World)
    requires ValidWorld(cfg, w)
    ensures GatherInv(cfg, w, {}, Gather(cfg, w, []))
  {
    CondemnedMembers(cfg, w.events, w.now);
    var poison := CondemnedOf(cfg, w.events, w.now);
    assert CondemnedSet(cfg, w.events, w.now) == Poisons(cfg, w, {});
    PoisonIdElements(poison);
    PoisonsAndIds(cfg, w, {});
  }

  lemma PoisonsAndIds(cfg: Settings, w: World, done: set<string>)
    ensures PoisonedIds(cfg, w, done) == set p | p in Poisons(cfg, w, done) :: p.id
  {
    forall e | e in w.events && OutcomeOf(cfg, w, done, e).Poisoned?
      ensures e.id in set p | p in Poisons(cfg, w, done) :: p.id
    {
      assert PoisonReport(e.id, OutcomeOf(cfg, w, done, e).reason) in Poisons(cfg, w, done);
    }
  }

  // One sender's collected output: exactly the outcomes of its own events.
  lemma OutputIsOutcomes(cfg: Settings, w: World, done: set<string>, target: string)
    requires ValidWorld(cfg, w) && target in done
    ensures var output := SenderOutputOf(cfg, w, target);
            && (forall e :: e in w.events && Judge(cfg, e, w.now).Dispatched? && e.route.target == target ==>
                  && (e.id in output.confirmed <==> OutcomeOf(cfg, w, done, e) == Sent)
                  && (forall reason :: PoisonReport(e.id, reason) in output.poison <==> OutcomeOf(cfg, w, done, e) == Poisoned(reason)))
            && (forall id :: id in FinishedIds(output) ==>
                  exists e :: e in w.events && Judge(cfg, e, w.now).Dispatched? && e.route.target == target && e.id == id)
  {
    var mine := ForTarget(cfg, w.events, w.now, target);
    var calls := RunOf(w, target).calls;
    ForTargetMembers(cfg, w.events, w.now, target);
    forall e | e in mine
      ensures var output := SenderOutputOf(cfg, w, target);
              && (e.id in output.confirmed <==> OutcomeOf(cfg, w, done, e) == Sent)
              && (forall reason :: PoisonReport(e.id, reason) in output.poison <==> OutcomeOf(cfg, w, done, e) == Poisoned(reason))
    {
      FirstOutcomeWins(IdsOf(mine), calls, e.id);
      FirstForIsAbout(calls, e.id);
    }
    CollectedIsPartition(IdsOf(mine), calls);
  }

  lemma {:induction false} FirstForIsAbout(calls: seq<Callback>, id: EventId)
    ensures FirstFor(calls, id).Some? ==> FirstFor(calls, id).value.id == Some(id)
  {
    if calls != [] {
      FirstForIsAbout(calls[1..], id);
    }
  }

  lemma IdNamesEvent(cfg: Settings, w: World, e: Event, f: Event)
    requires ValidWorld(cfg, w) && e in w.events && f in w.events && e.id == f.id
    ensures e == f
  {
  }

  // What the sender for `target` adds to the outcomes known from `done`.
  lemma OutcomesAdvance(cfg: Settings, w: World, done: set<string>, target: string)
    requires ValidWorld(cfg, w) && target !in done
    ensures var output, after := SenderOutputOf(cfg, w, target), done + {target};
            && SentIds(cfg, w, after) == SentIds(cfg, w, done) + Elements(output.confirmed)
            && Poisons(cfg, w, after) == Poisons(cfg, w, done) + Elements(output.poison)
  {
    var output, after := SenderOutputOf(cfg, w, target), done + {target};
    OutputIsOutcomes(cfg, w, after, target);
    forall e | e in w.events {
      OutcomeAdvances(cfg, w, done, target, e);
    }
    forall id | id in output.confirmed
      ensures id in SentIds(cfg, w, after)
    {
      assert id in FinishedIds(output);
    }
    PoisonIdElements(output.poison);
    forall p | p in output.poison
      ensures p in Poisons(cfg, w, after)
    {
      assert p.id in Elements(PoisonIds(output.poison));
      assert p.id in FinishedIds(output);
    }
  }

  lemma OutcomeAdvances(cfg: Settings, w: World, done: set<string>, target: string, e: Event)
    requires target !in done
    ensures if Judge(cfg, e, w.now).Dispatched? && e.route.target == target
            then OutcomeOf(cfg, w, done, e) == Kept
            else OutcomeOf(cfg, w, done + {target}, e) == OutcomeOf(cfg, w, done, e)
  {
  }

  // No sender reports an event whose outcome is already known.
  lemma OutputIsNew(cfg: Settings, w: World, done: set<string>, target: string)
    requires ValidWorld(cfg, w) && target !in done
    ensures (SentIds(cfg, w, done) + PoisonedIds(cfg, w, done)) !! Elements(FinishedIds(SenderOutputOf(cfg, w, target)))
  {
    OutputIsOutcomes(cfg, w, done + {target}, target);
    forall e, f | e in w.events && f in w.events && e.id == f.id {
      IdNamesEvent(cfg, w, e, f);
    }
  }

  lemma GatherStep(cfg: Settings, w: World, done: set<string>, target: string, g: Gathered)
    requires ValidWorld(cfg, w) && target !in done && GatherInv(cfg, w, done, g)
    ensures GatherInv(cfg, w, done + {target}, AddResult(g, SenderOutputOf(cfg, w, target), RunOf(w, target).err))
  {
    var output, after := SenderOutputOf(cfg, w, target), done + {target};
    OutcomesAdvance(cfg, w, done, target);
    OutputIsNew(cfg, w, done, target);
    CollectedIsPartition(IdsOf(ForTarget(cfg, w.events, w.now, target)), RunOf(w, target).calls);
    DistinctParts(output.confirmed, PoisonIds(output.poison));
    PoisonsAndIds(cfg, w, done);
    PoisonsAndIds(cfg, w, after);
    PoisonIdElements(g.poison);
    PoisonIdElements(output.poison);
    PoisonIdsConcat(g.poison, output.poison);
    UniqueConcat(g.confirmed, output.confirmed);
    UniqueConcat(PoisonIds(g.poison), PoisonIds(output.poison));
    UniqueConcat(g.deleteIds, FinishedIds(output));
    assert Elements(g.poison + output.poison) == Elements(g.poison) + Elements(output.poison);
    assert PoisonedIds(cfg, w, after) == PoisonedIds(cfg, w, done) + Elements(PoisonIds(output.poison));
  }

  lemma DistinctParts(a: seq<EventId>, b: seq<EventId>)
    requires Distinct(a + b)
    ensures Unique(a) && Unique(b) && Unique(a + b)
    ensures Elements(a + b) == Elements(a) + Elements(b) && Elements(a) !! Elements(b)
  {
    var s := a + b;
    forall i, j | 0 <= i < |a| && 0 <= j < |b|
      ensures a[i] != b[j]
    {
      assert s[i] == a[i] && s[|a| + j] == b[j];
    }
    forall i, j | 0 <= i < j < |b|
      ensures b[i] != b[j]
    {
      assert s[|a| + i] == b[i] && s[|a| + j] == b[j];
    }
    forall i, j | 0 <= i < j < |a|
      ensures a[i] != a[j]
    {
      assert s[i] == a[i] && s[j] == a[j];
    }
  }

  // A target without events of this batch contributes nothing.
  lemma NothingDispatched(cfg: Settings, w: World, done: set<string>, target: string, g: Gathered)
    requires ForTarget(cfg, w.events, w.now, target) == [] && GatherInv(cfg, w, done, g)
    ensures GatherInv(cfg, w, done + {target}, g)
  {
    ForTargetMembers(cfg, w.events, w.now, target);
    forall e | e in w.events
      ensures OutcomeOf(cfg, w, done + {target}, e) == OutcomeOf(cfg, w, done, e)
    {
    }
    assert SentIds(cfg, w, done + {target}) == SentIds(cfg, w, done);
    assert Poisons(cfg, w, done + {target}) == Poisons(cfg, w, done);
    assert PoisonedIds(cfg, w, done + {target}) == PoisonedIds(cfg, w, done);
  }

  /** In whatever order the senders finish and whatever callbacks they make, the two
      gathered lists hold exactly the events whose outcome is Sent or Poisoned, each
      once, and deleteIds is their union. */
  lemma {:induction false} GatherExact(cfg: Settings, w: World, order: seq<string>)
    requires ValidWorld(cfg, w) && Unique(order)
    ensures GatherInv(cfg, w, Elements(order), Gather(cfg, w, order))
  {
    if order == [] {
      GatherNothing(cfg, w);
      assert Elements(order) == {};
    } else {
      var init, target := order[..|order| - 1], order[|order| - 1];
      GatherExact(cfg, w, init);
      assert Elements(order) == Elements(init) + {target};
      if ForTarget(cfg, w.events, w.now, target) == [] {
        NothingDispatched(cfg, w, Elements(init), target, Gather(cfg, w, init));
      } else {
        GatherStep(cfg, w, Elements(init), target, Gather(cfg, w, init));
      }
    }
  }

  // A sender that ran returned an error of this kind.
  predicate Reports(cfg: Settings, w: World, order: seq<string>, kind: Kind) {
    exists target | target in order :: ForTarget(cfg, w.events, w.now, target) != [] && Is(RunOf(w, target).err, kind)
  }

  lemma {:induction false} GatherErrorIs(cfg: Settings, w: World, order: seq<string>, kind: Kind)
    ensures Is(Gather(cfg, w, order).err, kind) <==> Reports(cfg, w, order, kind)
  {
    if order != [] {
      var init, target := order[..|order| - 1], order[|order| - 1];
      GatherErrorIs(cfg, w, init, kind);
      JoinIs(Gather(cfg, w, init).err, RunOf(w, target).err, kind);
      assert forall x :: x in order <==> x in init || x == target;
    }
  }

  lemma OutcomesDisjoint(cfg: Settings, w: World, done: set<string>)
    requires ValidWorld(cfg, w)
    ensures SentIds(cfg, w, done) !! PoisonedIds(cfg, w, done)
    ensures (SentIds(cfg, w, done) + PoisonedIds(cfg, w, done)) !! KeptIds(cfg, w, done)
  {
    forall e, f | e in w.events && f in w.events && e.id == f.id {
      IdNamesEvent(cfg, w, e, f);
    }
  }

  // The sender errors of a batch, counted sender by sender.
  function ErrorTotal(cfg: Settings, w: World, order: seq<string>): nat {
    if order == [] then 0
    else
      var target := order[|order| - 1];
      ErrorTotal(cfg, w, order[..|order| - 1])
      + if ForTarget(cfg, w.events, w.now, target) == [] then 0 else CountJoinedErrors(RunOf(w, target).err)
  }

  lemma {:induction false} GatherErrorCount(cfg: Settings, w: World, order: seq<string>)
    ensures CountJoinedErrors(Gather(cfg, w, order).err) == ErrorTotal(cfg, w, order)
  {
    if order != [] {
      var init, target := order[..|order| - 1], order[|order| - 1];
      GatherErrorCount(cfg, w, init);
      JoinCount(Gather(cfg, w, init).err, RunOf(w, target).err);
    }
  }

  // Every selected event has exactly one outcome.
  lemma OutcomesPartition(cfg: Settings, w: World, done: set<string>)
    requires ValidWorld(cfg, w)
    ensures |w.events| == |SentIds(cfg, w, done)| + |PoisonedIds(cfg, w, done)| + |KeptIds(cfg, w, done)|
  {
    OutcomesDisjoint(cfg, w, done);
    OutcomesCover(cfg, w, done);
    EventCount(cfg, w);
    ThreeParts(SentIds(cfg, w, done), PoisonedIds(cfg, w, done), KeptIds(cfg, w, done));
  }

  lemma OutcomesCover(cfg: Settings, w: World, done: set<string>)
    ensures IdsOf(w.events) == SentIds(cfg, w, done) + PoisonedIds(cfg, w, done) + KeptIds(cfg, w, done)
  {
  }

  lemma ThreeParts(a: set<EventId>, b: set<EventId>, c: set<EventId>)
    requires a !! b && (a + b) !! c
    ensures |a + b + c| == |a| + |b| + |c|
  {
  }

  lemma EventCount(cfg: Settings, w: World)
    requires ValidWorld(cfg, w)
    ensures |IdsOf(w.events)| == |w.events|
  {
    var ids := seq(|w.events|, k requires 0 <= k < |w.events| => w.events[k].id);
    UniqueSize(ids);
    forall e | e in w.events
      ensures e.id in Elements(ids)
    {
      var k :| 0 <= k < |w.events| && w.events[k] == e;
      assert ids[k] == e.id;
    }
    assert Elements(ids) == IdsOf(w.events);
  }
}

/** The SQS sender: one batch request, its isolation after a permanent request error,
    and the sequential sends of a FIFO message group.

    A Session records what a send does, provider calls and recorded outcomes, in order.
    The service answers the n-th call with the n-th outcome of an arbitrary script, so
    every sequence of provider behaviour is covered. Each method is proved against a
    function that computes its trace; the lemmas are about those functions.
 */
module SqsSender {
  import opened Errors
  import opened Collector
  import opened Chunking

  type EntryId = string

  datatype Failure = Failure(entry: EntryId, reason: string, senderFault: bool)

  // `permanent` is isSQSPermanentRequestError.
  datatype Outcome =
    | CallError(err: Err, permanent: bool)
    | Response(successful: seq<EntryId>, failed: seq<Failure>)

  // script[n] answers call n; cancelled holds the call counts at which a send waiting for
  // its slot finds the context done.
  datatype Service = Service(script: seq<Outcome>, cancelled: set<nat>)

  function Respond(service: Service, n: nat): Outcome {
    if n < |service.script| then service.script[n] else CallError(Leaf(Provider), false)
  }

  // A provider call with its answer, or a recorded outcome.
  datatype Op = Call(entries: seq<EntryId>, outcome: Outcome) | Report(callback: Callback)

  datatype Run = Run(trace: seq<Op>, done: bool, err: Error)

  function CallCount(trace: seq<Op>): nat {
    if trace == [] then 0 else CallCount(trace[..|trace| - 1]) + if trace[|trace| - 1].Call? then 1 else 0
  }

  lemma {:induction false} CallCountConcat(a: seq<Op>, b: seq<Op>)
    ensures CallCount(a + b) == CallCount(a) + CallCount(b)
    decreases |b|
  {
    if b == [] {
      assert a + b == a;
    } else {
      assert (a + b)[..|a + b| - 1] == a + b[..|b| - 1];
      CallCountConcat(a, b[..|b| - 1]);
    }
  }

  // The ids reported in a trace.
  function Recorded(trace: seq<Op>): set<EventId> {
    set op | op in trace && op.Report? && op.callback.id.Some? :: op.callback.id.value
  }

  lemma RecordedConcat(a: seq<Op>, b: seq<Op>)
    ensures Recorded(a + b) == Recorded(a) + Recorded(b)
  {
    assert forall op :: op in a + b <==> op in a || op in b;
  }

  class Session {
    const service: Service
    var calls: nat
    var trace: seq<Op>
    var holding: bool  // the goroutine owns one slot of the send semaphore

    constructor (service: Service)
      ensures this.service == service && calls == 0 && trace == [] && !holding
    {
      this.service := service;
      calls, trace, holding := 0, [], false;
    }

    // No call is ever made without a slot.
    method SendBatch(entries: seq<EntryId>) returns (outcome: Outcome)
      requires holding
      modifies this`calls, this`trace
      ensures outcome == Respond(service, old(calls))
      ensures calls == old(calls) + 1 && trace == old(trace) + [Call(entries, outcome)]
    {
      outcome := Respond(service, calls);
      calls := calls + 1;
      trace := trace + [Call(entries, outcome)];
    }

    method AddConfirmedID(id: Option<EventId>)
      modifies this`trace
      ensures trace == old(trace) + [Report(Confirm(id))]
    {
      trace := trace + [Report(Confirm(id))];
    }

    method AddPoisonID(id: Option<EventId>, reason: string)
      modifies this`trace
      ensures trace == old(trace) + [Report(Poison(id, reason))]
    {
      trace := trace + [Report(Poison(id, reason))];
    }
  }

  // --- sendSQSBatch ------------------------------------------------------------------

  function Entries(events: seq<Prepared>): (entries: seq<EntryId>)
    ensures |entries| == |events| && forall i | 0 <= i < |events| :: entries[i] == events[i].entry
  {
    seq(|events|, i requires 0 <= i < |events| => events[i].entry)
  }

  // logsByEntryID: the last event written under an entry id; an id the request did not
  // contain reads as the zero log, whose event id is nil.
  function Lookup(events: seq<Prepared>, entry: EntryId): Option<EventId> {
    if events == [] then None
    else if events[|events| - 1].entry == entry then Some(events[|events| - 1].id)
    else Lookup(events[..|events| - 1], entry)
  }

  function SuccessOps(events: seq<Prepared>, successful: seq<EntryId>): (ops: seq<Op>)
    ensures NoCalls(ops)
  {
    if successful == [] then []
    else
      SuccessOps(events, successful[..|successful| - 1])
      + [Report(Confirm(Lookup(events, successful[|successful| - 1])))]
  }

  function FaultOps(events: seq<Prepared>, failed: seq<Failure>): (ops: seq<Op>)
    ensures NoCalls(ops)
  {
    if failed == [] then []
    else
      var last := failed[|failed| - 1];
      FaultOps(events, failed[..|failed| - 1])
      + if last.senderFault then [Report(Poison(Lookup(events, last.entry), last.reason))] else []
  }

  predicate NoCalls(trace: seq<Op>) {
    forall i | 0 <= i < |trace| :: trace[i].Report?
  }

  lemma {:induction false} NoCallsCount(trace: seq<Op>)
    requires NoCalls(trace)
    ensures CallCount(trace) == 0
  {
    if trace != [] {
      NoCallsCount(trace[..|trace| - 1]);
    }
  }

  // The outcomes a response settles.
  function ResponseOps(events: seq<Prepared>, successful: seq<EntryId>, failed: seq<Failure>): (ops: seq<Op>)
    ensures NoCalls(ops)
  {
    SuccessOps(events, successful) + FaultOps(events, failed)
  }

  function Rejections(failed: seq<Failure>): Error {
    if failed == [] then None
    else
      var sofar := Rejections(failed[..|failed| - 1]);
      if failed[|failed| - 1].senderFault then sofar else Join(sofar, Some(Leaf(Provider)))
  }

  predicate AnyFault(failed: seq<Failure>) {
    failed != [] && (AnyFault(failed[..|failed| - 1]) || failed[|failed| - 1].senderFault)
  }

  const PERMANENT := "permanent request error"

  // The provider call and what follows it.
  function AfterCall(entries: seq<EntryId>, outcome: Outcome, rest: Run): Run {
    Run([Call(entries, outcome)] + rest.trace, rest.done, rest.err)
  }

  // One more isolated send after the previous ones.
  function Then(before: Run, last: Run): Run {
    Run(before.trace + last.trace, before.done || last.done,
        if last.err.Some? then Join(before.err, last.err) else before.err)
  }

  // A permanent error on a request with several entries proves nothing about any of
  // them; each is then sent alone.
  predicate Isolates(events: seq<Prepared>, outcome: Outcome) {
    outcome.CallError? && outcome.permanent && |events| > 1
  }

  // What a call settles by itself.
  function Settle(events: seq<Prepared>, outcome: Outcome): Run
    requires events != [] && !Isolates(events, outcome)
  {
    match outcome
    case CallError(err, permanent) =>
      if permanent then Run([Report(Poison(Some(events[0].id), PERMANENT))], true, None)
      else Run([], false, Some(err))
    case Response(successful, failed) =>
      Run(ResponseOps(events, successful, failed), successful != [] || AnyFault(failed), Rejections(failed))
  }

  function SingleRun(service: Service, n: nat, event: Prepared): Run {
    AfterCall([event.entry], Respond(service, n), Settle([event], Respond(service, n)))
  }

  // sendSQSBatchIsolated: call n + i carries event i alone.
  function IsolatedRun(service: Service, n: nat, events: seq<Prepared>): Run {
    if events == [] then Run([], false, None)
    else
      Then(IsolatedRun(service, n, events[..|events| - 1]),
           SingleRun(service, n + |events| - 1, events[|events| - 1]))
  }

  function SendBatchRun(service: Service, n: nat, events: seq<Prepared>): Run {
    if events == [] then Run([], false, None)
    else
      var outcome := Respond(service, n);
      AfterCall(Entries(events), outcome,
                if Isolates(events, outcome) then IsolatedRun(service, n + 1, events) else Settle(events, outcome))
  }

  // How many provider calls that makes.
  function CallsOf(service: Service, n: nat, events: seq<Prepared>): nat {
    if events == [] then 0
    else if Isolates(events, Respond(service, n)) then |events| + 1
    else 1
  }

  lemma SingleRunIsBatch(service: Service, n: nat, event: Prepared)
    ensures SendBatchRun(service, n, [event]) == SingleRun(service, n, event)
    ensures CallsOf(service, n, [event]) == 1
  {
    assert Entries([event]) == [event.entry];
  }

  method SendSqsBatch(s: Session, events: seq<Prepared>) returns (done: bool, err: Error)
    requires s.holding
    modifies s`calls, s`trace
    ensures s.trace == old(s.trace) + SendBatchRun(s.service, old(s.calls), events).trace
    ensures s.calls == old(s.calls) + CallsOf(s.service, old(s.calls), events)
    ensures done == SendBatchRun(s.service, old(s.calls), events).done
    ensures err == SendBatchRun(s.service, old(s.calls), events).err
    decreases if |events| <= 1 then 0 else 2, 0
  {
    if |events| == 0 {
      return false, None;
    }
    var entries := BuildEntries(events);
    var response := s.SendBatch(entries);
    match response
    case CallError(callErr, permanent) =>
      if permanent {
        if |events| == 1 {
          s.AddPoisonID(Some(events[0].id), PERMANENT);
          return true, None;
        }
        done, err := SendSqsBatchIsolated(s, events);
        return;
      }
      return false, Some(callErr);
    case Response(successful, failed) =>
      RecordSuccesses(s, events, successful);
      var anyFault, rejected := RecordFailures(s, events, failed);
      return |successful| > 0 || anyFault, rejected;
  }

  method BuildEntries(events: seq<Prepared>) returns (entries: seq<EntryId>)
    ensures entries == Entries(events)
  {
    entries := [];
    for i := 0 to |events|
      invariant entries == Entries(events)[..i]
    {
      entries := entries + [events[i].entry];
    }
  }

  // The loop over a response's successful entries.
  method RecordSuccesses(s: Session, events: seq<Prepared>, successful: seq<EntryId>)
    modifies s`trace
    ensures s.trace == old(s.trace) + SuccessOps(events, successful)
  {
    for i := 0 to |successful|
      invariant s.trace == old(s.trace) + SuccessOps(events, successful[..i])
    {
      assert successful[..i + 1][..i] == successful[..i];
      s.AddConfirmedID(Lookup(events, successful[i]));
    }
    assert successful[..|successful|] == successful;
  }

  // The loop over a response's failed entries: sender faults are poison, everything
  // else stays pending and is reported as an error.
  method RecordFailures(s: Session, events: seq<Prepared>, failed: seq<Failure>) returns (anyFault: bool, rejected: Error)
    modifies s`trace
    ensures s.trace == old(s.trace) + FaultOps(events, failed)
    ensures anyFault == AnyFault(failed) && rejected == Rejections(failed)
  {
    anyFault, rejected := false, None;
    for i := 0 to |failed|
      invariant s.trace == old(s.trace) + FaultOps(events, failed[..i])
      invariant anyFault == AnyFault(failed[..i])
      invariant rejected == Rejections(failed[..i])
    {
      assert failed[..i + 1][..i] == failed[..i];
      if failed[i].senderFault {
        s.AddPoisonID(Lookup(events, failed[i].entry), failed[i].reason);
        anyFault := true;
      } else {
        rejected := Join(rejected, Some(Leaf(Provider)));
      }
    }
    assert failed[..|failed|] == failed;
  }

  lemma IsolatedOneMore(service: Service, n: nat, events: seq<Prepared>, i: nat)
    requires i < |events|
    ensures IsolatedRun(service, n, events[..i + 1])
         == Then(IsolatedRun(service, n, events[..i]), SingleRun(service, n + i, events[i]))
  {
    assert events[..i + 1][..i] == events[..i];
  }

  method SendSqsBatchIsolated(s: Session, events: seq<Prepared>) returns (anyDone: bool, joined: Error)
    requires s.holding
    modifies s`calls, s`trace
    ensures s.trace == old(s.trace) + IsolatedRun(s.service, old(s.calls), events).trace
    ensures s.calls == old(s.calls) + |events|
    ensures anyDone == IsolatedRun(s.service, old(s.calls), events).done
    ensures joined == IsolatedRun(s.service, old(s.calls), events).err
    decreases 1, |events|
  {
    anyDone, joined := false, None;
    ghost var start, number, run := s.trace, s.calls, Run([], false, None);
    for i := 0 to |events|
      invariant run == IsolatedRun(s.service, number, events[..i])
      invariant s.trace == start + run.trace && s.calls == number + i
      invariant anyDone == run.done && joined == run.err
    {
      SingleRunIsBatch(s.service, s.calls, events[i]);
      IsolatedOneMore(s.service, number, events, i);
      TraceGrows(start, run.trace, SingleRun(s.service, s.calls, events[i]).trace);
      run := Then(run, SingleRun(s.service, s.calls, events[i]));
      var done, err := SendSqsBatch(s, [events[i]]);
      if done {
        anyDone := true;
      }
      if err.Some? {
        joined := Join(joined, err);
      }
    }
    assert events[..|events|] == events;
  }

  lemma TraceGrows(start: seq<Op>, run: seq<Op>, more: seq<Op>)
    ensures (start + run) + more == start + (run + more)
  {
  }

  /** A batch of n events costs at most n + 1 provider calls, and more than one only
      after a permanent error on the whole batch, which then costs exactly n + 1. */
  lemma CallBudget(service: Service, n: nat, events: seq<Prepared>)
    ensures CallCount(SendBatchRun(service, n, events).trace) == CallsOf(service, n, events) <= |events| + 1
  {
    if events != [] {
      var outcome := Respond(service, n);
      var rest := if Isolates(events, outcome) then IsolatedRun(service, n + 1, events) else Settle(events, outcome);
      AfterCallCount(Entries(events), outcome, rest);
      if Isolates(events, outcome) {
        IsolatedBudget(service, n + 1, events);
      } else {
        NoCallsCount(rest.trace);
      }
    }
  }

  lemma AfterCallCount(entries: seq<EntryId>, outcome: Outcome, rest: Run)
    ensures CallCount(AfterCall(entries, outcome, rest).trace) == 1 + CallCount(rest.trace)
  {
    CallCountConcat([Call(entries, outcome)], rest.trace);
  }

  lemma {:induction false} IsolatedBudget(service: Service, n: nat, events: seq<Prepared>)
    ensures CallCount(IsolatedRun(service, n, events).trace) == |events|
  {
    if events != [] {
      var init, last := events[..|events| - 1], events[|events| - 1];
      IsolatedBudget(service, n, init);
      var outcome := Respond(service, n + |init|);
      var settled := Settle([last], outcome);
      NoCallsCount(settled.trace);
      AfterCallCount([last.entry], outcome, settled);
      CallCountConcat(IsolatedRun(service, n, init).trace, SingleRun(service, n + |init|, last).trace);
    }
  }

  // --- what a recorded outcome rests on --------------------------------------------------

  // `outcome` answered a call with the entries `sent` and proves the callback: a
  // confirmation needs the event's entry among the successes; poison needs the entry's own
  // sender fault, or a permanent error on a call that held this entry alone.
  ghost predicate SupportedBy(events: seq<Prepared>, sent: seq<EntryId>, outcome: Outcome, callback: Callback) {
    callback.id.Some? ==>
      exists e :: && e in events && e.id == callback.id.value && e.entry in sent
                  && if callback.Confirm? then outcome.Response? && e.entry in outcome.successful
                     else OwnFault(outcome, e.entry) || (outcome.CallError? && outcome.permanent && sent == [e.entry])
  }

  ghost predicate OwnFault(outcome: Outcome, entry: EntryId) {
    outcome.Response? && exists i :: 0 <= i < |outcome.failed| && outcome.failed[i].senderFault && outcome.failed[i].entry == entry
  }

  lemma {:induction false} LookupFound(events: seq<Prepared>, entry: EntryId)
    ensures Lookup(events, entry).Some? ==>
              exists e :: e in events && e.entry == entry && Lookup(events, entry) == Some(e.id)
    ensures Lookup(events, entry).None? ==> forall e :: e in events ==> e.entry != entry
  {
    if events != [] {
      var init, last := events[..|events| - 1], events[|events| - 1];
      LookupFound(init, entry);
      assert events == init + [last];
    }
  }

  lemma {:induction false} SuccessOp(events: seq<Prepared>, successful: seq<EntryId>, op: Op)
    requires op in SuccessOps(events, successful)
    ensures exists x :: x in successful && op == Report(Confirm(Lookup(events, x)))
  {
    var init, last := successful[..|successful| - 1], successful[|successful| - 1];
    assert successful == init + [last];
    if op in SuccessOps(events, init) {
      SuccessOp(events, init, op);
    } else {
      assert op == Report(Confirm(Lookup(events, last)));
    }
  }

  lemma {:induction false} FaultOp(events: seq<Prepared>, failed: seq<Failure>, op: Op) returns (i: nat)
    requires op in FaultOps(events, failed)
    ensures i < |failed| && failed[i].senderFault && op == Report(Poison(Lookup(events, failed[i].entry), failed[i].reason))
  {
    var init, last := failed[..|failed| - 1], failed[|failed| - 1];
    if op in FaultOps(events, init) {
      i := FaultOp(events, init, op);
    } else {
      i := |failed| - 1;
    }
  }

  lemma SettleSupported(events: seq<Prepared>, outcome: Outcome, op: Op)
    requires events != [] && !Isolates(events, outcome) && op in Settle(events, outcome).trace
    ensures SupportedBy(events, Entries(events), outcome, op.callback)
  {
    match outcome
    case CallError(_, _) => assert events[0] in events && Entries(events)[0] == events[0].entry;
    case Response(successful, failed) =>
      if op in SuccessOps(events, successful) {
        SuccessOp(events, successful, op);
        var x :| x in successful && op == Report(Confirm(Lookup(events, x)));
        LookupFound(events, x);
      } else {
        var i := FaultOp(events, failed, op);
        LookupFound(events, failed[i].entry);
      }
      if op.callback.id.Some? {
        var e :| e in events && e.id == op.callback.id.value
              && if op.callback.Confirm? then e.entry in successful else OwnFault(outcome, e.entry);
        var j :| 0 <= j < |events| && events[j] == e;
        assert Entries(events)[j] == e.entry;
      }
  }

  // The outcome reported at q rests on the call made at p < q of the same trace.
  ghost predicate SupportAt(events: seq<Prepared>, trace: seq<Op>, p: nat, q: nat) {
    && p < q < |trace| && trace[p].Call? && trace[q].Report?
    && SupportedBy(events, trace[p].entries, trace[p].outcome, trace[q].callback)
  }

  // Support does not depend on what surrounds the two operations.
  lemma SupportWithin(events: seq<Prepared>, more: seq<Prepared>, before: seq<Op>, trace: seq<Op>, after: seq<Op>, p: nat, q: nat)
    requires SupportAt(events, trace, p, q) && forall e :: e in events ==> e in more
    ensures SupportAt(more, before + trace + after, |before| + p, |before| + q)
  {
    var all := before + trace + after;
    assert all[|before| + p] == trace[p] && all[|before| + q] == trace[q];
  }

  lemma SupportExtends(events: seq<Prepared>, more: seq<Prepared>, trace: seq<Op>, after: seq<Op>, p: nat, q: nat)
    requires SupportAt(events, trace, p, q) && forall e :: e in events ==> e in more
    ensures SupportAt(more, trace + after, p, q)
  {
    SupportWithin(events, more, [], trace, after, p, q);
    assert [] + trace + after == trace + after;
  }

  lemma SettledSupport(events: seq<Prepared>, outcome: Outcome, q: nat)
    requires events != [] && !Isolates(events, outcome) && q < |Settle(events, outcome).trace|
    ensures SupportAt(events, AfterCall(Entries(events), outcome, Settle(events, outcome)).trace, 0, q + 1)
  {
    var settled := Settle(events, outcome).trace;
    assert NoCalls(settled);
    SettleSupported(events, outcome, settled[q]);
  }

  lemma {:induction false} IsolatedSupported(service: Service, n: nat, events: seq<Prepared>, q: nat) returns (p: nat)
    requires q < |IsolatedRun(service, n, events).trace| && IsolatedRun(service, n, events).trace[q].Report?
    ensures SupportAt(events, IsolatedRun(service, n, events).trace, p, q)
  {
    var init, last := events[..|events| - 1], events[|events| - 1];
    var before, single := IsolatedRun(service, n, init).trace, SingleRun(service, n + |init|, last).trace;
    assert IsolatedRun(service, n, events).trace == before + single;
    if q < |before| {
      p := IsolatedSupported(service, n, init, q);
      SupportExtends(init, events, before, single, p, q);
    } else {
      p := |before|;
      LastSupported(service, n + |init|, events, before, last, q);
    }
  }

  lemma LastSupported(service: Service, n: nat, events: seq<Prepared>, before: seq<Op>, last: Prepared, q: nat)
    requires last in events && |before| < q < |before + SingleRun(service, n, last).trace|
    ensures SupportAt(events, before + SingleRun(service, n, last).trace, |before|, q)
  {
    var single := SingleRun(service, n, last).trace;
    assert Entries([last]) == [last.entry];
    SettledSupport([last], Respond(service, n), q - |before| - 1);
    SupportWithin([last], events, before, single, [], 0, q - |before|);
    assert before + single + [] == before + single;
  }

  /** An event is confirmed only if the response to a call that carried it lists it, and
      poisoned only by its own sender fault or by a permanent error on a call that
      carried it alone. */
  lemma OutcomesSupported(service: Service, n: nat, events: seq<Prepared>, q: nat) returns (p: nat)
    requires q < |SendBatchRun(service, n, events).trace| && SendBatchRun(service, n, events).trace[q].Report?
    ensures SupportAt(events, SendBatchRun(service, n, events).trace, p, q)
  {
    var outcome := Respond(service, n);
    if Isolates(events, outcome) {
      p := IsolatedSupported(service, n + 1, events, q - 1);
      var call, rest := [Call(Entries(events), outcome)], IsolatedRun(service, n + 1, events).trace;
      SupportWithin(events, events, call, rest, [], p, q - 1);
      assert call + rest + [] == call + rest;
      p := p + 1;
    } else {
      SettledSupport(events, outcome, q - 1);
      p := 0;
    }
  }

  // --- FIFO message groups -----------------------------------------------------------------

  // An event of one message group; `valid` says prepareSQSEvent accepts it.
  datatype Candidate = Candidate(event: Prepared, valid: bool)

  datatype GroupRun = GroupRun(trace: seq<Op>, err: Error)

  const INVALID := "Event is invalid for SQS"

  function Before(trace: seq<Op>, rest: GroupRun): GroupRun {
    GroupRun(trace + rest.trace, rest.err)
  }

  function FifoGroupRun(service: Service, n: nat, group: seq<Candidate>): GroupRun
    decreases |group|
  {
    if group == [] then GroupRun([], None)
    else if !group[0].valid then
      Before([Report(Poison(Some(group[0].event.id), INVALID))], FifoGroupRun(service, n, group[1..]))
    else if n in service.cancelled then GroupRun([], Some(Leaf(Provider)))
    else
      var single := SingleRun(service, n, group[0].event);
      if single.err.Some? || !single.done then GroupRun(single.trace, single.err)
      else Before(single.trace, FifoGroupRun(service, n + 1, group[1..]))
  }

  method SendFifoGroup(s: Session, group: seq<Candidate>) returns (err: Error)
    requires !s.holding
    modifies s
    ensures s.trace == old(s.trace) + FifoGroupRun(s.service, old(s.calls), group).trace
    ensures err == FifoGroupRun(s.service, old(s.calls), group).err && !s.holding
  {
    ghost var run := FifoGroupRun(s.service, s.calls, group);
    for i := 0 to |group|
      invariant s.trace + FifoGroupRun(s.service, s.calls, group[i..]).trace == old(s.trace) + run.trace
      invariant FifoGroupRun(s.service, s.calls, group[i..]).err == run.err && !s.holding
    {
      var candidate := group[i];
      assert group[i..][1..] == group[i + 1..];
      if !candidate.valid {
        s.AddPoisonID(Some(candidate.event.id), INVALID);
        continue;
      }
      SingleRunIsBatch(s.service, s.calls, candidate.event);
      var done, sendErr := SendWithSemaphore(s, [candidate.event]);
      if sendErr.Some? {
        return sendErr;
      }
      if !done {
        return None;
      }
    }
    err := None;
  }

  /** A send takes one slot, makes all its calls, isolated retries included, while it holds
      it, and gives it back; once the context is done it makes no call at all. */
  method SendWithSemaphore(s: Session, events: seq<Prepared>) returns (done: bool, err: Error)
    requires !s.holding
    modifies s
    ensures !s.holding
    ensures old(s.calls) in s.service.cancelled ==>
              s.trace == old(s.trace) && s.calls == old(s.calls) && !done && err == Some(Leaf(Provider))
    ensures old(s.calls) !in s.service.cancelled ==>
              var run := SendBatchRun(s.service, old(s.calls), events);
              && s.trace == old(s.trace) + run.trace
              && s.calls == old(s.calls) + CallsOf(s.service, old(s.calls), events)
              && done == run.done && err == run.err
  {
    if s.calls in s.service.cancelled {
      return false, Some(Leaf(Provider));
    }
    s.holding := true;
    done, err := SendSqsBatch(s, events);
    s.holding := false;
  }

  // The response settled something, or settled this entry.
  predicate SettlesSomething(outcome: Outcome) {
    if outcome.CallError? then outcome.permanent else outcome.successful != [] || AnyFault(outcome.failed)
  }

  ghost predicate SettlesEntry(outcome: Outcome, entry: EntryId) {
    if outcome.CallError? then outcome.permanent else entry in outcome.successful || OwnFault(outcome, entry)
  }

  // The answer to a call for one entry settles nothing but that entry. True of every
  // response that names only requested entries.
  ghost predicate Attributed(outcome: Outcome, entry: EntryId) {
    SettlesSomething(outcome) ==> SettlesEntry(outcome, entry)
  }

  lemma {:induction false} AnyFaultExists(failed: seq<Failure>)
    ensures AnyFault(failed) <==> exists i :: 0 <= i < |failed| && failed[i].senderFault
  {
    if failed != [] {
      var init := failed[..|failed| - 1];
      AnyFaultExists(init);
      if i :| 0 <= i < |failed| && failed[i].senderFault {
        if i < |init| {
          assert init[i].senderFault;
        }
      }
      if AnyFault(init) {
        var i :| 0 <= i < |init| && init[i].senderFault;
        assert failed[i].senderFault;
      }
    }
  }

  lemma {:induction false} SuccessOpsRecorded(event: Prepared, successful: seq<EntryId>)
    ensures Recorded(SuccessOps([event], successful)) == if event.entry in successful then {event.id} else {}
  {
    if successful != [] {
      var init, last := successful[..|successful| - 1], successful[|successful| - 1];
      SuccessOpsRecorded(event, init);
      assert successful == init + [last];
      var op := Report(Confirm(Lookup([event], last)));
      RecordedConcat(SuccessOps([event], init), [op]);
      assert Lookup([event], last) == if last == event.entry then Some(event.id) else None;
      assert Recorded([op]) == if last == event.entry then {event.id} else {};
    }
  }

  lemma {:induction false} FaultOpsRecorded(event: Prepared, failed: seq<Failure>)
    ensures Recorded(FaultOps([event], failed))
         == if exists i :: 0 <= i < |failed| && failed[i].senderFault && failed[i].entry == event.entry then {event.id} else {}
  {
    if failed != [] {
      var init, last := failed[..|failed| - 1], failed[|failed| - 1];
      FaultOpsRecorded(event, init);
      assert forall i :: 0 <= i < |init| ==> failed[i] == init[i];
      var op := Report(Poison(Lookup([event], last.entry), last.reason));
      assert Lookup([event], last.entry) == if last.entry == event.entry then Some(event.id) else None;
      RecordedConcat(FaultOps([event], init), if last.senderFault then [op] else []);
      assert Recorded([op]) == if last.entry == event.entry then {event.id} else {};
      assert failed[|init|] == last;
    }
  }

  /** The flag that lets a FIFO group go on, and the outcome it should stand for, agree
      exactly on responses that settle nothing but the entry they were asked about. */
  lemma SingleSend(service: Service, n: nat, event: Prepared)
    ensures var run, outcome := SingleRun(service, n, event), Respond(service, n);
            && (run.done <==> SettlesSomething(outcome))
            && Recorded(run.trace) == (if SettlesEntry(outcome, event.entry) then {event.id} else {})
            && ((run.done ==> event.id in Recorded(run.trace)) <==> Attributed(outcome, event.entry))
  {
    var outcome := Respond(service, n);
    var settled := Settle([event], outcome).trace;
    var call := [Call([event.entry], outcome)];
    RecordedConcat(call, settled);
    assert Recorded(call) == {};
    match outcome
    case CallError(_, _) =>
      assert outcome.permanent ==> settled[0] == Report(Poison(Some(event.id), PERMANENT));
    case Response(successful, failed) =>
      SuccessOpsRecorded(event, successful);
      FaultOpsRecorded(event, failed);
      RecordedConcat(SuccessOps([event], successful), FaultOps([event], failed));
  }

  function Ids(group: seq<Candidate>): set<EventId> {
    set c | c in group :: c.event.id
  }

  // Operation q is a call for this entry alone.
  predicate CallsFor(trace: seq<Op>, q: nat, entry: EntryId)
    requires q < |trace|
  {
    trace[q].Call? && trace[q].entries == [entry]
  }

  // Call q of the trace carries one valid event of the group, alone, and every earlier
  // event of the group was recorded before it.
  ghost predicate AttemptReady(group: seq<Candidate>, trace: seq<Op>, q: nat)
    requires q < |trace|
  {
    trace[q].Call? ==>
      exists j :: 0 <= j < |group| && group[j].valid && CallsFor(trace, q, group[j].event.entry)
               && Ids(group[..j]) <= Recorded(trace[..q])
  }

  // The answer to call p, about this entry alone, settled something else only.
  ghost predicate StrayAt(trace: seq<Op>, p: nat, entry: EntryId)
    requires p < |trace|
  {
    CallsFor(trace, p, entry) && !Attributed(trace[p].outcome, entry)
  }

  // Before position q the event was recorded, or its own call was answered astray.
  ghost predicate Accounted(trace: seq<Op>, q: nat, event: Prepared)
    requires q <= |trace|
  {
    event.id in Recorded(trace[..q]) || exists p :: 0 <= p < q && StrayAt(trace, p, event.entry)
  }

  // Operation q is the call for the group's event j, alone, and every earlier event of the
  // group is accounted for.
  ghost predicate TurnOf(group: seq<Candidate>, trace: seq<Op>, q: nat, j: nat)
    requires q < |trace| && j < |group|
  {
    && CallsFor(trace, q, group[j].event.entry) && group[j].valid
    && forall i :: 0 <= i < j ==> Accounted(trace, q, group[i].event)
  }

  ghost predicate InTurn(group: seq<Candidate>, trace: seq<Op>, q: nat)
    requires q < |trace|
  {
    trace[q].Call? ==> exists j :: 0 <= j < |group| && TurnOf(group, trace, q, j)
  }

  // A single send is one call followed by reports.
  lemma SingleTrace(service: Service, n: nat, event: Prepared)
    ensures var trace := SingleRun(service, n, event).trace;
            && trace != [] && trace[0] == Call([event.entry], Respond(service, n)) && NoCalls(trace[1..]) && CallCount(trace) == 1
  {
    var outcome := Respond(service, n);
    var settled := Settle([event], outcome);
    NoCallsCount(settled.trace);
    AfterCallCount([event.entry], outcome, settled);
    assert SingleRun(service, n, event).trace[1..] == settled.trace;
  }

  // The operations for a group's first event: a report, or one call and its reports.
  ghost predicate HeadShape(first: Candidate, head: seq<Op>) {
    && head != [] && NoCalls(head[1..]) && Recorded(head) <= {first.event.id}
    && if first.valid then
         && CallsFor(head, 0, first.event.entry)
         && (first.event.id in Recorded(head) ==> Attributed(head[0].outcome, first.event.entry))
       else NoCalls(head)
  }

  // The group goes on: the event is recorded or its call was answered astray.
  ghost predicate OpensGroup(first: Candidate, head: seq<Op>) {
    && HeadShape(first, head)
    && (first.event.id in Recorded(head) || (first.valid && StrayAt(head, 0, first.event.entry)))
  }

  // The run of a group: nothing, a single send that stops it, or the head and the rest.
  ghost predicate SplitsRun(service: Service, n: nat, group: seq<Candidate>, head: seq<Op>, rest: seq<Op>, next: nat) {
    && FifoGroupRun(service, n, group).trace == head + rest
    && (head != [] ==> group != [] && HeadShape(group[0], head))
    && (rest != [] ==> group != [] && OpensGroup(group[0], head) && rest == FifoGroupRun(service, next, group[1..]).trace)
  }

  lemma FifoCases(service: Service, n: nat, group: seq<Candidate>) returns (head: seq<Op>, rest: seq<Op>, next: nat)
    ensures SplitsRun(service, n, group, head, rest, next)
  {
    head, rest, next := [], [], n;
    if group != [] && !group[0].valid {
      head := [Report(Poison(Some(group[0].event.id), INVALID))];
      rest := FifoGroupRun(service, n, group[1..]).trace;
      assert Recorded(head) == {group[0].event.id};
    } else if group != [] && n !in service.cancelled {
      var single := SingleRun(service, n, group[0].event);
      SingleHead(service, n, group[0]);
      head, next := single.trace, n + 1;
      if single.err.None? && single.done {
        rest := FifoGroupRun(service, n + 1, group[1..]).trace;
      } else {
        assert head + [] == head;
      }
    }
  }

  lemma SingleHead(service: Service, n: nat, first: Candidate)
    requires first.valid
    ensures var single := SingleRun(service, n, first.event);
            HeadShape(first, single.trace) && (single.done ==> OpensGroup(first, single.trace))
  {
    SingleSend(service, n, first.event);
    SingleTrace(service, n, first.event);
  }

  lemma AccountedShift(head: seq<Op>, rest: seq<Op>, q: nat, event: Prepared)
    requires q <= |rest| && Accounted(rest, q, event)
    ensures Accounted(head + rest, |head| + q, event)
  {
    var trace := head + rest;
    if event.id in Recorded(rest[..q]) {
      assert trace[..|head| + q] == head + rest[..q];
      RecordedConcat(head, rest[..q]);
    } else {
      var p :| 0 <= p < q && StrayAt(rest, p, event.entry);
      assert trace[|head| + p] == rest[p];
      assert StrayAt(trace, |head| + p, event.entry);
    }
  }

  lemma FirstAccounted(first: Candidate, head: seq<Op>, rest: seq<Op>, q: nat)
    requires q <= |rest| && OpensGroup(first, head)
    ensures Accounted(head + rest, |head| + q, first.event)
  {
    if first.event.id in Recorded(head) {
      assert (head + rest)[..|head| + q] == head + rest[..q];
      RecordedConcat(head, rest[..q]);
    } else {
      assert (head + rest)[0] == head[0];
      assert StrayAt(head + rest, 0, first.event.entry);
    }
  }

  lemma TurnShift(group: seq<Candidate>, head: seq<Op>, rest: seq<Op>, q: nat, j: nat)
    requires group != [] && OpensGroup(group[0], head)
    requires q < |rest| && j < |group[1..]| && TurnOf(group[1..], rest, q, j)
    ensures TurnOf(group, head + rest, |head| + q, j + 1)
  {
    forall i | 0 <= i < j + 1
      ensures Accounted(head + rest, |head| + q, group[i].event)
    {
      if i == 0 {
        FirstAccounted(group[0], head, rest, q);
      } else {
        assert group[i] == group[1..][i - 1];
        AccountedShift(head, rest, q, group[i].event);
      }
    }
  }

  /** For every sequence of provider answers, whenever an event of a FIFO group is handed to
      the provider, every earlier event of its group has been recorded, or the answer to
      its own call settled some entry it was not asked about. */
  lemma {:induction false} FifoInTurn(service: Service, n: nat, group: seq<Candidate>)
    ensures forall q: nat :: q < |FifoGroupRun(service, n, group).trace| ==> InTurn(group, FifoGroupRun(service, n, group).trace, q)
    decreases |group|, 1
  {
    var trace := FifoGroupRun(service, n, group).trace;
    var head, rest, next := FifoCases(service, n, group);
    if rest != [] {
      FifoRestInTurn(service, next, group, head);
      assert trace == head + FifoGroupRun(service, next, group[1..]).trace;
    } else {
      assert trace == head + rest && |trace| == |head|;
      forall q: nat | q < |trace|
        ensures InTurn(group, trace, q)
      {
        HeadInTurn(group, head, rest, q);
      }
    }
  }

  lemma {:induction false} FifoRestInTurn(service: Service, next: nat, group: seq<Candidate>, head: seq<Op>)
    requires group != [] && OpensGroup(group[0], head)
    ensures var trace := head + FifoGroupRun(service, next, group[1..]).trace;
            forall q: nat :: q < |trace| ==> InTurn(group, trace, q)
    decreases |group|, 0
  {
    var rest := FifoGroupRun(service, next, group[1..]).trace;
    FifoInTurn(service, next, group[1..]);
    forall q: nat | q < |head + rest|
      ensures InTurn(group, head + rest, q)
    {
      if q < |head| {
        HeadInTurn(group, head, rest, q);
      } else {
        RestInTurn(group, head, rest, q - |head|);
      }
    }
  }

  lemma HeadInTurn(group: seq<Candidate>, head: seq<Op>, rest: seq<Op>, q: nat)
    requires group != [] && q < |head| && HeadShape(group[0], head)
    ensures InTurn(group, head + rest, q)
  {
    assert (head + rest)[q] == head[q] && (q > 0 ==> head[1..][q - 1] == head[q]);
    if head[q].Call? {
      assert TurnOf(group, head + rest, q, 0);
    }
  }

  lemma RestInTurn(group: seq<Candidate>, head: seq<Op>, rest: seq<Op>, q: nat)
    requires group != [] && OpensGroup(group[0], head) && q < |rest| && InTurn(group[1..], rest, q)
    ensures InTurn(group, head + rest, |head| + q)
  {
    assert (head + rest)[|head| + q] == rest[q];
    if rest[q].Call? {
      var j :| 0 <= j < |group[1..]| && TurnOf(group[1..], rest, q, j);
      TurnShift(group, head, rest, q, j);
    }
  }

  // --- exactly when the order is kept ---------------------------------------------------------

  predicate DistinctGroup(group: seq<Candidate>) {
    forall i, j | 0 <= i < j < |group| ::
      group[i].event.id != group[j].event.id && group[i].event.entry != group[j].event.entry
  }

  ghost predicate AttributedAt(trace: seq<Op>, q: nat)
    requires q < |trace|
  {
    trace[q].Call? ==> |trace[q].entries| == 1 && Attributed(trace[q].outcome, trace[q].entries[0])
  }

  // Every answer that was followed by another call settled only what it was asked about.
  ghost predicate AttributedBeforeNext(trace: seq<Op>) {
    forall p: nat, q: nat :: p < q < |trace| && trace[q].Call? ==> AttributedAt(trace, p)
  }

  ghost predicate SendsInOrder(group: seq<Candidate>, trace: seq<Op>) {
    forall q: nat :: q < |trace| ==> AttemptReady(group, trace, q)
  }

  /** A FIFO group of any length is sent in order, each event only after every earlier one
      was recorded, exactly when every answer followed by another call of the group settled
      nothing but the entry it was asked about. */
  lemma FifoOrderIffAttributed(service: Service, n: nat, group: seq<Candidate>)
    requires DistinctGroup(group)
    ensures var trace := FifoGroupRun(service, n, group).trace;
            SendsInOrder(group, trace) <==> AttributedBeforeNext(trace)
  {
    var trace := FifoGroupRun(service, n, group).trace;
    if AttributedBeforeNext(trace) {
      forall q: nat | q < |trace|
        ensures AttemptReady(group, trace, q)
      {
        TurnIsReady(service, n, group, q);
      }
    }
    if SendsInOrder(group, trace) {
      OrderedIsAttributed(service, n, group);
    }
  }

  lemma TurnIsReady(service: Service, n: nat, group: seq<Candidate>, q: nat)
    requires q < |FifoGroupRun(service, n, group).trace|
    requires AttributedBeforeNext(FifoGroupRun(service, n, group).trace)
    ensures AttemptReady(group, FifoGroupRun(service, n, group).trace, q)
  {
    var trace := FifoGroupRun(service, n, group).trace;
    FifoInTurn(service, n, group);
    if trace[q].Call? {
      assert InTurn(group, trace, q);
      var j :| 0 <= j < |group| && TurnOf(group, trace, q, j);
      forall i | 0 <= i < j
        ensures group[i].event.id in Recorded(trace[..q])
      {
        assert Accounted(trace, q, group[i].event);
        forall p: nat | p < q
          ensures !StrayAt(trace, p, group[i].event.entry)
        {
          assert AttributedAt(trace, p);
        }
      }
      assert Ids(group[..j]) <= Recorded(trace[..q]);
    }
  }

  lemma {:induction false} RecordedInGroup(service: Service, n: nat, group: seq<Candidate>)
    ensures Recorded(FifoGroupRun(service, n, group).trace) <= Ids(group)
    decreases |group|
  {
    var head, rest, next := FifoCases(service, n, group);
    RecordedConcat(head, rest);
    if group != [] {
      assert group[0] in group && forall c :: c in group[1..] ==> c in group;
      if rest != [] {
        RecordedInGroup(service, next, group[1..]);
      }
    }
  }

  // In a run that sends in order, a call of the rest proves the head recorded, and is in
  // order within the rest.
  lemma ReadyInRest(service: Service, next: nat, group: seq<Candidate>, head: seq<Op>, q: nat)
    requires group != [] && DistinctGroup(group) && OpensGroup(group[0], head)
    requires q < |FifoGroupRun(service, next, group[1..]).trace|
    requires AttemptReady(group, head + FifoGroupRun(service, next, group[1..]).trace, |head| + q)
    ensures AttemptReady(group[1..], FifoGroupRun(service, next, group[1..]).trace, q)
    ensures FifoGroupRun(service, next, group[1..]).trace[q].Call? ==> group[0].event.id in Recorded(head)
  {
    var tail, rest := group[1..], FifoGroupRun(service, next, group[1..]).trace;
    if rest[q].Call? {
      FifoInTurn(service, next, tail);
      assert InTurn(tail, rest, q);
      var k :| 0 <= k < |tail| && TurnOf(tail, rest, q, k);
      EarlierRecorded(group, head, rest, q, k);
      RecordedInGroup(service, next, tail);
      RecordedConcat(rest[..q], rest[q..]);
      assert rest[..q] + rest[q..] == rest;
      RecordedSplits(group, Recorded(head), Recorded(rest[..q]), k);
    }
  }

  // The call for tail event k is ready: every earlier event of the group was recorded.
  lemma EarlierRecorded(group: seq<Candidate>, head: seq<Op>, rest: seq<Op>, q: nat, k: nat)
    requires group != [] && DistinctGroup(group) && k < |group[1..]|
    requires q < |rest| && CallsFor(rest, q, group[1..][k].event.entry)
    requires AttemptReady(group, head + rest, |head| + q)
    ensures Ids(group[..k + 1]) <= Recorded(head) + Recorded(rest[..q])
  {
    var trace := head + rest;
    assert trace[|head| + q] == rest[q] && trace[..|head| + q] == head + rest[..q];
    RecordedConcat(head, rest[..q]);
    var j :| 0 <= j < |group| && group[j].valid && CallsFor(trace, |head| + q, group[j].event.entry)
          && Ids(group[..j]) <= Recorded(trace[..|head| + q]);
    assert rest[q].entries[0] == group[k + 1].event.entry;
    assert j == k + 1;
  }

  lemma RecordedSplits(group: seq<Candidate>, inHead: set<EventId>, inRest: set<EventId>, k: nat)
    requires group != [] && DistinctGroup(group) && k < |group[1..]|
    requires inHead <= {group[0].event.id} && inRest <= Ids(group[1..])
    requires Ids(group[..k + 1]) <= inHead + inRest
    ensures group[0].event.id in inHead && Ids(group[1..][..k]) <= inRest
  {
    IdsHead(group, k);
    assert group[0].event.id !in Ids(group[1..]);
    forall id | id in Ids(group[1..][..k])
      ensures id in inRest
    {
      var c :| c in group[1..][..k] && c.event.id == id;
      assert c in group[1..];
    }
  }

  lemma {:induction false} OrderedIsAttributed(service: Service, n: nat, group: seq<Candidate>)
    requires DistinctGroup(group) && SendsInOrder(group, FifoGroupRun(service, n, group).trace)
    ensures AttributedBeforeNext(FifoGroupRun(service, n, group).trace)
    decreases |group|, 1
  {
    var head, rest, next := FifoCases(service, n, group);
    if rest == [] {
      assert forall q :: 0 < q < |head| ==> head[q] == head[1..][q - 1];
      assert head + rest == head;
    } else {
      RestIsAttributed(service, next, group, head);
    }
  }

  lemma {:induction false} RestIsAttributed(service: Service, next: nat, group: seq<Candidate>, head: seq<Op>)
    requires group != [] && DistinctGroup(group) && OpensGroup(group[0], head)
    requires SendsInOrder(group, head + FifoGroupRun(service, next, group[1..]).trace)
    ensures AttributedBeforeNext(head + FifoGroupRun(service, next, group[1..]).trace)
    decreases |group|, 0
  {
    var rest := FifoGroupRun(service, next, group[1..]).trace;
    forall q: nat | q < |rest|
      ensures AttemptReady(group[1..], rest, q)
      ensures rest[q].Call? ==> group[0].event.id in Recorded(head)
    {
      assert AttemptReady(group, head + rest, |head| + q);
      ReadyInRest(service, next, group, head, q);
    }
    DistinctTail(group);
    OrderedIsAttributed(service, next, group[1..]);
    AttributedJoins(group[0], head, rest);
  }

  lemma DistinctTail(group: seq<Candidate>)
    requires group != [] && DistinctGroup(group)
    ensures DistinctGroup(group[1..])
  {
    assert forall i, j :: 0 <= i < j < |group[1..]| ==> group[1..][i] == group[i + 1] && group[1..][j] == group[j + 1];
  }

  lemma AttributedJoins(first: Candidate, head: seq<Op>, rest: seq<Op>)
    requires OpensGroup(first, head) && AttributedBeforeNext(rest)
    requires forall q: nat :: q < |rest| && rest[q].Call? ==> first.event.id in Recorded(head)
    ensures AttributedBeforeNext(head + rest)
  {
    var trace := head + rest;
    assert forall q :: 0 < q < |head| ==> trace[q] == head[1..][q - 1];
    forall p: nat, q: nat | p < q < |trace| && |head| <= q && trace[q].Call?
      ensures AttributedAt(trace, p)
    {
      assert trace[q] == rest[q - |head|];
      if p >= |head| {
        assert trace[p] == rest[p - |head|];
        assert AttributedAt(rest, p - |head|);
      } else if p == 0 {
        assert trace[0] == head[0];
      }
    }
  }

  // What a caller can check on an answer: it names only entries of its request.
  predicate NamesOnly(outcome: Outcome, sent: seq<EntryId>) {
    outcome.Response? ==>
      && (forall x | x in outcome.successful :: x in sent)
      && (forall f | f in outcome.failed :: f.entry in sent)
  }

  /** An answer that names only requested entries settles nothing but the entry asked
      about, so a service that always answers like that keeps every FIFO group in order. */
  lemma NamesOnlyIsAttributed(outcome: Outcome, entry: EntryId)
    requires NamesOnly(outcome, [entry])
    ensures Attributed(outcome, entry)
  {
    if outcome.Response? {
      AnyFaultExists(outcome.failed);
      if outcome.successful != [] {
        assert outcome.successful[0] in outcome.successful;
      } else if AnyFault(outcome.failed) {
        var i :| 0 <= i < |outcome.failed| && outcome.failed[i].senderFault;
        assert outcome.failed[i] in outcome.failed;
      }
    }
  }

  // Two valid events, the first of which lets the group go on.
  lemma TwoSends(service: Service, a: Candidate, b: Candidate)
    requires a.valid && b.valid && service.cancelled == {}
    requires SingleRun(service, 0, a.event).done && SingleRun(service, 0, a.event).err.None?
    ensures var first, second := SingleRun(service, 0, a.event), SingleRun(service, 1, b.event);
            FifoGroupRun(service, 0, [a, b]) == GroupRun(first.trace + second.trace, second.err)
  {
    var second := SingleRun(service, 1, b.event);
    assert [a, b][1..] == [b] && [b][1..] == [];
    assert second.trace + [] == second.trace;
    assert FifoGroupRun(service, 1, [b]) == GroupRun(second.trace, second.err);
  }

  /** One foreign entry is enough: asked about "a", the service names "x", and the group's
      second event is sent and confirmed while the first has no outcome. */
  lemma ForeignEntryBreaksOrder() returns (service: Service, group: seq<Candidate>)
    ensures |group| == 2 && DistinctGroup(group) && group[0].valid && group[1].valid
    ensures var run := FifoGroupRun(service, 0, group);
            && run.err.None? && CallCount(run.trace) == 2 && Recorded(run.trace) == {group[1].event.id}
            && !SendsInOrder(group, run.trace)
  {
    var a, b := Candidate(Prepared(0, "a", 1), true), Candidate(Prepared(1, "b", 1), true);
    service, group := Service([Response(["x"], []), Response(["b"], [])], {}), [a, b];
    SingleSend(service, 0, a.event);
    SingleSend(service, 1, b.event);
    SingleTrace(service, 0, a.event);
    SingleTrace(service, 1, b.event);
    TwoSends(service, a, b);
    var first, second := SingleRun(service, 0, a.event).trace, SingleRun(service, 1, b.event).trace;
    CallCountConcat(first, second);
    RecordedConcat(first, second);
    StrayPairBreaksOrder(service, group, first, second);
  }

  lemma StrayPairBreaksOrder(service: Service, group: seq<Candidate>, first: seq<Op>, second: seq<Op>)
    requires DistinctGroup(group) && FifoGroupRun(service, 0, group).trace == first + second
    requires first != [] && second != [] && second[0].Call? && !AttributedAt(first, 0)
    ensures !SendsInOrder(group, FifoGroupRun(service, 0, group).trace)
  {
    var trace := first + second;
    assert trace[0] == first[0] && trace[|first|] == second[0];
    assert !AttributedAt(trace, 0);
    FifoOrderIffAttributed(service, 0, group);
  }

  // --- what one send records ------------------------------------------------------------------

  // Every call of a run got an attributed answer.
  ghost predicate AllAttributed(trace: seq<Op>) {
    forall q: nat :: q < |trace| ==> AttributedAt(trace, q)
  }

  lemma IdsHead(group: seq<Candidate>, m: nat)
    requires m < |group|
    ensures Ids(group[..m + 1]) == {group[0].event.id} + Ids(group[1..][..m])
  {
    assert group[..m + 1] == [group[0]] + group[1..][..m];
    assert forall c :: c in group[..m + 1] <==> c == group[0] || c in group[1..][..m];
  }

  // One send of the group recorded exactly its first m events, in turn.
  ghost predicate RecordsPrefix(service: Service, n: nat, group: seq<Candidate>, m: nat) {
    var run := FifoGroupRun(service, n, group);
    m <= |group| && Recorded(run.trace) == Ids(group[..m]) && SendsInOrder(group, run.trace)
  }

  /** For every sequence of attributed provider outcomes, one send of a FIFO group records
      exactly a prefix of the group, and no event is handed to the provider before every
      earlier event of its group has been recorded. */
  lemma FifoGroupPrefix(service: Service, n: nat, group: seq<Candidate>) returns (m: nat)
    requires AllAttributed(FifoGroupRun(service, n, group).trace)
    ensures RecordsPrefix(service, n, group, m)
  {
    m := RecordedPrefix(service, n, group);
    forall q: nat | q < |FifoGroupRun(service, n, group).trace| {
      TurnIsReady(service, n, group, q);
    }
  }

  lemma {:induction false} RecordedPrefix(service: Service, n: nat, group: seq<Candidate>) returns (m: nat)
    requires AllAttributed(FifoGroupRun(service, n, group).trace)
    ensures m <= |group| && Recorded(FifoGroupRun(service, n, group).trace) == Ids(group[..m])
    decreases |group|, 1
  {
    var head, rest, next := FifoCases(service, n, group);
    if rest == [] {
      assert head + rest == head;
      m := if Recorded(head) == {} then 0 else 1;
      FirstOnly(group, Recorded(head), m);
    } else {
      m := RestPrefix(service, next, group, head);
    }
  }

  lemma {:induction false} RestPrefix(service: Service, next: nat, group: seq<Candidate>, head: seq<Op>) returns (m: nat)
    requires group != [] && OpensGroup(group[0], head)
    requires AllAttributed(head + FifoGroupRun(service, next, group[1..]).trace)
    ensures m <= |group| && Recorded(head + FifoGroupRun(service, next, group[1..]).trace) == Ids(group[..m])
    decreases |group|, 0
  {
    var rest := FifoGroupRun(service, next, group[1..]).trace;
    AttributedParts(head, rest);
    assert Recorded(head) == {group[0].event.id};
    var k := RecordedPrefix(service, next, group[1..]);
    m := k + 1;
    IdsHead(group, k);
    RecordedConcat(head, rest);
  }

  lemma FirstOnly(group: seq<Candidate>, recorded: set<EventId>, m: nat)
    requires m == (if recorded == {} then 0 else 1) && (m == 1 ==> group != [] && recorded <= {group[0].event.id})
    ensures Ids(group[..m]) == recorded
  {
    assert m == 1 ==> group[..1] == [group[0]];
  }

  lemma AttributedParts(head: seq<Op>, rest: seq<Op>)
    requires head != [] && AllAttributed(head + rest)
    ensures AttributedAt(head, 0) && AllAttributed(rest)
  {
    var trace := head + rest;
    assert trace[0] == head[0] && AttributedAt(trace, 0);
    forall q: nat | q < |rest|
      ensures AttributedAt(rest, q)
    {
      assert trace[|head| + q] == rest[q] && AttributedAt(trace, |head| + q);
    }
  }
}

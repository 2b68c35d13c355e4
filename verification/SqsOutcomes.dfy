/** What the SQS sends report, stated over their traces: an event is confirmed or poisoned
    exactly when the answer to a call that carried it says so, the progress flag and the
    error are those of the answers, and a FIFO group goes on exactly after clean answers.
 */
module SqsOutcomes {
  import opened Errors
  import opened Collector
  import opened Chunking
  import opened SqsSender

  // --- what a call's answer says -----------------------------------------------------------

  // The answer lists an entry the call carried as sent.
  predicate Confirms(op: Op, entry: EntryId) {
    op.Call? && entry in op.entries && op.outcome.Response? && entry in op.outcome.successful
  }

  // It proves the entry poison: the entry's own sender fault, or a permanent error of a
  // call that carried it alone.
  predicate Condemns(op: Op, entry: EntryId, reason: string) {
    && op.Call? && entry in op.entries
    && if op.outcome.CallError? then op.outcome.permanent && op.entries == [entry] && reason == PERMANENT
       else exists i | 0 <= i < |op.outcome.failed| ::
              op.outcome.failed[i].senderFault && op.outcome.failed[i].entry == entry && op.outcome.failed[i].reason == reason
  }

  // Something of the answer is final.
  predicate Settles(op: Op) {
    && op.Call?
    && if op.outcome.CallError? then op.outcome.permanent && |op.entries| == 1
       else op.outcome.successful != [] || exists i | 0 <= i < |op.outcome.failed| :: op.outcome.failed[i].senderFault
  }

  // The answer carries an error of this kind that the send must report.
  predicate Fails(op: Op, kind: Kind) {
    && op.Call?
    && if op.outcome.CallError? then !op.outcome.permanent && ErrIs(op.outcome.err, kind)
       else kind == Provider && exists i | 0 <= i < |op.outcome.failed| :: !op.outcome.failed[i].senderFault
  }

  // The answer keeps some entry for a retry.
  predicate Keeps(op: Op) {
    && op.Call?
    && if op.outcome.CallError? then !op.outcome.permanent
       else exists i | 0 <= i < |op.outcome.failed| :: !op.outcome.failed[i].senderFault
  }

  // --- confirmed and poisoned exactly by the answers ------------------------------------------

  function Confirmation(e: Prepared): Op {
    Report(Confirm(Some(e.id)))
  }

  function Condemnation(e: Prepared, reason: string): Op {
    Report(Poison(Some(e.id), reason))
  }

  // A report about e at q rests on an earlier call whose answer says so.
  ghost predicate Grounded(trace: seq<Op>, q: nat, e: Prepared)
    requires q < |trace|
  {
    && (trace[q] == Confirmation(e) ==> exists p: nat :: p < q && Confirms(trace[p], e.entry))
    && forall reason :: trace[q] == Condemnation(e, reason) ==> exists p: nat :: p < q && Condemns(trace[p], e.entry, reason)
  }

  // What the answer to the call at p says about e is reported after it.
  ghost predicate Answered(trace: seq<Op>, p: nat, e: Prepared)
    requires p < |trace|
  {
    && (Confirms(trace[p], e.entry) ==> exists q: nat :: p < q < |trace| && trace[q] == Confirmation(e))
    && forall reason :: Condemns(trace[p], e.entry, reason) ==> exists q: nat :: p < q < |trace| && trace[q] == Condemnation(e, reason)
  }

  // The reports about e are exactly what the answers say.
  ghost predicate Exact(trace: seq<Op>, e: Prepared) {
    && (forall q: nat :: q < |trace| ==> Grounded(trace, q, e))
    && (forall p: nat :: p < |trace| ==> Answered(trace, p, e))
  }

  // A part of a trace keeps what it says about e.
  lemma PartIsExact(all: seq<Op>, part: seq<Op>, shift: nat, q: nat, e: Prepared)
    requires q < |part| && shift + |part| <= |all| && forall p: nat :: p < |part| ==> all[shift + p] == part[p]
    requires Grounded(part, q, e) && Answered(part, q, e)
    ensures Grounded(all, shift + q, e) && Answered(all, shift + q, e)
  {
    hide Confirms, Condemns;
    if all[shift + q] == Confirmation(e) {
      var p: nat :| p < q && Confirms(part[p], e.entry);
      assert Confirms(all[shift + p], e.entry);
    }
    forall reason | all[shift + q] == Condemnation(e, reason)
      ensures exists p: nat :: p < shift + q && Condemns(all[p], e.entry, reason)
    {
      var p: nat :| p < q && Condemns(part[p], e.entry, reason);
      assert Condemns(all[shift + p], e.entry, reason);
    }
  }

  lemma ExactConcat(a: seq<Op>, b: seq<Op>, e: Prepared)
    requires Exact(a, e) && Exact(b, e)
    ensures Exact(a + b, e)
  {
    hide Grounded, Answered;
    forall q: nat | q < |a + b|
      ensures Grounded(a + b, q, e) && Answered(a + b, q, e)
    {
      if q < |a| {
        PartIsExact(a + b, a, 0, q, e);
      } else {
        PartIsExact(a + b, b, |a|, q - |a|, e);
      }
    }
  }

  predicate DistinctEvents(events: seq<Prepared>) {
    forall i, j | 0 <= i < j < |events| :: events[i].id != events[j].id && events[i].entry != events[j].entry
  }

  lemma {:induction false} LookupOwn(events: seq<Prepared>, e: Prepared)
    requires DistinctEvents(events) && e in events
    ensures Lookup(events, e.entry) == Some(e.id)
  {
    var init, last := events[..|events| - 1], events[|events| - 1];
    if e != last {
      assert e in init by {
        assert events == init + [last];
      }
      LookupOwn(init, e);
    }
  }

  // An entry whose event is found under e's id is e's.
  lemma LookupOnly(events: seq<Prepared>, entry: EntryId, e: Prepared)
    requires DistinctEvents(events) && e in events && Lookup(events, entry) == Some(e.id)
    ensures entry == e.entry
  {
    LookupFound(events, entry);
    var f :| f in events && f.entry == entry && f.id == e.id;
    var i :| 0 <= i < |events| && events[i] == e;
    var j :| 0 <= j < |events| && events[j] == f;
    assert i == j;
  }

  lemma {:induction false} SuccessReported(events: seq<Prepared>, successful: seq<EntryId>, op: Op)
    ensures op in SuccessOps(events, successful) <==> exists x :: x in successful && op == Report(Confirm(Lookup(events, x)))
  {
    if successful != [] {
      var init, last := successful[..|successful| - 1], successful[|successful| - 1];
      SuccessReported(events, init, op);
      assert last in successful;
      if x :| x in successful && op == Report(Confirm(Lookup(events, x))) {
        assert x == last || x in init by {
          assert successful == init + [last];
        }
      }
      if x :| x in init && op == Report(Confirm(Lookup(events, x))) {
        assert x in successful;
      }
    }
  }

  ghost predicate FaultAt(events: seq<Prepared>, failed: seq<Failure>, i: int, op: Op) {
    0 <= i < |failed| && failed[i].senderFault && op == Report(Poison(Lookup(events, failed[i].entry), failed[i].reason))
  }

  lemma {:induction false} FaultReported(events: seq<Prepared>, failed: seq<Failure>, op: Op)
    ensures op in FaultOps(events, failed) <==> exists i :: FaultAt(events, failed, i, op)
  {
    if failed != [] {
      var init, last := failed[..|failed| - 1], failed[|failed| - 1];
      FaultReported(events, init, op);
      forall i
        ensures FaultAt(events, failed, i, op) <==> FaultAt(events, init, i, op) || (i == |init| && FaultAt(events, failed, i, op))
      {
      }
      assert FaultAt(events, failed, |init|, op) <==> last.senderFault && op == Report(Poison(Lookup(events, last.entry), last.reason));
    }
  }

  // The reports that settle one call say of e exactly what its answer says.
  lemma SettledExactly(events: seq<Prepared>, outcome: Outcome, e: Prepared)
    requires events != [] && !Isolates(events, outcome) && DistinctEvents(events) && e in events
    ensures var call, settled := Call(Entries(events), outcome), Settle(events, outcome).trace;
            && (Confirmation(e) in settled <==> Confirms(call, e.entry))
            && forall reason :: Condemnation(e, reason) in settled <==> Condemns(call, e.entry, reason)
  {
    var j :| 0 <= j < |events| && events[j] == e;
    assert Entries(events)[j] == e.entry;
    LookupOwn(events, e);
    match outcome
    case CallError(_, _) => assert Entries(events) == [e.entry] <==> |events| == 1;
    case Response(successful, failed) =>
      ConfirmedExactly(events, successful, failed, e);
      forall reason {
        CondemnedExactly(events, successful, failed, e, reason);
      }
  }

  lemma ConfirmedExactly(events: seq<Prepared>, successful: seq<EntryId>, failed: seq<Failure>, e: Prepared)
    requires DistinctEvents(events) && e in events
    ensures Confirmation(e) in ResponseOps(events, successful, failed) <==> e.entry in successful
  {
    LookupOwn(events, e);
    SuccessReported(events, successful, Confirmation(e));
    FaultReported(events, failed, Confirmation(e));
    if x :| x in successful && Confirmation(e) == Report(Confirm(Lookup(events, x))) {
      LookupOnly(events, x, e);
    }
  }

  lemma CondemnedExactly(events: seq<Prepared>, successful: seq<EntryId>, failed: seq<Failure>, e: Prepared, reason: string)
    requires DistinctEvents(events) && e in events
    ensures Condemnation(e, reason) in ResponseOps(events, successful, failed)
       <==> exists i :: 0 <= i < |failed| && failed[i].senderFault && failed[i].entry == e.entry && failed[i].reason == reason
  {
    LookupOwn(events, e);
    SuccessReported(events, successful, Condemnation(e, reason));
    FaultReported(events, failed, Condemnation(e, reason));
    if i :| FaultAt(events, failed, i, Condemnation(e, reason)) {
      LookupOnly(events, failed[i].entry, e);
    }
    if i :| 0 <= i < |failed| && failed[i].senderFault && failed[i].entry == e.entry && failed[i].reason == reason {
      assert FaultAt(events, failed, i, Condemnation(e, reason));
    }
  }

  // One call and the reports that settle it.
  lemma CallIsExact(call: Op, settled: seq<Op>, e: Prepared)
    requires call.Call? && NoCalls(settled)
    requires Confirmation(e) in settled <==> Confirms(call, e.entry)
    requires forall reason :: Condemnation(e, reason) in settled <==> Condemns(call, e.entry, reason)
    ensures Exact([call] + settled, e)
  {
    hide Confirms, Condemns;
    var trace := [call] + settled;
    forall q: nat | q < |trace|
      ensures Grounded(trace, q, e) && Answered(trace, q, e)
    {
      if q == 0 {
        CallAnswered(call, settled, e);
      } else {
        assert trace[q] == settled[q - 1] && trace[q] in settled && trace[0] == call;
        OnlyCallsSay(trace[q], e.entry);
      }
    }
  }

  lemma OnlyCallsSay(op: Op, entry: EntryId)
    requires op.Report?
    ensures !Confirms(op, entry) && forall reason :: !Condemns(op, entry, reason)
  {
  }

  lemma CallAnswered(call: Op, settled: seq<Op>, e: Prepared)
    requires call.Call?
    requires Confirmation(e) in settled <==> Confirms(call, e.entry)
    requires forall reason :: Condemnation(e, reason) in settled <==> Condemns(call, e.entry, reason)
    ensures Grounded([call] + settled, 0, e) && Answered([call] + settled, 0, e)
  {
    hide Confirms, Condemns;
    var trace := [call] + settled;
    assert forall k :: 0 <= k < |settled| ==> trace[k + 1] == settled[k];
  }

  // A call that carried only another event says nothing about e.
  lemma OtherIsExact(service: Service, n: nat, other: Prepared, e: Prepared)
    requires e.id != other.id && e.entry != other.entry
    ensures Exact(SingleRun(service, n, other).trace, e)
  {
    var outcome := Respond(service, n);
    var call, settled := Call([other.entry], outcome), Settle([other], outcome).trace;
    forall report | report == Confirmation(e) || (report.Report? && report.callback.Poison? && report == Condemnation(e, report.callback.reason))
      ensures report !in settled
    {
      OthersReport(other, outcome, report);
    }
    CallIsExact(call, settled, e);
  }

  lemma OthersReport(other: Prepared, outcome: Outcome, report: Op)
    requires report.Report? && report.callback.id.Some? && report.callback.id.value != other.id
    ensures report !in Settle([other], outcome).trace
  {
    if outcome.Response? {
      SuccessReported([other], outcome.successful, report);
      FaultReported([other], outcome.failed, report);
      forall x
        ensures Lookup([other], x) == if x == other.entry then Some(other.id) else None
      {
        assert [other][..0] == [];
      }
    }
  }

  lemma SingleIsExact(service: Service, n: nat, e: Prepared)
    ensures Exact(SingleRun(service, n, e).trace, e)
  {
    assert Entries([e]) == [e.entry];
    SettledExactly([e], Respond(service, n), e);
    CallIsExact(Call([e.entry], Respond(service, n)), Settle([e], Respond(service, n)).trace, e);
  }

  lemma {:induction false} IsolatedIsExact(service: Service, n: nat, events: seq<Prepared>, e: Prepared)
    requires forall k :: 0 <= k < |events| ==> events[k] == e || (events[k].id != e.id && events[k].entry != e.entry)
    ensures Exact(IsolatedRun(service, n, events).trace, e)
  {
    hide Exact, SingleRun;
    if events == [] {
      NothingIsExact(e);
    } else {
      var init, last := events[..|events| - 1], events[|events| - 1];
      IsolatedIsExact(service, n, init, e);
      if last == e {
        SingleIsExact(service, n + |init|, e);
      } else {
        OtherIsExact(service, n + |init|, last, e);
      }
      ExactConcat(IsolatedRun(service, n, init).trace, SingleRun(service, n + |init|, last).trace, e);
    }
  }

  lemma NothingIsExact(e: Prepared)
    ensures Exact([], e)
  {
  }

  /** Whatever the provider answers, an event of a batch is confirmed exactly when the answer
      to a call that carried it lists it, and poisoned exactly when such an answer blames its
      own entry or a permanent error met it alone; the report follows that call. */
  lemma BatchIsExact(service: Service, n: nat, events: seq<Prepared>, e: Prepared)
    requires DistinctEvents(events) && e in events
    ensures Exact(SendBatchRun(service, n, events).trace, e)
  {
    var outcome := Respond(service, n);
    var call := Call(Entries(events), outcome);
    if Isolates(events, outcome) {
      DistinctFrom(events, e);
      IsolatedIsExact(service, n + 1, events, e);
      RefusedSaysNothing(events, outcome, e);
      ExactConcat([call], IsolatedRun(service, n + 1, events).trace, e);
    } else {
      SettledExactly(events, outcome, e);
      CallIsExact(call, Settle(events, outcome).trace, e);
    }
  }

  lemma DistinctFrom(events: seq<Prepared>, e: Prepared)
    requires DistinctEvents(events) && e in events
    ensures forall k :: 0 <= k < |events| ==> events[k] == e || (events[k].id != e.id && events[k].entry != e.entry)
  {
    var j :| 0 <= j < |events| && events[j] == e;
  }

  // A permanent error of a call with several entries says nothing about any of them.
  lemma RefusedSaysNothing(events: seq<Prepared>, outcome: Outcome, e: Prepared)
    requires Isolates(events, outcome)
    ensures Exact([Call(Entries(events), outcome)], e)
  {
    assert Entries(events) != [e.entry];
  }

  /** So the confirmed and the poisoned events are exactly those the answers settle. */
  lemma SettledIffAnswered(service: Service, n: nat, events: seq<Prepared>, e: Prepared)
    requires DistinctEvents(events) && e in events
    ensures var trace := SendBatchRun(service, n, events).trace;
            && (Confirmation(e) in trace <==> exists op :: op in trace && Confirms(op, e.entry))
            && forall reason :: Condemnation(e, reason) in trace <==> exists op :: op in trace && Condemns(op, e.entry, reason)
  {
    BatchIsExact(service, n, events, e);
    ExactMembers(SendBatchRun(service, n, events).trace, e);
  }

  lemma ExactMembers(trace: seq<Op>, e: Prepared)
    requires Exact(trace, e)
    ensures Confirmation(e) in trace <==> exists op :: op in trace && Confirms(op, e.entry)
    ensures forall reason :: Condemnation(e, reason) in trace <==> exists op :: op in trace && Condemns(op, e.entry, reason)
  {
    hide Confirms, Condemns;
    forall op | op in trace
      ensures op == Confirmation(e) ==> exists call :: call in trace && Confirms(call, e.entry)
      ensures forall reason :: op == Condemnation(e, reason) ==> exists call :: call in trace && Condemns(call, e.entry, reason)
      ensures Confirms(op, e.entry) ==> Confirmation(e) in trace
      ensures forall reason :: Condemns(op, e.entry, reason) ==> Condemnation(e, reason) in trace
    {
      var q: nat :| q < |trace| && trace[q] == op;
      assert Grounded(trace, q, e) && Answered(trace, q, e);
    }
  }

  // --- the flag and the error -------------------------------------------------------------------

  predicate AnySettles(trace: seq<Op>) {
    exists op | op in trace :: Settles(op)
  }

  predicate AnyKeeps(trace: seq<Op>) {
    exists op | op in trace :: Keeps(op)
  }

  predicate AnyFails(trace: seq<Op>, kind: Kind) {
    exists op | op in trace :: Fails(op, kind)
  }

  lemma AnyConcat(a: seq<Op>, b: seq<Op>)
    ensures AnySettles(a + b) <==> AnySettles(a) || AnySettles(b)
    ensures AnyKeeps(a + b) <==> AnyKeeps(a) || AnyKeeps(b)
    ensures forall kind :: AnyFails(a + b, kind) <==> AnyFails(a, kind) || AnyFails(b, kind)
  {
    hide Settles, Keeps, Fails;
    assert forall op :: op in a + b <==> op in a || op in b;
  }

  // What a run returns is what its answers say.
  ghost predicate ReturnsAnswers(run: Run) {
    && (run.done <==> AnySettles(run.trace))
    && (run.err.Some? <==> AnyKeeps(run.trace))
    && forall kind :: Is(run.err, kind) <==> AnyFails(run.trace, kind)
  }

  lemma {:induction false} RejectionsAre(failed: seq<Failure>, kind: Kind)
    ensures Rejections(failed).Some? <==> exists i :: 0 <= i < |failed| && !failed[i].senderFault
    ensures Is(Rejections(failed), kind) <==> kind == Provider && exists i :: 0 <= i < |failed| && !failed[i].senderFault
  {
    if failed != [] {
      var init, last := failed[..|failed| - 1], failed[|failed| - 1];
      RejectionsAre(init, kind);
      JoinIs(Rejections(init), Some(Leaf(Provider)), kind);
      assert failed[|init|] == last && forall i :: 0 <= i < |init| ==> init[i] == failed[i];
    }
  }

  // One call and what settles it.
  lemma CallReturns(events: seq<Prepared>, outcome: Outcome)
    requires events != [] && !Isolates(events, outcome)
    ensures ReturnsAnswers(AfterCall(Entries(events), outcome, Settle(events, outcome)))
  {
    var call, settled := Call(Entries(events), outcome), Settle(events, outcome);
    OnlyCall(call, settled.trace);
    SettleReturns(events, outcome);
  }

  lemma SettleReturns(events: seq<Prepared>, outcome: Outcome)
    requires events != [] && !Isolates(events, outcome)
    ensures var call, settled := Call(Entries(events), outcome), Settle(events, outcome);
            && (settled.done <==> Settles(call)) && (settled.err.Some? <==> Keeps(call))
            && forall kind :: Is(settled.err, kind) <==> Fails(call, kind)
  {
    if outcome.Response? {
      AnyFaultExists(outcome.failed);
      RejectionsAre(outcome.failed, Provider);
      forall kind {
        RejectionsAre(outcome.failed, kind);
      }
    }
  }

  lemma OnlyCall(call: Op, settled: seq<Op>)
    requires call.Call? && NoCalls(settled)
    ensures AnySettles([call] + settled) <==> Settles(call)
    ensures AnyKeeps([call] + settled) <==> Keeps(call)
    ensures forall kind :: AnyFails([call] + settled, kind) <==> Fails(call, kind)
  {
    var trace := [call] + settled;
    assert call in trace && forall op :: op in trace ==> op == call || op in settled;
    assert forall op :: op in settled ==> !op.Call?;
  }

  lemma ThenReturns(before: Run, last: Run)
    requires ReturnsAnswers(before) && ReturnsAnswers(last)
    ensures ReturnsAnswers(Then(before, last))
  {
    hide AnySettles, AnyKeeps, AnyFails;
    AnyConcat(before.trace, last.trace);
    forall kind {
      JoinIs(before.err, last.err, kind);
    }
  }

  lemma {:induction false} IsolatedReturns(service: Service, n: nat, events: seq<Prepared>)
    ensures ReturnsAnswers(IsolatedRun(service, n, events))
  {
    if events != [] {
      hide ReturnsAnswers, Then, Settle;
      var init, last := events[..|events| - 1], events[|events| - 1];
      IsolatedReturns(service, n, init);
      assert Entries([last]) == [last.entry];
      CallReturns([last], Respond(service, n + |init|));
      ThenReturns(IsolatedRun(service, n, init), SingleRun(service, n + |init|, last));
    }
  }

  /** A send reports progress exactly when some answer was final about something, and an
      error exactly when some answer keeps something for a retry; the error holds exactly
      the kinds of error those answers carried. */
  lemma BatchReturnsAnswers(service: Service, n: nat, events: seq<Prepared>)
    ensures ReturnsAnswers(SendBatchRun(service, n, events))
  {
    if events != [] {
      var outcome := Respond(service, n);
      if Isolates(events, outcome) {
        IsolatedReturns(service, n + 1, events);
        var call := [Call(Entries(events), outcome)];
        AnyConcat(call, IsolatedRun(service, n + 1, events).trace);
        assert !AnySettles(call) && !AnyKeeps(call);
      } else {
        CallReturns(events, outcome);
      }
    }
  }

  // --- what is called, in order -------------------------------------------------------------------

  // The entries of a trace's calls, in order.
  function CallsMade(trace: seq<Op>): seq<seq<EntryId>> {
    if trace == [] then []
    else
      var last := trace[|trace| - 1];
      CallsMade(trace[..|trace| - 1]) + if last.Call? then [last.entries] else []
  }

  lemma {:induction false} CallsMadeConcat(a: seq<Op>, b: seq<Op>)
    ensures CallsMade(a + b) == CallsMade(a) + CallsMade(b)
    decreases |b|
  {
    if b == [] {
      assert a + b == a;
    } else {
      assert (a + b)[..|a + b| - 1] == a + b[..|b| - 1];
      CallsMadeConcat(a, b[..|b| - 1]);
    }
  }

  lemma {:induction false} NoCallsMade(trace: seq<Op>)
    requires NoCalls(trace)
    ensures CallsMade(trace) == []
  {
    if trace != [] {
      NoCallsMade(trace[..|trace| - 1]);
    }
  }

  lemma OneCallMade(call: Op, settled: seq<Op>)
    requires call.Call? && NoCalls(settled)
    ensures CallsMade([call] + settled) == [call.entries]
  {
    CallsMadeConcat([call], settled);
    NoCallsMade(settled);
    assert [call][..0] == [] && CallsMade([call]) == [call.entries];
  }

  function Singles(events: seq<Prepared>): (calls: seq<seq<EntryId>>)
    ensures |calls| == |events| && forall i | 0 <= i < |calls| :: calls[i] == [events[i].entry]
  {
    seq(|events|, i requires 0 <= i < |events| => [events[i].entry])
  }

  lemma {:induction false} IsolatedCalls(service: Service, n: nat, events: seq<Prepared>)
    ensures CallsMade(IsolatedRun(service, n, events).trace) == Singles(events)
  {
    if events != [] {
      hide Settle;
      var init, last := events[..|events| - 1], events[|events| - 1];
      IsolatedCalls(service, n, init);
      var outcome := Respond(service, n + |init|);
      SettleMakesNoCalls([last], outcome);
      OneCallMade(Call([last.entry], outcome), Settle([last], outcome).trace);
      CallsMadeConcat(IsolatedRun(service, n, init).trace, SingleRun(service, n + |init|, last).trace);
      assert Singles(events) == Singles(init) + [[last.entry]];
    }
  }

  lemma SettleMakesNoCalls(events: seq<Prepared>, outcome: Outcome)
    requires events != [] && !Isolates(events, outcome)
    ensures NoCalls(Settle(events, outcome).trace)
  {
  }

  /** A send calls with all entries of its batch first, in order, and once more with each of
      them alone, in order, exactly if that call met a permanent error and carried several. */
  lemma BatchCalls(service: Service, n: nat, events: seq<Prepared>)
    requires events != []
    ensures var first := Respond(service, n);
            CallsMade(SendBatchRun(service, n, events).trace)
            == [Entries(events)] + if first.CallError? && first.permanent && |events| > 1 then Singles(events) else []
  {
    hide CallsMade, IsolatedRun, Settle;
    var outcome := Respond(service, n);
    var call := Call(Entries(events), outcome);
    if Isolates(events, outcome) {
      IsolatedCalls(service, n + 1, events);
      LoneCall(call);
      CallsMadeConcat([call], IsolatedRun(service, n + 1, events).trace);
    } else {
      SettleMakesNoCalls(events, outcome);
      OneCallMade(call, Settle(events, outcome).trace);
      assert [Entries(events)] + [] == [Entries(events)];
    }
  }

  lemma LoneCall(call: Op)
    requires call.Call?
    ensures CallsMade([call]) == [call.entries]
  {
    OneCallMade(call, []);
    assert [call] + [] == [call];
  }

  // --- FIFO groups ----------------------------------------------------------------------------------

  // Event e is of the group, or none of its events shares e's id or entry.
  predicate Apart(group: seq<Candidate>, e: Prepared) {
    forall k | 0 <= k < |group| :: (group[k].valid && group[k].event == e) || (group[k].event.id != e.id && group[k].event.entry != e.entry)
  }

  /** Whatever the provider answers, a prepared event of a FIFO group is confirmed or poisoned
      exactly as the answers to the calls that carried it say. */
  lemma {:induction false} FifoIsExact(service: Service, n: nat, group: seq<Candidate>, e: Prepared)
    requires Apart(group, e)
    ensures Exact(FifoGroupRun(service, n, group).trace, e)
    decreases |group|
  {
    hide Exact, SingleRun;
    NothingIsExact(e);
    if group != [] {
      var first, rest := group[0], group[1..];
      if !first.valid {
        FifoIsExact(service, n, rest, e);
        ReportOfOther(first.event, e);
        ExactConcat([Condemnation(first.event, INVALID)], FifoGroupRun(service, n, rest).trace, e);
      } else if n !in service.cancelled {
        FirstIsExact(service, n, first.event, e);
        FifoIsExact(service, n + 1, rest, e);
        ExactConcat(SingleRun(service, n, first.event).trace, FifoGroupRun(service, n + 1, rest).trace, e);
      }
    }
  }

  lemma FirstIsExact(service: Service, n: nat, first: Prepared, e: Prepared)
    requires first == e || (first.id != e.id && first.entry != e.entry)
    ensures Exact(SingleRun(service, n, first).trace, e)
  {
    if first == e {
      SingleIsExact(service, n, e);
    } else {
      OtherIsExact(service, n, first, e);
    }
  }

  lemma ReportOfOther(other: Prepared, e: Prepared)
    requires other.id != e.id
    ensures Exact([Condemnation(other, INVALID)], e)
  {
  }

  // The answer settles the entry's call and keeps nothing back.
  predicate Clean(op: Op) {
    Settles(op) && !Keeps(op)
  }

  predicate CalledCleanly(trace: seq<Op>, c: Candidate) {
    exists op | op in trace :: op.Call? && op.entries == [c.event.entry] && Clean(op)
  }

  // The group may go on from this event.
  predicate Passed(trace: seq<Op>, c: Candidate) {
    !c.valid || CalledCleanly(trace, c)
  }

  // Its turn came: a call was made for it, or it was poisoned as invalid.
  predicate Handled(trace: seq<Op>, c: Candidate) {
    if c.valid then exists op | op in trace :: op.Call? && op.entries == [c.event.entry]
    else Condemnation(c.event, INVALID) in trace
  }

  function ValidCount(group: seq<Candidate>): nat {
    if group == [] then 0 else (if group[0].valid then 1 else 0) + ValidCount(group[1..])
  }

  // Every elder of event j has passed.
  ghost predicate TurnCame(group: seq<Candidate>, trace: seq<Op>, j: nat)
    requires j < |group|
  {
    forall i :: 0 <= i < j ==> Passed(trace, group[i])
  }

  // A call for event j finds its slot before the context is done.
  predicate GetsSlot(service: Service, n: nat, group: seq<Candidate>, j: nat)
    requires j < |group|
  {
    group[j].valid ==> n + ValidCount(group[..j]) !in service.cancelled
  }

  ghost predicate HandledInTurn(service: Service, n: nat, group: seq<Candidate>, trace: seq<Op>, j: nat)
    requires j < |group|
  {
    Handled(trace, group[j]) <==> TurnCame(group, trace, j) && GetsSlot(service, n, group, j)
  }

  // What the turn of one event leaves in the trace is about this event alone.
  ghost predicate OwnTurn(head: seq<Op>, c: Candidate) {
    forall op :: op in head ==>
      if op.Call? then c.valid && op.entries == [c.event.entry] else op.callback.id.Some? ==> op.callback.id.value == c.event.id
  }

  lemma SingleOwn(service: Service, n: nat, c: Candidate)
    requires c.valid
    ensures OwnTurn(SingleRun(service, n, c.event).trace, c)
    ensures var run := SingleRun(service, n, c.event);
            CalledCleanly(run.trace, c) <==> run.done && run.err.None?
    ensures Handled(SingleRun(service, n, c.event).trace, c)
  {
    var outcome := Respond(service, n);
    var call, settled := Call([c.event.entry], outcome), Settle([c.event], outcome);
    assert Entries([c.event]) == [c.event.entry];
    SettleReturns([c.event], outcome);
    var trace := [call] + settled.trace;
    assert NoCalls(settled.trace) && call in trace;
    forall op | op in settled.trace
      ensures op.Report? && (op.callback.id.Some? ==> op.callback.id.value == c.event.id)
    {
      var k :| 0 <= k < |settled.trace| && settled.trace[k] == op;
      if op.callback.id.Some? && op.callback.id.value != c.event.id {
        OthersReport(c.event, outcome, op);
      }
    }
    assert forall op :: op in trace ==> op == call || op in settled.trace;
  }

  // A turn says nothing of any other event of the group.
  lemma TurnOfOther(head: seq<Op>, rest: seq<Op>, first: Candidate, c: Candidate)
    requires OwnTurn(head, first) && first.event.id != c.event.id && first.event.entry != c.event.entry
    ensures Handled(head + rest, c) <==> Handled(rest, c)
    ensures Passed(head + rest, c) <==> Passed(rest, c)
  {
    hide Clean;
    assert forall op :: op in head + rest <==> op in head || op in rest;
    forall op | op in head
      ensures op != Condemnation(c.event, INVALID) && (op.Call? ==> op.entries != [c.event.entry])
    {
      assert op.Call? ==> op.entries[0] == first.event.entry;
    }
  }

  lemma TurnOfFirst(head: seq<Op>, rest: seq<Op>, c: Candidate)
    ensures Handled(head, c) ==> Handled(head + rest, c)
    ensures Passed(head, c) ==> Passed(head + rest, c)
  {
    hide Clean;
    assert forall op :: op in head ==> op in head + rest;
  }

  lemma InvalidOwn(c: Candidate)
    requires !c.valid
    ensures var head := [Condemnation(c.event, INVALID)]; OwnTurn(head, c) && Handled(head, c) && Passed(head, c)
  {
  }

  // The group went on from its first event.
  lemma TurnGoesOn(service: Service, n: nat, next: nat, group: seq<Candidate>, head: seq<Op>, rest: seq<Op>, j: nat)
    requires DistinctGroup(group) && j < |group| && next == n + if group[0].valid then 1 else 0
    requires OwnTurn(head, group[0]) && Handled(head, group[0]) && Passed(head, group[0]) && (group[0].valid ==> n !in service.cancelled)
    requires j > 0 ==> HandledInTurn(service, next, group[1..], rest, j - 1)
    ensures HandledInTurn(service, n, group, head + rest, j)
  {
    hide OwnTurn, Handled, Passed;
    TurnOfFirst(head, rest, group[0]);
    if j == 0 {
      assert ValidCount(group[..0]) == 0;
    } else {
      TurnOfOther(head, rest, group[0], group[j]);
      TurnsShift(group, head, rest, j);
      SlotsShift(service, n, group, j);
    }
  }

  lemma SlotsShift(service: Service, n: nat, group: seq<Candidate>, j: nat)
    requires 0 < j < |group|
    ensures var next := n + if group[0].valid then 1 else 0;
            GetsSlot(service, n, group, j) <==> GetsSlot(service, next, group[1..], j - 1)
  {
    assert group[..j][1..] == group[1..][..j - 1] && group[..j][0] == group[0];
  }

  lemma TurnsShift(group: seq<Candidate>, head: seq<Op>, rest: seq<Op>, j: nat)
    requires DistinctGroup(group) && 0 < j < |group| && OwnTurn(head, group[0]) && Passed(head + rest, group[0])
    ensures TurnCame(group, head + rest, j) <==> TurnCame(group[1..], rest, j - 1)
  {
    hide Passed, OwnTurn;
    forall k: nat | k < |group[1..]|
      ensures Passed(head + rest, group[k + 1]) <==> Passed(rest, group[1..][k])
    {
      TurnOfOther(head, rest, group[0], group[k + 1]);
    }
    if TurnCame(group, head + rest, j) {
      forall i | 0 <= i < j - 1
        ensures Passed(rest, group[1..][i])
      {
        assert Passed(head + rest, group[i + 1]);
      }
    }
    if TurnCame(group[1..], rest, j - 1) {
      forall i | 0 <= i < j
        ensures Passed(head + rest, group[i])
      {
        if i > 0 {
          assert Passed(rest, group[1..][i - 1]);
        }
      }
    }
  }

  // It stopped at its first event, or before it.
  lemma TurnStops(service: Service, n: nat, group: seq<Candidate>, head: seq<Op>, j: nat)
    requires DistinctGroup(group) && j < |group| && group[0].valid && OwnTurn(head, group[0]) && !CalledCleanly(head, group[0])
    requires Handled(head, group[0]) <==> n !in service.cancelled
    ensures HandledInTurn(service, n, group, head, j)
  {
    hide OwnTurn, CalledCleanly;
    if j == 0 {
      assert ValidCount(group[..0]) == 0;
    } else {
      TurnOfOther(head, [], group[0], group[j]);
      assert head + [] == head;
      assert !Passed(head, group[0]);
    }
  }

  /** For every sequence of answers, the turn of an event of a FIFO group comes exactly when
      each older one was invalid or had its own call answered cleanly, something settled and
      nothing kept back, and the context is not done; then it is called, or poisoned if
      invalid. So the group never stops early and never goes on from an unclean answer. */
  lemma {:induction false} FifoHandlesInTurn(service: Service, n: nat, group: seq<Candidate>, j: nat)
    requires DistinctGroup(group) && j < |group|
    ensures HandledInTurn(service, n, group, FifoGroupRun(service, n, group).trace, j)
    decreases |group|
  {
    hide SingleRun, Handled, CalledCleanly, OwnTurn, HandledInTurn;
    var first, rest := group[0], group[1..];
    if !first.valid {
      InvalidOwn(first);
      if j > 0 {
        FifoHandlesInTurn(service, n, rest, j - 1);
      }
      TurnGoesOn(service, n, n, group, [Condemnation(first.event, INVALID)], FifoGroupRun(service, n, rest).trace, j);
    } else if n in service.cancelled {
      NothingDone(first);
      TurnStops(service, n, group, [], j);
    } else {
      SingleOwn(service, n, first);
      var head := SingleRun(service, n, first.event);
      if head.err.Some? || !head.done {
        TurnStops(service, n, group, head.trace, j);
      } else {
        if j > 0 {
          FifoHandlesInTurn(service, n + 1, rest, j - 1);
        }
        TurnGoesOn(service, n, n + 1, group, head.trace, FifoGroupRun(service, n + 1, rest).trace, j);
      }
    }
  }

  lemma NothingDone(c: Candidate)
    ensures OwnTurn([], c) && !Handled([], c) && !CalledCleanly([], c)
  {
  }

  // The context was done when the group waited for the slot of some event whose turn had come.
  ghost predicate CancelledIn(service: Service, n: nat, group: seq<Candidate>, trace: seq<Op>) {
    exists j: nat :: j < |group| && TurnCame(group, trace, j) && !GetsSlot(service, n, group, j)
  }

  // The error says exactly what the answers kept back, or that the context was done.
  ghost predicate FifoReturns(service: Service, n: nat, group: seq<Candidate>, run: GroupRun) {
    && (run.err.Some? <==> AnyKeeps(run.trace) || CancelledIn(service, n, group, run.trace))
    && forall kind :: Is(run.err, kind) <==> AnyFails(run.trace, kind) || (kind == Provider && CancelledIn(service, n, group, run.trace))
  }

  lemma CancelledShifts(service: Service, n: nat, group: seq<Candidate>, head: seq<Op>, rest: seq<Op>)
    requires DistinctGroup(group) && group != [] && OwnTurn(head, group[0]) && Passed(head, group[0]) && GetsSlot(service, n, group, 0)
    ensures var next := n + if group[0].valid then 1 else 0;
            CancelledIn(service, n, group, head + rest) <==> CancelledIn(service, next, group[1..], rest)
  {
    hide OwnTurn, Passed, TurnCame, GetsSlot;
    var next := n + if group[0].valid then 1 else 0;
    TurnOfFirst(head, rest, group[0]);
    forall j: nat | 0 < j < |group|
      ensures TurnCame(group, head + rest, j) <==> TurnCame(group[1..], rest, j - 1)
      ensures GetsSlot(service, n, group, j) <==> GetsSlot(service, next, group[1..], j - 1)
    {
      TurnsShift(group, head, rest, j);
      SlotsShift(service, n, group, j);
    }
    if j: nat :| j < |group[1..]| && TurnCame(group[1..], rest, j) && !GetsSlot(service, next, group[1..], j) {
      assert TurnCame(group, head + rest, j + 1) && !GetsSlot(service, n, group, j + 1);
    }
  }

  // Nothing is waited for after a group that stopped at its first event's own call.
  lemma StoppedIsNotCancelled(service: Service, n: nat, group: seq<Candidate>, head: seq<Op>)
    requires group != [] && group[0].valid && n !in service.cancelled && !CalledCleanly(head, group[0])
    ensures !CancelledIn(service, n, group, head)
  {
    hide CalledCleanly;
    assert ValidCount(group[..0]) == 0;
    forall j: nat | j < |group|
      ensures !(TurnCame(group, head, j) && !GetsSlot(service, n, group, j))
    {
      assert j > 0 ==> !Passed(head, group[0]);
    }
  }

  lemma GoesOnReturns(service: Service, n: nat, group: seq<Candidate>, head: seq<Op>, rest: GroupRun)
    requires DistinctGroup(group) && group != [] && OwnTurn(head, group[0]) && Passed(head, group[0]) && GetsSlot(service, n, group, 0)
    requires !AnyKeeps(head) && forall kind :: !AnyFails(head, kind)
    requires FifoReturns(service, n + if group[0].valid then 1 else 0, group[1..], rest)
    ensures FifoReturns(service, n, group, Before(head, rest))
  {
    hide OwnTurn, Passed, CancelledIn, AnyKeeps, AnyFails, GetsSlot;
    AnyConcat(head, rest.trace);
    CancelledShifts(service, n, group, head, rest.trace);
  }

  lemma SingleReturns(service: Service, n: nat, e: Prepared)
    ensures ReturnsAnswers(SingleRun(service, n, e))
    ensures SingleRun(service, n, e).err.None? ==> forall kind :: !AnyFails(SingleRun(service, n, e).trace, kind)
  {
    assert Entries([e]) == [e.entry];
    CallReturns([e], Respond(service, n));
  }

  lemma CancelledReturns(service: Service, n: nat, group: seq<Candidate>)
    requires group != [] && group[0].valid && n in service.cancelled
    ensures FifoReturns(service, n, group, GroupRun([], Some(Leaf(Provider))))
  {
    assert ValidCount(group[..0]) == 0;
    assert TurnCame(group, [], 0) && !GetsSlot(service, n, group, 0);
  }

  /** The error of a FIFO group says exactly what its answers kept back, or that the context
      was done while an event whose turn had come waited for its slot. */
  lemma {:induction false} FifoErrorIsExact(service: Service, n: nat, group: seq<Candidate>)
    requires DistinctGroup(group)
    ensures FifoReturns(service, n, group, FifoGroupRun(service, n, group))
    decreases |group|
  {
    if group != [] {
      hide SingleRun, OwnTurn, CalledCleanly, FifoReturns, AnyKeeps, AnyFails, AnySettles;
      var first := group[0];
      assert ValidCount(group[..0]) == 0;
      if !first.valid {
        InvalidOwn(first);
        FifoErrorIsExact(service, n, group[1..]);
        ReportKeepsNothing(Poison(Some(first.event.id), INVALID));
        GoesOnReturns(service, n, group, [Condemnation(first.event, INVALID)], FifoGroupRun(service, n, group[1..]));
      } else if n in service.cancelled {
        CancelledReturns(service, n, group);
      } else {
        SingleOwn(service, n, first);
        SingleReturns(service, n, first.event);
        var head := SingleRun(service, n, first.event);
        if head.err.Some? || !head.done {
          StoppedIsNotCancelled(service, n, group, head.trace);
          StopReturns(service, n, group, head);
        } else {
          FifoErrorIsExact(service, n + 1, group[1..]);
          GoesOnReturns(service, n, group, head.trace, FifoGroupRun(service, n + 1, group[1..]));
        }
      }
    }
  }

  lemma StopReturns(service: Service, n: nat, group: seq<Candidate>, head: Run)
    requires ReturnsAnswers(head) && !CancelledIn(service, n, group, head.trace)
    ensures FifoReturns(service, n, group, GroupRun(head.trace, head.err))
  {
  }

  lemma ReportKeepsNothing(callback: Callback)
    ensures !AnyKeeps([Report(callback)]) && forall kind :: !AnyFails([Report(callback)], kind)
  {
  }
}

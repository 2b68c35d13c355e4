/** senderCollector: what one provider call reports about its batch, under any
    interleaving of callbacks. The mutex makes every interleaving a sequence of
    callbacks; Collected is the result of such a sequence.
 */
module Collector {
  import opened Errors

  // The key eventIDKey derives from a row id. None is the nil id a sender reports
  // for a response entry it cannot attribute.
  type EventId = nat

  datatype Callback = Confirm(id: Option<EventId>) | Poison(id: Option<EventId>, reason: string)

  datatype PoisonReport = PoisonReport(id: EventId, reason: string)

  datatype SenderOutput = SenderOutput(confirmed: seq<EventId>, poison: seq<PoisonReport>)

  predicate Counts(batch: set<EventId>, seen: set<EventId>, call: Callback) {
    call.id.Some? && call.id.value in batch && call.id.value !in seen
  }

  function Reported(calls: seq<Callback>): set<EventId> {
    set c | c in calls && c.id.Some? :: c.id.value
  }

  function Collected(batch: set<EventId>, calls: seq<Callback>): SenderOutput {
    if calls == [] then SenderOutput([], [])
    else
      var init, last := calls[..|calls| - 1], calls[|calls| - 1];
      var output := Collected(batch, init);
      if !Counts(batch, Reported(init), last) then output
      else if last.Confirm? then output.(confirmed := output.confirmed + [last.id.value])
      else output.(poison := output.poison + [PoisonReport(last.id.value, last.reason)])
  }

  class SenderCollector {
    const eventsById: set<EventId>
    var seen: set<EventId>
    var output: SenderOutput
    ghost var calls: seq<Callback>

    ghost predicate Valid()
      reads this
    {
      && seen == Reported(calls) * eventsById
      && output == Collected(eventsById, calls)
    }

    constructor (batch: set<EventId>)
      ensures Valid() && eventsById == batch && calls == []
    {
      eventsById := batch;
      seen := {};
      output := SenderOutput([], []);
      calls := [];
    }

    method Record(id: Option<EventId>, reason: string, poisoned: bool)
      requires Valid()
      modifies this
      ensures Valid()
      ensures calls == old(calls) + [if poisoned then Poison(id, reason) else Confirm(id)]
    {
      ghost var call := if poisoned then Poison(id, reason) else Confirm(id);
      ReportedAppend(calls, call);
      calls := calls + [call];
      assert calls[..|calls| - 1] == old(calls);
      if id.None? || id.value !in eventsById {
        return;
      }
      if id.value in seen {
        return;
      }
      seen := seen + {id.value};
      if poisoned {
        output := output.(poison := output.poison + [PoisonReport(id.value, reason)]);
      } else {
        output := output.(confirmed := output.confirmed + [id.value]);
      }
    }
  }

  lemma ReportedAppend(calls: seq<Callback>, call: Callback)
    ensures Reported(calls + [call]) == Reported(calls) + if call.id.Some? then {call.id.value} else {}
  {
    assert forall c :: c in calls + [call] <==> c in calls || c == call;
  }

  // collectSenderOutput: one provider call that makes the given callbacks.
  method CollectSenderOutput(batch: set<EventId>, calls: seq<Callback>) returns (output: SenderOutput)
    ensures output == Collected(batch, calls)
  {
    var collector := new SenderCollector(batch);
    for i := 0 to |calls|
      invariant collector.Valid() && collector.eventsById == batch && collector.calls == calls[..i]
      invariant fresh(collector)
    {
      match calls[i]
      case Confirm(id) => collector.Record(id, "", false);
      case Poison(id, reason) => collector.Record(id, reason, true);
    }
    assert calls[..|calls|] == calls;
    output := collector.output;
  }

  // The first callback about an id, which alone decides its outcome.
  function FirstFor(calls: seq<Callback>, id: EventId): Option<Callback> {
    if calls == [] then None
    else if calls[0].id == Some(id) then Some(calls[0])
    else FirstFor(calls[1..], id)
  }

  lemma {:induction false} FirstForAppend(calls: seq<Callback>, call: Callback, id: EventId)
    ensures FirstFor(calls + [call], id)
         == if FirstFor(calls, id).Some? then FirstFor(calls, id) else if call.id == Some(id) then Some(call) else None
    ensures FirstFor(calls, id).Some? <==> id in Reported(calls)
  {
    if calls != [] {
      assert (calls + [call])[1..] == calls[1..] + [call];
      assert calls == [calls[0]] + calls[1..];
      FirstForAppend(calls[1..], call, id);
    } else {
      assert [call][1..] == [];
    }
  }

  /** The collector records, for every id of its batch, exactly the first outcome
      reported for it, and nothing for ids outside the batch. */
  lemma {:induction false} FirstOutcomeWins(batch: set<EventId>, calls: seq<Callback>, id: EventId)
    ensures var output, first := Collected(batch, calls), FirstFor(calls, id);
            && (id in output.confirmed <==> id in batch && first == Some(Confirm(Some(id))))
            && (forall reason :: PoisonReport(id, reason) in output.poison <==> id in batch && first == Some(Poison(Some(id), reason)))
    decreases |calls|
  {
    if calls != [] {
      var init, last := calls[..|calls| - 1], calls[|calls| - 1];
      assert calls == init + [last];
      FirstOutcomeWins(batch, init, id);
      FirstForAppend(init, last, id);
    }
  }

  predicate Distinct(ids: seq<EventId>) {
    forall i, j | 0 <= i < j < |ids| :: ids[i] != ids[j]
  }

  lemma DistinctInsert(a: seq<EventId>, id: EventId, b: seq<EventId>)
    requires Distinct(a + b) && id !in a + b
    ensures Distinct(a + [id] + b)
    ensures forall x :: x in a + [id] + b <==> x in a + b || x == id
  {
    var s := a + [id] + b;
    forall i, j | 0 <= i < j < |s|
      ensures s[i] != s[j]
    {
      var p, q := if i < |a| then i else i - 1, if j < |a| then j else j - 1;
      if i == |a| {
        assert s[j] == (a + b)[q] && (a + b)[q] in a + b;
      } else if j == |a| {
        assert s[i] == (a + b)[p] && (a + b)[p] in a + b;
      } else {
        assert s[i] == (a + b)[p] && s[j] == (a + b)[q];
      }
    }
  }

  function PoisonIds(poison: seq<PoisonReport>): (ids: seq<EventId>)
    ensures |ids| == |poison| && forall i | 0 <= i < |ids| :: ids[i] == poison[i].id
  {
    seq(|poison|, i requires 0 <= i < |poison| => poison[i].id)
  }

  // Everything one provider call finished, in the order deleteIDs receives it.
  function FinishedIds(output: SenderOutput): seq<EventId> {
    output.confirmed + PoisonIds(output.poison)
  }

  /** Confirmed and poison are disjoint, duplicate-free parts of the batch. */
  lemma {:induction false} CollectedIsPartition(batch: set<EventId>, calls: seq<Callback>)
    ensures Distinct(FinishedIds(Collected(batch, calls)))
    ensures forall id :: id in FinishedIds(Collected(batch, calls)) <==> id in batch && id in Reported(calls)
    decreases |calls|
  {
    if calls != [] {
      var init, last := calls[..|calls| - 1], calls[|calls| - 1];
      assert calls == init + [last];
      CollectedIsPartition(batch, init);
      ReportedAppend(init, last);
      var before, after := Collected(batch, init), Collected(batch, calls);
      if Counts(batch, Reported(init), last) {
        var id := last.id.value;
        assert id !in FinishedIds(before);
        if last.Confirm? {
          DistinctInsert(before.confirmed, id, PoisonIds(before.poison));
          assert FinishedIds(after) == before.confirmed + [id] + PoisonIds(before.poison);
        } else {
          assert PoisonIds(after.poison) == PoisonIds(before.poison) + [id];
          assert FinishedIds(before) + [] == FinishedIds(before);
          DistinctInsert(FinishedIds(before), id, []);
          assert FinishedIds(after) == FinishedIds(before) + [id] + [];
        }
      }
    }
  }
}

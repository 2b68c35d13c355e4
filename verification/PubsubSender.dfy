/** The Pub/Sub sender: sequential publishes of an ordering-key group, isolation after a
    permanent error, the unordered path, and how an unknown outcome becomes fatal.

    As for SQS, a session records publishes, ResumePublish calls and outcomes in order,
    against an arbitrary script of publish results. A recorded publish carries the result it
    ends in.
 */
module PubsubSender {
  import opened Errors
  import opened Collector
  import Grouping

  // `permanent` is isPubSubPermanentBackendError.
  datatype Result = Published | Failed(err: Err, permanent: bool)

  datatype Op = Publish(id: EventId, result: Result) | Resume | Report(callback: Callback)

  // `valid` says preparePubsubEvent accepts the event.
  datatype Candidate = Candidate(id: EventId, valid: bool)

  datatype GroupRun = GroupRun(trace: seq<Op>, err: Error)
  datatype IsolatedOutcome = IsolatedOutcome(trace: seq<Op>, done: bool, err: Error)

  const INVALID := "event is invalid for Pub/Sub"
  const PERMANENT := "permanent backend error"

  // The result of publish n.
  function Respond(script: seq<Result>, n: nat): Result {
    if n < |script| then script[n] else Failed(Leaf(Provider), false)
  }

  predicate TimedOut(r: Result) {
    r.Failed? && ErrIs(r.err, DeadlineExceeded)
  }

  // Errors a provider client returns never contain the relay's own sentinel.
  ghost predicate Foreign(script: seq<Result>) {
    forall n :: 0 <= n < |script| && script[n].Failed? ==> !ErrIs(script[n].err, FatalAfterCommit)
  }

  class Session {
    const script: seq<Result>
    var publishes: nat
    var trace: seq<Op>

    constructor (script: seq<Result>)
      ensures this.script == script && publishes == 0 && trace == []
    {
      this.script := script;
      publishes, trace := 0, [];
    }

    // Publish, flush and wait for the result.
    method PublishAndWait(id: EventId) returns (result: Result)
      modifies this
      ensures publishes == old(publishes) + 1 && trace == old(trace) + [Publish(id, result)]
      ensures result == Respond(script, old(publishes))
    {
      result := Respond(script, publishes);
      publishes := publishes + 1;
      trace := trace + [Publish(id, result)];
    }

    // Publish without waiting; the result is that of the returned publish number.
    method PublishAsync(id: EventId) returns (number: nat)
      modifies this
      ensures publishes == old(publishes) + 1 && number == old(publishes)
      ensures trace == old(trace) + [Publish(id, Respond(script, number))]
    {
      number := publishes;
      publishes := publishes + 1;
      trace := trace + [Publish(id, Respond(script, number))];
    }

    method ResumePublish()
      modifies this`trace
      ensures trace == old(trace) + [Resume]
    {
      trace := trace + [Resume];
    }

    method AddConfirmedID(id: EventId)
      modifies this`trace
      ensures trace == old(trace) + [Report(Confirm(Some(id)))]
    {
      trace := trace + [Report(Confirm(Some(id)))];
    }

    method AddPoisonID(id: EventId, reason: string)
      modifies this`trace
      ensures trace == old(trace) + [Report(Poison(Some(id), reason))]
    {
      trace := trace + [Report(Poison(Some(id), reason))];
    }
  }

  // --- sendPubsubIsolated -------------------------------------------------------------

  // A publish that failed; on an ordering key a ResumePublish follows unless it timed out.
  function Tried(id: EventId, r: Result, ordered: bool): seq<Op> {
    if ordered && !TimedOut(r) then [Publish(id, r)] + [Resume] else [Publish(id, r)]
  }

  function IsolatedRun(script: seq<Result>, n: nat, id: EventId, ordered: bool): IsolatedOutcome {
    var r := Respond(script, n);
    if r.Published? then IsolatedOutcome([Publish(id, r)] + [Report(Confirm(Some(id)))], true, None)
    else if TimedOut(r) && ordered then
      IsolatedOutcome(Tried(id, r, ordered), false, Join(Some(Leaf(FatalAfterCommit)), Some(r.err)))
    else if r.permanent then IsolatedOutcome(Tried(id, r, ordered) + [Report(Poison(Some(id), PERMANENT))], true, None)
    else IsolatedOutcome(Tried(id, r, ordered), false, Some(r.err))
  }

  method SendIsolated(s: Session, id: EventId, ordered: bool) returns (done: bool, err: Error)
    modifies s
    ensures s.trace == old(s.trace) + IsolatedRun(s.script, old(s.publishes), id, ordered).trace
    ensures s.publishes == old(s.publishes) + 1
    ensures done == IsolatedRun(s.script, old(s.publishes), id, ordered).done
    ensures err == IsolatedRun(s.script, old(s.publishes), id, ordered).err
  {
    var result := s.PublishAndWait(id);
    if result.Failed? && ordered && !TimedOut(result) {
      s.ResumePublish();
    }
    if result.Published? {
      s.AddConfirmedID(id);
      return true, None;
    }
    if TimedOut(result) && ordered {
      return false, Join(Some(Leaf(FatalAfterCommit)), Some(result.err));
    }
    if result.permanent {
      s.AddPoisonID(id, PERMANENT);
      return true, None;
    }
    return false, Some(result.err);
  }

  // --- sendPubsubOrderedGroup ----------------------------------------------------------

  function Before(trace: seq<Op>, rest: GroupRun): GroupRun {
    GroupRun(trace + rest.trace, rest.err)
  }

  // What handling one event does: the operations, how many publishes they used, and whether
  // the group goes on.
  datatype Turn = Turn(trace: seq<Op>, publishes: nat, goesOn: bool, err: Error)

  function TurnOf(script: seq<Result>, n: nat, c: Candidate): Turn {
    var r := Respond(script, n);
    if !c.valid then Turn([Report(Poison(Some(c.id), INVALID))], 0, true, None)
    else if r.Published? then Turn([Publish(c.id, r)] + [Report(Confirm(Some(c.id)))], 1, true, None)
    else if TimedOut(r) then Turn(Tried(c.id, r, true), 1, false, Join(Some(Leaf(FatalAfterCommit)), Some(r.err)))
    else if r.permanent then
      var isolated := IsolatedRun(script, n + 1, c.id, true);
      Turn(Tried(c.id, r, true) + isolated.trace, 2, isolated.err.None? && isolated.done,
           if isolated.err.Some? then isolated.err else if isolated.done then None else Some(r.err))
    else Turn(Tried(c.id, r, true), 1, false, Some(r.err))
  }

  function OrderedGroupRun(script: seq<Result>, n: nat, group: seq<Candidate>): GroupRun
    decreases |group|
  {
    if group == [] then GroupRun([], None)
    else
      var turn := TurnOf(script, n, group[0]);
      if turn.goesOn then Before(turn.trace, OrderedGroupRun(script, n + turn.publishes, group[1..]))
      else GroupRun(turn.trace, turn.err)
  }

  method SendOrderedGroup(s: Session, group: seq<Candidate>) returns (err: Error)
    modifies s
    ensures s.trace == old(s.trace) + OrderedGroupRun(s.script, old(s.publishes), group).trace
    ensures err == OrderedGroupRun(s.script, old(s.publishes), group).err
  {
    ghost var start, done, run := s.trace, [], OrderedGroupRun(s.script, s.publishes, group);
    for i := 0 to |group|
      invariant s.trace == start + done
      invariant run == Before(done, OrderedGroupRun(s.script, s.publishes, group[i..]))
    {
      ghost var turn := TurnOf(s.script, s.publishes, group[i]);
      assert group[i..][0] == group[i] && group[i..][1..] == group[i + 1..];
      TraceGrows(start, done, turn.trace);
      var goesOn, turnErr := TakeTurn(s, group[i]);
      if !goesOn {
        return turnErr;
      }
      TraceGrows(done, turn.trace, OrderedGroupRun(s.script, s.publishes, group[i + 1..]).trace);
      done := done + turn.trace;
    }
    err := None;
  }

  lemma TraceGrows(start: seq<Op>, run: seq<Op>, more: seq<Op>)
    ensures (start + run) + more == start + (run + more)
  {
  }

  // The body of the ordered loop.
  method TakeTurn(s: Session, c: Candidate) returns (goesOn: bool, err: Error)
    modifies s
    ensures s.trace == old(s.trace) + TurnOf(s.script, old(s.publishes), c).trace
    ensures s.publishes == old(s.publishes) + TurnOf(s.script, old(s.publishes), c).publishes
    ensures goesOn == TurnOf(s.script, old(s.publishes), c).goesOn
    ensures err == TurnOf(s.script, old(s.publishes), c).err
  {
    if !c.valid {
      s.AddPoisonID(c.id, INVALID);
      return true, None;
    }
    var result := s.PublishAndWait(c.id);
    if result.Published? {
      s.AddConfirmedID(c.id);
      return true, None;
    }
    if TimedOut(result) {
      return false, Join(Some(Leaf(FatalAfterCommit)), Some(result.err));
    }
    s.ResumePublish();
    if result.permanent {
      var done, isolateErr := SendIsolated(s, c.id, true);
      if isolateErr.Some? {
        return false, isolateErr;
      }
      if !done {
        return false, Some(result.err);
      }
      return true, None;
    }
    return false, Some(result.err);
  }

  // --- the group is recorded as a prefix -------------------------------------------------

  function Recorded(trace: seq<Op>): set<EventId> {
    set op | op in trace && op.Report? && op.callback.id.Some? :: op.callback.id.value
  }

  lemma RecordedConcat(a: seq<Op>, b: seq<Op>)
    ensures Recorded(a + b) == Recorded(a) + Recorded(b)
  {
    assert forall op :: op in a + b <==> op in a || op in b;
  }

  function Ids(group: seq<Candidate>): set<EventId> {
    set c | c in group :: c.id
  }

  lemma IdsHead(group: seq<Candidate>, m: nat)
    requires m < |group|
    ensures Ids(group[..m + 1]) == {group[0].id} + Ids(group[1..][..m])
  {
    assert group[..m + 1] == [group[0]] + group[1..][..m];
    assert forall c :: c in group[..m + 1] <==> c == group[0] || c in group[1..][..m];
  }

  // Operation q, if a publish, is for a valid event all of whose elders are recorded.
  ghost predicate PublishReady(group: seq<Candidate>, trace: seq<Op>, q: nat)
    requires q < |trace|
  {
    trace[q].Publish? ==>
      exists j :: 0 <= j < |group| && group[j].valid && trace[q].id == group[j].id && Ids(group[..j]) <= Recorded(trace[..q])
  }

  ghost predicate RecordsPrefix(run: GroupRun, group: seq<Candidate>, m: nat) {
    && m <= |group| && Recorded(run.trace) == Ids(group[..m])
    && (forall q: nat :: q < |run.trace| ==> PublishReady(group, run.trace, q))
    && (run.err.None? <==> m == |group|)
  }

  // Every operation but ResumePublish is about this event.
  predicate AboutOne(trace: seq<Op>, id: EventId) {
    forall op | op in trace :: op.Resume? || IsAbout(op, id)
  }

  predicate IsAbout(op: Op, id: EventId) {
    match op
    case Publish(x, _) => x == id
    case Resume => false
    case Report(callback) => callback.id == Some(id)
  }

  // One turn is about its event alone, and records it exactly if the group goes on.
  ghost predicate OwnTurn(turn: Turn, c: Candidate) {
    && Recorded(turn.trace) == (if turn.goesOn then {c.id} else {})
    && (turn.goesOn <==> turn.err.None?)
    && AboutOne(turn.trace, c.id)
    && forall op :: op in turn.trace && op.Publish? ==> c.valid
  }

  lemma TurnRecords(script: seq<Result>, n: nat, c: Candidate)
    ensures OwnTurn(TurnOf(script, n, c), c)
  {
    var r := Respond(script, n);
    var p := Publish(c.id, r);
    assert Recorded([p] + [Report(Confirm(Some(c.id)))]) == {c.id};
    assert Recorded([Report(Poison(Some(c.id), INVALID))]) == {c.id};
    assert Recorded(Tried(c.id, r, true)) == {};
    if Rejected(r) {
      IsolatedRecords(script, n + 1, c.id);
      RecordedConcat(Tried(c.id, r, true), IsolatedRun(script, n + 1, c.id, true).trace);
    }
  }

  // The provider rejects the content of this event, as far as one answer can tell.
  predicate Rejected(r: Result) {
    r.Failed? && r.permanent && !TimedOut(r)
  }

  lemma IsolatedRecords(script: seq<Result>, n: nat, id: EventId)
    ensures var isolated := IsolatedRun(script, n, id, true);
            && Recorded(isolated.trace) == (if isolated.done then {id} else {})
            && (isolated.done <==> isolated.err.None?)
            && AboutOne(isolated.trace, id)
  {
    var r := Respond(script, n);
    var p := Publish(id, r);
    assert Recorded([p] + [Report(Confirm(Some(id)))]) == {id};
    assert Recorded(Tried(id, r, true)) == {};
    RecordedConcat(Tried(id, r, true), [Report(Poison(Some(id), PERMANENT))]);
    assert Recorded([Report(Poison(Some(id), PERMANENT))]) == {id};
  }

  /** For every sequence of publish results, one send of an ordering-key group records
      exactly a prefix of the group, all of it if and only if no error is returned, and no
      event is published before every earlier event of its group has been recorded. */
  lemma {:induction false} OrderedGroupPrefix(script: seq<Result>, n: nat, group: seq<Candidate>) returns (m: nat)
    ensures RecordsPrefix(OrderedGroupRun(script, n, group), group, m)
    decreases |group|
  {
    m := 0;
    if group == [] {
      assert Recorded([]) == Ids(group[..0]) == {};
    } else {
      var turn := TurnOf(script, n, group[0]);
      TurnRecords(script, n, group[0]);
      if turn.goesOn {
        m := OrderedGroupPrefix(script, n + turn.publishes, group[1..]);
        PrefixExtends(group, turn, OrderedGroupRun(script, n + turn.publishes, group[1..]), m);
        m := m + 1;
      } else {
        StoppedFirst(group, turn);
      }
    }
  }

  lemma StoppedFirst(group: seq<Candidate>, turn: Turn)
    requires group != [] && OwnTurn(turn, group[0]) && !turn.goesOn
    ensures RecordsPrefix(GroupRun(turn.trace, turn.err), group, 0)
  {
    HeadReady(group, turn);
    assert Ids(group[..0]) == {};
  }

  lemma HeadReady(group: seq<Candidate>, turn: Turn)
    requires group != [] && OwnTurn(turn, group[0])
    ensures forall q: nat :: q < |turn.trace| ==> PublishReady(group, turn.trace, q)
  {
    assert Ids(group[..0]) == {};
    forall q: nat | q < |turn.trace| && turn.trace[q].Publish?
      ensures turn.trace[q].id == group[0].id && group[0].valid
    {
      assert turn.trace[q] in turn.trace;
    }
  }

  lemma PrefixExtends(group: seq<Candidate>, turn: Turn, rest: GroupRun, m: nat)
    requires group != [] && OwnTurn(turn, group[0]) && turn.goesOn && RecordsPrefix(rest, group[1..], m)
    ensures RecordsPrefix(Before(turn.trace, rest), group, m + 1)
  {
    var head, trace := turn.trace, turn.trace + rest.trace;
    RecordedConcat(head, rest.trace);
    IdsHead(group, m);
    HeadReady(group, turn);
    forall q: nat | q < |trace|
      ensures PublishReady(group, trace, q)
    {
      if q < |head| {
        assert PublishReady(group, head, q);
        assert trace[..q] == head[..q];
      } else {
        ReadyShift(group, head, rest.trace, q - |head|);
      }
    }
  }

  lemma ReadyShift(group: seq<Candidate>, head: seq<Op>, rest: seq<Op>, q: nat)
    requires group != [] && q < |rest| && PublishReady(group[1..], rest, q) && group[0].id in Recorded(head)
    ensures PublishReady(group, head + rest, |head| + q)
  {
    if rest[q].Publish? {
      var j :| 0 <= j < |group[1..]| && group[1..][j].valid && rest[q].id == group[1..][j].id
            && Ids(group[1..][..j]) <= Recorded(rest[..q]);
      assert (head + rest)[..|head| + q] == head + rest[..q];
      RecordedConcat(head, rest[..q]);
      IdsHead(group, j);
      assert group[j + 1] == group[1..][j];
    }
  }

  // --- unknown outcomes are fatal, and only they --------------------------------------------

  // Some publish of the trace ended in DeadlineExceeded.
  predicate AnyTimedOut(trace: seq<Op>) {
    exists op | op in trace :: op.Publish? && TimedOut(op.result)
  }

  lemma AnyTimedOutConcat(a: seq<Op>, b: seq<Op>)
    ensures AnyTimedOut(a + b) <==> AnyTimedOut(a) || AnyTimedOut(b)
  {
    assert forall op :: op in a + b <==> op in a || op in b;
  }

  predicate FatalFits(run: GroupRun) {
    Is(run.err, FatalAfterCommit) <==> AnyTimedOut(run.trace)
  }

  lemma TurnFatal(script: seq<Result>, n: nat, c: Candidate)
    requires Foreign(script)
    ensures var turn := TurnOf(script, n, c); FatalFits(GroupRun(turn.trace, turn.err))
  {
    var r := Respond(script, n);
    var p := Publish(c.id, r);
    assert AnyTimedOut([p]) <==> TimedOut(r) by {
      assert p in [p];
    }
    AnyTimedOutConcat([p], [Resume]);
    AnyTimedOutConcat([p], [Report(Confirm(Some(c.id)))]);
    if Rejected(r) {
      IsolatedFatal(script, n + 1, c.id, true);
      IsolatedRecords(script, n + 1, c.id);
      AnyTimedOutConcat(Tried(c.id, r, true), IsolatedRun(script, n + 1, c.id, true).trace);
    } else if r.Failed? {
      JoinIs(Some(Leaf(FatalAfterCommit)), Some(r.err), FatalAfterCommit);
    }
  }

  lemma IsolatedFatal(script: seq<Result>, n: nat, id: EventId, ordered: bool)
    requires Foreign(script)
    ensures var isolated := IsolatedRun(script, n, id, ordered);
            && (Is(isolated.err, FatalAfterCommit) <==> ordered && TimedOut(Respond(script, n)))
            && (AnyTimedOut(isolated.trace) <==> TimedOut(Respond(script, n)))
            && (isolated.done <==> isolated.err.None?)
  {
    var r := Respond(script, n);
    var p := Publish(id, r);
    assert p in IsolatedRun(script, n, id, ordered).trace;
    if r.Failed? {
      JoinIs(Some(Leaf(FatalAfterCommit)), Some(r.err), FatalAfterCommit);
    }
  }

  /** A group returns the fatal sentinel exactly when one of its publishes, the isolated
      ones included, ended in DeadlineExceeded. */
  lemma {:induction false} OrderedGroupFatalIff(script: seq<Result>, n: nat, group: seq<Candidate>)
    requires Foreign(script)
    ensures FatalFits(OrderedGroupRun(script, n, group))
    decreases |group|
  {
    if group != [] {
      var turn := TurnOf(script, n, group[0]);
      TurnFatal(script, n, group[0]);
      TurnRecords(script, n, group[0]);
      if turn.goesOn {
        OrderedGroupFatalIff(script, n + turn.publishes, group[1..]);
        AnyTimedOutConcat(turn.trace, OrderedGroupRun(script, n + turn.publishes, group[1..]).trace);
      }
    }
  }

  // What the sender returns for a publish that failed.
  function ErrorFor(r: Result): Error
    requires r.Failed?
  {
    if TimedOut(r) then Join(Some(Leaf(FatalAfterCommit)), Some(r.err)) else Some(r.err)
  }

  // The error is that of a failed publish of the trace.
  ghost predicate ErrorStems(run: GroupRun) {
    run.err.Some? ==> exists op :: op in run.trace && op.Publish? && op.result.Failed? && run.err == ErrorFor(op.result)
  }

  lemma TurnErrorStems(script: seq<Result>, n: nat, c: Candidate)
    ensures var turn := TurnOf(script, n, c); ErrorStems(GroupRun(turn.trace, turn.err))
  {
    var turn, r := TurnOf(script, n, c), Respond(script, n);
    if turn.err.Some? {
      assert Publish(c.id, r) in turn.trace;
      if Rejected(r) {
        assert Publish(c.id, Respond(script, n + 1)) in turn.trace;
      }
    }
  }

  /** The error a group returns is that of one of its failed publishes, joined with the fatal
      sentinel if that one timed out. */
  lemma {:induction false} OrderedErrorStems(script: seq<Result>, n: nat, group: seq<Candidate>)
    ensures ErrorStems(OrderedGroupRun(script, n, group))
    decreases |group|
  {
    if group != [] {
      var turn := TurnOf(script, n, group[0]);
      TurnErrorStems(script, n, group[0]);
      if turn.goesOn {
        OrderedErrorStems(script, n + turn.publishes, group[1..]);
        StemsInRest(turn.trace, OrderedGroupRun(script, n + turn.publishes, group[1..]));
      }
    }
  }

  lemma StemsInRest(head: seq<Op>, rest: GroupRun)
    requires ErrorStems(rest)
    ensures ErrorStems(Before(head, rest))
  {
    assert forall op :: op in rest.trace ==> op in head + rest.trace;
  }

  // --- the publisher's ordering key is never used unless it is open -------------------------------

  // The ordering key in the client library: a failed publish pauses it and ResumePublish
  // opens it again. After a wait that ran out the publish is still in flight and the key
  // may be paused at any moment.
  datatype Key = Open | Paused | InDoubt

  function AfterPublish(r: Result): Key {
    if r.Published? then Open else if TimedOut(r) then InDoubt else Paused
  }

  // The key after a trace; None records a publish on a key that was not open.
  function KeyState(trace: seq<Op>): Option<Key> {
    if trace == [] then Some(Open) else KeyStep(KeyState(trace[..|trace| - 1]), trace[|trace| - 1])
  }

  function KeyStep(before: Option<Key>, op: Op): Option<Key> {
    if before.None? then None
    else
      match op
      case Publish(_, result) => if before.value.Open? then Some(AfterPublish(result)) else None
      case Resume => if before.value.InDoubt? then before else Some(Open)
      case Report(_) => before
  }

  lemma {:induction false} KeyStateConcat(a: seq<Op>, b: seq<Op>)
    requires KeyState(a) == Some(Open)
    ensures KeyState(a + b) == KeyState(b)
    decreases |b|
  {
    if b == [] {
      assert a + b == a;
    } else {
      assert (a + b)[..|a + b| - 1] == a + b[..|b| - 1];
      KeyStateConcat(a, b[..|b| - 1]);
    }
  }

  lemma KeyStateStep(trace: seq<Op>, op: Op)
    ensures KeyState(trace + [op]) == KeyStep(KeyState(trace), op)
  {
    assert (trace + [op])[..|trace|] == trace;
  }

  // In doubt when the fatal sentinel is returned, open otherwise.
  function KeyFor(err: Error): Key {
    if Is(err, FatalAfterCommit) then InDoubt else Open
  }

  predicate KeyFits(run: GroupRun) {
    KeyState(run.trace) == Some(KeyFor(run.err))
  }

  // The key after one publish, and after the operation that may follow it.
  lemma PublishKeyState(id: EventId, r: Result, op: Op)
    ensures KeyState([Publish(id, r)]) == Some(AfterPublish(r))
    ensures KeyState([Publish(id, r)] + [op]) == KeyStep(Some(AfterPublish(r)), op)
  {
    KeyStateStep([], Publish(id, r));
    assert [] + [Publish(id, r)] == [Publish(id, r)];
    KeyStateStep([Publish(id, r)], op);
  }

  lemma TurnKeyState(script: seq<Result>, n: nat, c: Candidate)
    requires Foreign(script)
    ensures var turn := TurnOf(script, n, c); KeyFits(GroupRun(turn.trace, turn.err))
  {
    var r := Respond(script, n);
    ReportKeyState(Poison(Some(c.id), INVALID));
    PublishKeyState(c.id, r, Report(Confirm(Some(c.id))));
    PublishKeyState(c.id, r, Resume);
    if Rejected(r) {
      IsolatedKeyState(script, n + 1, c.id);
      IsolatedRecords(script, n + 1, c.id);
      KeyStateConcat(Tried(c.id, r, true), IsolatedRun(script, n + 1, c.id, true).trace);
    } else if r.Failed? {
      JoinIs(Some(Leaf(FatalAfterCommit)), Some(r.err), FatalAfterCommit);
    }
  }

  lemma IsolatedKeyState(script: seq<Result>, n: nat, id: EventId)
    requires Foreign(script)
    ensures KeyState(IsolatedRun(script, n, id, true).trace) == Some(KeyFor(IsolatedRun(script, n, id, true).err))
  {
    var r := Respond(script, n);
    IsolatedFatal(script, n, id, true);
    PublishKeyState(id, r, Report(Confirm(Some(id))));
    PublishKeyState(id, r, Resume);
    KeyStateStep(Tried(id, r, true), Report(Poison(Some(id), PERMANENT)));
  }

  /** A group never publishes on a paused key or behind a publish still in flight. It leaves
      its key in doubt exactly when it returns the fatal sentinel, and open otherwise. */
  lemma {:induction false} KeyInDoubtIffFatal(script: seq<Result>, n: nat, group: seq<Candidate>)
    requires Foreign(script)
    ensures KeyFits(OrderedGroupRun(script, n, group))
    decreases |group|
  {
    if group != [] {
      var turn := TurnOf(script, n, group[0]);
      TurnKeyState(script, n, group[0]);
      TurnRecords(script, n, group[0]);
      if turn.goesOn {
        KeyInDoubtIffFatal(script, n + turn.publishes, group[1..]);
        KeyGoesOn(turn.trace, OrderedGroupRun(script, n + turn.publishes, group[1..]));
      }
    }
  }

  lemma ReportKeyState(callback: Callback)
    ensures KeyState([Report(callback)]) == Some(Open)
  {
    KeyStateStep([], Report(callback));
    assert [] + [Report(callback)] == [Report(callback)];
  }

  lemma KeyGoesOn(head: seq<Op>, rest: GroupRun)
    requires KeyState(head) == Some(Open) && KeyFits(rest)
    ensures KeyFits(Before(head, rest))
  {
    KeyStateConcat(head, rest.trace);
  }

  // --- each event's story follows from its own publish results -------------------------------------

  // What a trace says about one event: the result of its first publish and of a second one,
  // what was reported about it, and whether nothing else happened to it and in that order.
  datatype Story = Story(first: Option<Result>, alone: Option<Result>, report: Option<Callback>, orderly: bool)

  const UNTOUCHED := Story(None, None, None, true)

  function StoryOf(trace: seq<Op>, id: EventId): Story {
    if trace == [] then UNTOUCHED else StoryStep(StoryOf(trace[..|trace| - 1], id), trace[|trace| - 1], id)
  }

  function StoryStep(story: Story, op: Op, id: EventId): Story {
    match op
    case Resume => story
    case Publish(x, result) =>
      if x != id then story
      else if story.report.Some? || story.alone.Some? then story.(orderly := false)
      else if story.first.Some? then story.(alone := Some(result))
      else story.(first := Some(result))
    case Report(callback) =>
      if callback.id != Some(id) then story
      else if story.report.Some? then story.(orderly := false)
      else story.(report := Some(callback))
  }

  lemma StoryPush(trace: seq<Op>, op: Op, id: EventId)
    ensures StoryOf(trace + [op], id) == StoryStep(StoryOf(trace, id), op, id)
  {
    assert (trace + [op])[..|trace|] == trace;
  }

  lemma StoryOfOne(op: Op, id: EventId)
    ensures StoryOf([op], id) == StoryStep(UNTOUCHED, op, id)
  {
    StoryPush([], op, id);
    assert [] + [op] == [op];
  }

  predicate NotAbout(trace: seq<Op>, id: EventId) {
    forall op | op in trace :: !IsAbout(op, id)
  }

  lemma NotAboutConcat(a: seq<Op>, b: seq<Op>, id: EventId)
    requires NotAbout(a, id) && NotAbout(b, id)
    ensures NotAbout(a + b, id)
  {
  }

  // What is about one event is not about another.
  lemma AboutAnother(trace: seq<Op>, id: EventId, other: EventId)
    requires AboutOne(trace, id) && id != other
    ensures NotAbout(trace, other)
  {
  }

  // What is not about an event leaves its story as it was.
  lemma {:induction false} StoryEnds(a: seq<Op>, b: seq<Op>, id: EventId)
    requires NotAbout(b, id)
    ensures StoryOf(a + b, id) == StoryOf(a, id)
    decreases |b|
  {
    if b == [] {
      assert a + b == a;
    } else {
      var init, last := b[..|b| - 1], b[|b| - 1];
      assert (a + b)[..|a + b| - 1] == a + init && last in b;
      assert forall op :: op in init ==> op in b;
      StoryEnds(a, init, id);
    }
  }

  lemma {:induction false} StoryBegins(a: seq<Op>, b: seq<Op>, id: EventId)
    requires NotAbout(a, id)
    ensures StoryOf(a + b, id) == StoryOf(b, id)
    decreases |b|
  {
    if b == [] {
      StoryEnds([], a, id);
      assert [] + a == a + b == a;
    } else {
      assert (a + b)[..|a + b| - 1] == a + b[..|b| - 1];
      StoryBegins(a, b[..|b| - 1], id);
    }
  }

  // Going on from a story in which nothing was reported and at most one publish tried.
  lemma {:induction false} StoryGoesOn(a: seq<Op>, b: seq<Op>, id: EventId)
    requires StoryOf(a, id).orderly && StoryOf(a, id).alone.None? && StoryOf(a, id).report.None? && StoryOf(a, id).first.Some?
    requires StoryOf(b, id).orderly && StoryOf(b, id).alone.None?
    ensures StoryOf(a + b, id) == Story(StoryOf(a, id).first, StoryOf(b, id).first, StoryOf(b, id).report, true)
    decreases |b|
  {
    if b == [] {
      assert a + b == a;
    } else {
      assert (a + b)[..|a + b| - 1] == a + b[..|b| - 1];
      StoryGoesOn(a, b[..|b| - 1], id);
    }
  }

  // What is reported about an event whose last publish ended so; `alone` when that was its
  // isolated one.
  function Verdict(id: EventId, ordered: bool, alone: bool, last: Result): Option<Callback> {
    if last.Published? then Some(Confirm(Some(id)))
    else if alone && last.permanent && !(ordered && TimedOut(last)) then Some(Poison(Some(id), PERMANENT))
    else None
  }

  /** What happens to an event. One that is not reached has no story, an invalid one is
      poisoned unpublished. Any other is published once, and once more, alone, exactly if the
      first answer rejects it; then it is confirmed exactly if the last answer was Published,
      and poisoned exactly if its isolated publish ended in a permanent error. */
  predicate Lawful(c: Candidate, ordered: bool, reached: bool, story: Story) {
    && story.orderly
    && (story.first.Some? <==> reached && c.valid)
    && (story.alone.Some? <==> reached && c.valid && Rejected(story.first.value))
    && story.report ==
       if !reached then None
       else if !c.valid then Some(Poison(Some(c.id), INVALID))
       else Verdict(c.id, ordered, story.alone.Some?, if story.alone.Some? then story.alone.value else story.first.value)
  }

  lemma PublishStory(id: EventId, r: Result, callback: Callback)
    requires callback.id == Some(id)
    ensures StoryOf([Publish(id, r)], id) == Story(Some(r), None, None, true)
    ensures StoryOf([Publish(id, r)] + [Report(callback)], id) == Story(Some(r), None, Some(callback), true)
    ensures StoryOf([Publish(id, r)] + [Resume], id) == Story(Some(r), None, None, true)
  {
    StoryOfOne(Publish(id, r), id);
    StoryPush([Publish(id, r)], Report(callback), id);
    StoryPush([Publish(id, r)], Resume, id);
  }

  lemma IsolatedStory(script: seq<Result>, n: nat, id: EventId, ordered: bool)
    ensures var r := Respond(script, n);
            StoryOf(IsolatedRun(script, n, id, ordered).trace, id) == Story(Some(r), None, Verdict(id, ordered, true, r), true)
  {
    var r := Respond(script, n);
    PublishStory(id, r, Confirm(Some(id)));
    StoryPush(Tried(id, r, ordered), Report(Poison(Some(id), PERMANENT)), id);
  }

  // A first publish that was rejected, and an isolated one.
  lemma RejectedStory(c: Candidate, ordered: bool, a: seq<Op>, b: seq<Op>, first: Result, alone: Result)
    requires c.valid && Rejected(first) && StoryOf(a, c.id) == Story(Some(first), None, None, true)
    requires StoryOf(b, c.id) == Story(Some(alone), None, Verdict(c.id, ordered, true, alone), true)
    ensures Lawful(c, ordered, true, StoryOf(a + b, c.id))
  {
    StoryGoesOn(a, b, c.id);
  }

  lemma TurnStory(script: seq<Result>, n: nat, c: Candidate)
    ensures Lawful(c, true, true, StoryOf(TurnOf(script, n, c).trace, c.id))
  {
    var r := Respond(script, n);
    if !c.valid {
      StoryOfOne(Report(Poison(Some(c.id), INVALID)), c.id);
    } else if Rejected(r) {
      RejectedTurnStory(script, n, c);
    } else {
      PublishStory(c.id, r, Confirm(Some(c.id)));
    }
  }

  lemma RejectedTurnStory(script: seq<Result>, n: nat, c: Candidate)
    requires c.valid && Rejected(Respond(script, n))
    ensures Lawful(c, true, true, StoryOf(TurnOf(script, n, c).trace, c.id))
  {
    var r := Respond(script, n);
    PublishStory(c.id, r, Confirm(Some(c.id)));
    IsolatedStory(script, n + 1, c.id, true);
    RejectedStory(c, true, Tried(c.id, r, true), IsolatedRun(script, n + 1, c.id, true).trace, r, Respond(script, n + 1));
  }

  predicate DistinctCandidates(group: seq<Candidate>) {
    forall i, j | 0 <= i < j < |group| :: group[i].id != group[j].id
  }

  lemma {:induction false} GroupNotAbout(script: seq<Result>, n: nat, group: seq<Candidate>, id: EventId)
    requires forall k :: 0 <= k < |group| ==> group[k].id != id
    ensures NotAbout(OrderedGroupRun(script, n, group).trace, id)
    decreases |group|
  {
    if group != [] {
      var turn := TurnOf(script, n, group[0]);
      TurnRecords(script, n, group[0]);
      AboutAnother(turn.trace, group[0].id, id);
      if turn.goesOn {
        GroupNotAbout(script, n + turn.publishes, group[1..], id);
        NotAboutConcat(turn.trace, OrderedGroupRun(script, n + turn.publishes, group[1..]).trace, id);
      }
    }
  }

  // Every elder of event j of the group has been recorded.
  predicate Reached(group: seq<Candidate>, trace: seq<Op>, j: nat)
    requires j < |group|
  {
    Ids(group[..j]) <= Recorded(trace)
  }

  // The story of event j of the group is lawful.
  predicate LawfulAt(group: seq<Candidate>, trace: seq<Op>, j: nat)
    requires j < |group|
  {
    Lawful(group[j], true, Reached(group, trace, j), StoryOf(trace, group[j].id))
  }

  /** For every sequence of publish results, the story of each event of an ordering-key group
      is the lawful one: it is handled exactly if all its elders were recorded, confirmed
      exactly if a publish of it was answered, and poisoned exactly if it is invalid or its
      isolated publish ended in a permanent error. */
  lemma {:induction false} OrderedStories(script: seq<Result>, n: nat, group: seq<Candidate>, j: nat)
    requires DistinctCandidates(group) && j < |group|
    ensures LawfulAt(group, OrderedGroupRun(script, n, group).trace, j)
    decreases |group|
  {
    hide StoryOf, TurnOf, LawfulAt, OwnTurn;
    if j == 0 {
      FirstOfGroup(script, n, group);
    } else {
      var turn := TurnOf(script, n, group[0]);
      TurnIsOwn(script, n, group[0], group[j].id);
      if turn.goesOn {
        OrderedStories(script, n + turn.publishes, group[1..], j - 1);
        LaterStory(group, turn.trace, OrderedGroupRun(script, n + turn.publishes, group[1..]).trace, j);
      } else {
        NotReached(group, turn.trace, j);
      }
    }
  }

  lemma TurnIsOwn(script: seq<Result>, n: nat, c: Candidate, other: EventId)
    requires other != c.id
    ensures var turn := TurnOf(script, n, c);
            NotAbout(turn.trace, other) && Recorded(turn.trace) == if turn.goesOn then {c.id} else {}
  {
    TurnRecords(script, n, c);
    AboutAnother(TurnOf(script, n, c).trace, c.id, other);
  }

  lemma FirstOfGroup(script: seq<Result>, n: nat, group: seq<Candidate>)
    requires DistinctCandidates(group) && group != []
    ensures LawfulAt(group, OrderedGroupRun(script, n, group).trace, 0)
  {
    hide StoryOf, TurnOf, Lawful;
    var turn := TurnOf(script, n, group[0]);
    TurnStory(script, n, group[0]);
    if turn.goesOn {
      GroupNotAbout(script, n + turn.publishes, group[1..], group[0].id);
      FirstStory(group, turn.trace, OrderedGroupRun(script, n + turn.publishes, group[1..]).trace);
    } else {
      assert turn.trace + [] == turn.trace;
      FirstStory(group, turn.trace, []);
    }
  }

  // What the rest of the group does is not about its first event.
  lemma FirstStory(group: seq<Candidate>, head: seq<Op>, rest: seq<Op>)
    requires group != [] && NotAbout(rest, group[0].id) && Lawful(group[0], true, true, StoryOf(head, group[0].id))
    ensures LawfulAt(group, head + rest, 0)
  {
    StoryEnds(head, rest, group[0].id);
    assert Ids(group[..0]) == {};
  }

  // A group that stops at its first event reaches no other.
  lemma NotReached(group: seq<Candidate>, trace: seq<Op>, j: nat)
    requires DistinctCandidates(group) && 0 < j < |group| && NotAbout(trace, group[j].id) && Recorded(trace) == {}
    ensures LawfulAt(group, trace, j)
  {
    StoryEnds([], trace, group[j].id);
    assert [] + trace == trace;
    assert group[0] in group[..j] && group[0].id in Ids(group[..j]);
  }

  // What the first event's turn does is not about a later event.
  lemma LaterStory(group: seq<Candidate>, head: seq<Op>, rest: seq<Op>, j: nat)
    requires DistinctCandidates(group) && 0 < j < |group|
    requires NotAbout(head, group[j].id) && Recorded(head) == {group[0].id}
    requires LawfulAt(group[1..], rest, j - 1)
    ensures LawfulAt(group, head + rest, j)
  {
    StoryBegins(head, rest, group[j].id);
    ReachedShift(group, head, rest, j);
  }

  lemma ReachedShift(group: seq<Candidate>, head: seq<Op>, rest: seq<Op>, j: nat)
    requires DistinctCandidates(group) && 0 < j < |group| && Recorded(head) == {group[0].id}
    ensures Reached(group, head + rest, j) <==> Reached(group[1..], rest, j - 1)
  {
    RecordedConcat(head, rest);
    IdsHead(group, j - 1);
    assert group[0].id !in Ids(group[1..][..j - 1]);
  }

  // The operations an orderly story tells of.
  predicate Tells(story: Story, id: EventId, op: Op) {
    match op
    case Resume => false
    case Publish(_, result) => story.first == Some(result) || story.alone == Some(result)
    case Report(callback) => story.report == Some(callback)
  }

  lemma {:induction false} StoryTellsAll(trace: seq<Op>, id: EventId, op: Op)
    requires StoryOf(trace, id).orderly && IsAbout(op, id)
    ensures op in trace <==> Tells(StoryOf(trace, id), id, op)
  {
    if trace != [] {
      var init, last := trace[..|trace| - 1], trace[|trace| - 1];
      StoryTellsAll(init, id, op);
      assert op in trace <==> op in init || op == last;
    }
  }

  // The first publish was rejected and the second, alone, ended in a permanent error.
  predicate RejectedAlone(story: Story, ordered: bool) {
    && story.first.Some? && Rejected(story.first.value)
    && story.alone.Some? && story.alone.value.Failed? && story.alone.value.permanent && !(ordered && TimedOut(story.alone.value))
  }

  /** What a lawful story means for the trace: the event is confirmed exactly if a publish of
      it was answered Published, and poisoned exactly if it was handled and is invalid, or was
      rejected and its isolated publish ended in a permanent error. */
  lemma ConfirmedIffPublished(trace: seq<Op>, c: Candidate, ordered: bool, reached: bool)
    requires Lawful(c, ordered, reached, StoryOf(trace, c.id))
    ensures Report(Confirm(Some(c.id))) in trace <==> Publish(c.id, Published) in trace
    ensures forall reason :: Report(Poison(Some(c.id), reason)) in trace
                        <==> reached && if c.valid then reason == PERMANENT && RejectedAlone(StoryOf(trace, c.id), ordered) else reason == INVALID
  {
    StoryTellsAll(trace, c.id, Report(Confirm(Some(c.id))));
    StoryTellsAll(trace, c.id, Publish(c.id, Published));
    forall reason {
      StoryTellsAll(trace, c.id, Report(Poison(Some(c.id), reason)));
    }
  }

  // --- sendPubsubUnorderedEvents -----------------------------------------------------------------

  datatype Pending = Pending(id: EventId, number: nat)

  datatype Launch = Launch(trace: seq<Op>, pending: seq<Pending>)

  // The first loop: every valid event is published without waiting.
  function LaunchRun(script: seq<Result>, n: nat, events: seq<Candidate>): Launch {
    if events == [] then Launch([], [])
    else
      LaunchNext(script, n, LaunchRun(script, n, events[..|events| - 1]), events[|events| - 1])
  }

  // Launching one more event.
  function LaunchNext(script: seq<Result>, n: nat, before: Launch, last: Candidate): Launch {
    var number := n + |before.pending|;
    Launch(before.trace + [LaunchOp(script, number, last)], before.pending + if last.valid then [Pending(last.id, number)] else [])
  }

  function LaunchOp(script: seq<Result>, number: nat, c: Candidate): Op {
    if c.valid then Publish(c.id, Respond(script, number)) else Report(Poison(Some(c.id), INVALID))
  }

  datatype Await = Await(trace: seq<Op>, publishes: nat, err: Error)

  // What waiting for one pending publish adds to the errors joined so far, isolation
  // included; n publishes precede it.
  function AwaitOne(script: seq<Result>, n: nat, p: Pending, sofar: Error): Await {
    var r := Respond(script, p.number);
    if r.Published? then Await([Report(Confirm(Some(p.id)))], 0, sofar)
    else if TimedOut(r) || !r.permanent then Await([], 0, Join(sofar, Some(r.err)))
    else
      var isolated := IsolatedRun(script, n, p.id, false);
      Await(isolated.trace, 1, Join(if isolated.done then sofar else Join(sofar, Some(r.err)), isolated.err))
  }

  // The second loop, over the pending publishes.
  function AwaitRun(script: seq<Result>, n: nat, pending: seq<Pending>): Await {
    if pending == [] then Await([], 0, None)
    else
      AwaitNext(script, n, AwaitRun(script, n, pending[..|pending| - 1]), pending[|pending| - 1])
  }

  function AwaitNext(script: seq<Result>, n: nat, before: Await, p: Pending): Await {
    var one := AwaitOne(script, n + before.publishes, p, before.err);
    Await(before.trace + one.trace, before.publishes + one.publishes, one.err)
  }

  function UnorderedTrace(script: seq<Result>, n: nat, events: seq<Candidate>): seq<Op> {
    var launch := LaunchRun(script, n, events);
    launch.trace + AwaitRun(script, n + |launch.pending|, launch.pending).trace
  }

  // The error of the unordered path whose publishes start at number n.
  function UnorderedError(script: seq<Result>, n: nat, events: seq<Candidate>): Error {
    var pending := LaunchRun(script, n, events).pending;
    AwaitRun(script, n + |pending|, pending).err
  }

  method SendUnordered(s: Session, events: seq<Candidate>) returns (joined: Error)
    modifies s
    ensures s.trace == old(s.trace) + UnorderedTrace(s.script, old(s.publishes), events)
    ensures joined == UnorderedError(s.script, old(s.publishes), events)
  {
    ghost var launch := LaunchRun(s.script, s.publishes, events);
    ghost var start, number := s.trace, s.publishes + |launch.pending|;
    var pending := LaunchAll(s, events);
    joined := AwaitAll(s, pending);
    TraceGrows(start, launch.trace, AwaitRun(s.script, number, launch.pending).trace);
  }

  method LaunchAll(s: Session, events: seq<Candidate>) returns (pending: seq<Pending>)
    modifies s
    ensures s.trace == old(s.trace) + LaunchRun(s.script, old(s.publishes), events).trace
    ensures pending == LaunchRun(s.script, old(s.publishes), events).pending && s.publishes == old(s.publishes) + |pending|
  {
    pending := [];
    for i := 0 to |events|
      invariant s.trace == old(s.trace) + LaunchRun(s.script, old(s.publishes), events[..i]).trace
      invariant pending == LaunchRun(s.script, old(s.publishes), events[..i]).pending && s.publishes == old(s.publishes) + |pending|
    {
      assert events[..i + 1][..i] == events[..i];
      if events[i].valid {
        var number := s.PublishAsync(events[i].id);
        pending := pending + [Pending(events[i].id, number)];
      } else {
        s.AddPoisonID(events[i].id, INVALID);
      }
    }
    assert events[..|events|] == events;
  }

  method AwaitAll(s: Session, pending: seq<Pending>) returns (joined: Error)
    modifies s
    ensures s.trace == old(s.trace) + AwaitRun(s.script, old(s.publishes), pending).trace
    ensures s.publishes == old(s.publishes) + AwaitRun(s.script, old(s.publishes), pending).publishes
    ensures joined == AwaitRun(s.script, old(s.publishes), pending).err
  {
    joined := None;
    ghost var start, number, run := s.trace, s.publishes, Await([], 0, None);
    for i := 0 to |pending|
      invariant run == AwaitRun(s.script, number, pending[..i])
      invariant s.trace == start + run.trace && s.publishes == number + run.publishes && joined == run.err
    {
      assert pending[..i + 1][..i] == pending[..i];
      ghost var one := AwaitOne(s.script, s.publishes, pending[i], joined);
      TraceGrows(start, run.trace, one.trace);
      run := Await(run.trace + one.trace, run.publishes + one.publishes, one.err);
      joined := AwaitPending(s, pending[i], joined);
    }
    assert pending[..|pending|] == pending;
  }

  // The body of the second loop.
  method AwaitPending(s: Session, p: Pending, sofar: Error) returns (joined: Error)
    modifies s
    ensures s.trace == old(s.trace) + AwaitOne(s.script, old(s.publishes), p, sofar).trace
    ensures s.publishes == old(s.publishes) + AwaitOne(s.script, old(s.publishes), p, sofar).publishes
    ensures joined == AwaitOne(s.script, old(s.publishes), p, sofar).err
  {
    var result := Respond(s.script, p.number);
    joined := sofar;
    if result.Published? {
      s.AddConfirmedID(p.id);
    } else if TimedOut(result) {
      joined := Join(joined, Some(result.err));
    } else if result.permanent {
      var done, isolateErr := SendIsolated(s, p.id, false);
      if !done {
        joined := Join(joined, Some(result.err));
      }
      joined := Join(joined, isolateErr);
    } else {
      joined := Join(joined, Some(result.err));
    }
  }

  predicate DistinctIds(pending: seq<Pending>) {
    forall i, j | 0 <= i < j < |pending| :: pending[i].id != pending[j].id
  }

  function PendingIds(pending: seq<Pending>): set<EventId> {
    set p | p in pending :: p.id
  }

  predicate OneRecords(one: Await, id: EventId, sofar: Error) {
    Recorded(one.trace) <= {id} && (one.err.None? <==> sofar.None? && Recorded(one.trace) == {id})
  }

  // Waiting for one publish records it or adds an error, and never a fatal one.
  lemma AwaitOneRecords(script: seq<Result>, n: nat, p: Pending, sofar: Error)
    requires Foreign(script)
    ensures OneRecords(AwaitOne(script, n, p, sofar), p.id, sofar)
    ensures !Is(sofar, FatalAfterCommit) ==> !Is(AwaitOne(script, n, p, sofar).err, FatalAfterCommit)
  {
    var r := Respond(script, p.number);
    var confirm, poison := Report(Confirm(Some(p.id))), Report(Poison(Some(p.id), PERMANENT));
    assert Recorded([confirm]) == {p.id} && Recorded([]) == {};
    if r.Failed? {
      JoinIs(sofar, Some(r.err), FatalAfterCommit);
      if !TimedOut(r) && r.permanent {
        var isolated := IsolatedRun(script, n, p.id, false);
        IsolatedFatal(script, n, p.id, false);
        JoinIs(if isolated.done then sofar else Join(sofar, Some(r.err)), isolated.err, FatalAfterCommit);
        var alone := Publish(p.id, Respond(script, n));
        assert Recorded([alone] + [confirm]) == {p.id};
        assert Recorded([alone] + [poison]) == {p.id};
        assert Recorded([alone]) == {};
      }
    }
  }

  lemma PendingIdsAppend(pending: seq<Pending>, last: Pending)
    ensures PendingIds(pending + [last]) == PendingIds(pending) + {last.id}
    ensures DistinctIds(pending + [last]) ==> DistinctIds(pending) && last.id !in PendingIds(pending)
  {
    assert forall p :: p in pending + [last] <==> p in pending || p == last;
    if DistinctIds(pending + [last]) {
      forall p | p in pending
        ensures p.id != last.id
      {
        var i :| 0 <= i < |pending| && pending[i] == p;
        assert (pending + [last])[i] == p && (pending + [last])[|pending|] == last;
      }
      assert forall i :: 0 <= i < |pending| ==> (pending + [last])[i] == pending[i];
    }
  }

  /** The unordered path never turns fatal, whatever times out. */
  lemma {:induction false} UnorderedNeverFatal(script: seq<Result>, n: nat, pending: seq<Pending>)
    requires Foreign(script)
    ensures !Is(AwaitRun(script, n, pending).err, FatalAfterCommit)
  {
    if pending != [] {
      var init, last := pending[..|pending| - 1], pending[|pending| - 1];
      UnorderedNeverFatal(script, n, init);
      var before := AwaitRun(script, n, init);
      AwaitOneRecords(script, n + before.publishes, last, before.err);
    }
  }

  /** The unordered path records only published events, and returns no error exactly when
      it recorded the outcome of every one of them. */
  lemma {:induction false} UnorderedErrorIffUnrecorded(script: seq<Result>, n: nat, pending: seq<Pending>)
    requires Foreign(script) && DistinctIds(pending)
    ensures Recorded(AwaitRun(script, n, pending).trace) <= PendingIds(pending)
    ensures AwaitRun(script, n, pending).err.None? <==> Recorded(AwaitRun(script, n, pending).trace) == PendingIds(pending)
  {
    if pending == [] {
      assert Recorded([]) == PendingIds([]) == {};
    } else {
      var init, last := pending[..|pending| - 1], pending[|pending| - 1];
      assert pending == init + [last];
      PendingIdsAppend(init, last);
      UnorderedErrorIffUnrecorded(script, n, init);
      AwaitNextKeepsStep(script, n, AwaitRun(script, n, init), last, PendingIds(init));
    }
  }

  // No error so far exactly when every one of `ids` is recorded.
  predicate KeepsStep(run: Await, ids: set<EventId>) {
    Recorded(run.trace) <= ids && (run.err.None? <==> Recorded(run.trace) == ids)
  }

  lemma AwaitNextKeepsStep(script: seq<Result>, n: nat, before: Await, p: Pending, ids: set<EventId>)
    requires Foreign(script) && KeepsStep(before, ids) && p.id !in ids
    ensures KeepsStep(AwaitNext(script, n, before, p), ids + {p.id})
  {
    var one := AwaitOne(script, n + before.publishes, p, before.err);
    AwaitOneRecords(script, n + before.publishes, p, before.err);
    JoinKeepsStep(before, one, ids, p.id);
  }

  lemma JoinKeepsStep(before: Await, one: Await, ids: set<EventId>, id: EventId)
    requires KeepsStep(before, ids) && OneRecords(one, id, before.err) && id !in ids
    ensures KeepsStep(Await(before.trace + one.trace, before.publishes + one.publishes, one.err), ids + {id})
  {
    RecordedConcat(before.trace, one.trace);
    OneMoreRecorded(Recorded(before.trace), Recorded(one.trace), ids, id);
  }

  lemma OneMoreRecorded(before: set<EventId>, one: set<EventId>, ids: set<EventId>, id: EventId)
    requires before <= ids && one <= {id} && id !in ids
    ensures before + one == ids + {id} <==> before == ids && one == {id}
  {
    if before + one == ids + {id} {
      assert forall x :: x in ids ==> x in before + one && x !in one;
      assert id in before + one;
    }
  }

  /** The first loop handles the events in batch order, one operation each, and the publishes
      it leaves pending are those of the valid ones, numbered in that order. */
  lemma {:induction false} LaunchInOrder(script: seq<Result>, n: nat, events: seq<Candidate>)
    ensures var launch, valid := LaunchRun(script, n, events), Grouping.FilterBy(events, IsValid, true);
            && |launch.trace| == |events| && |launch.pending| == |valid|
            && (forall k :: 0 <= k < |events| ==> launch.trace[k].Publish? == events[k].valid && IsAbout(launch.trace[k], events[k].id))
            && (forall k :: 0 <= k < |valid| ==> launch.pending[k] == Pending(valid[k].id, n + k))
  {
    if events != [] {
      LaunchInOrder(script, n, events[..|events| - 1]);
    }
  }

  predicate IsValid(c: Candidate) {
    c.valid
  }

  // The launch of one event: its publish, pending as number i, or its rejection.
  ghost predicate Launched(script: seq<Result>, n: nat, launch: Launch, c: Candidate, i: nat) {
    && StoryOf(launch.trace, c.id) == StoryStep(UNTOUCHED, LaunchOp(script, n + i, c), c.id)
    && if c.valid then i < |launch.pending| && launch.pending[i] == Pending(c.id, n + i) else c.id !in PendingIds(launch.pending)
  }

  lemma {:induction false} LaunchStory(script: seq<Result>, n: nat, events: seq<Candidate>, j: nat) returns (i: nat)
    requires DistinctCandidates(events) && j < |events|
    ensures Launched(script, n, LaunchRun(script, n, events), events[j], i)
  {
    var init, last := events[..|events| - 1], events[|events| - 1];
    var before := LaunchRun(script, n, init);
    if j < |init| {
      i := LaunchStory(script, n, init, j);
      EarlierLaunched(script, n, before, last, events[j], i);
    } else {
      i := |before.pending|;
      LaunchNotAbout(script, n, init, last.id);
      LastLaunched(script, n, before, last);
    }
  }

  lemma EarlierLaunched(script: seq<Result>, n: nat, before: Launch, last: Candidate, c: Candidate, i: nat)
    requires Launched(script, n, before, c, i) && c.id != last.id
    ensures Launched(script, n, LaunchNext(script, n, before, last), c, i)
  {
    var next := n + |before.pending|;
    StoryPush(before.trace, LaunchOp(script, next, last), c.id);
    PendingIdsAppend(before.pending, Pending(last.id, next));
  }

  lemma LastLaunched(script: seq<Result>, n: nat, before: Launch, last: Candidate)
    requires NotAbout(before.trace, last.id) && last.id !in PendingIds(before.pending)
    ensures Launched(script, n, LaunchNext(script, n, before, last), last, |before.pending|)
  {
    StoryBegins(before.trace, [LaunchOp(script, n + |before.pending|, last)], last.id);
    StoryOfOne(LaunchOp(script, n + |before.pending|, last), last.id);
  }

  lemma {:induction false} LaunchNotAbout(script: seq<Result>, n: nat, events: seq<Candidate>, id: EventId)
    requires forall k :: 0 <= k < |events| ==> events[k].id != id
    ensures NotAbout(LaunchRun(script, n, events).trace, id) && id !in PendingIds(LaunchRun(script, n, events).pending)
  {
    if events != [] {
      var init, last := events[..|events| - 1], events[|events| - 1];
      var before := LaunchRun(script, n, init);
      LaunchNotAbout(script, n, init, id);
      NotAboutConcat(before.trace, [LaunchOp(script, n + |before.pending|, last)], id);
      PendingIdsAppend(before.pending, Pending(last.id, n + |before.pending|));
    }
  }

  lemma {:induction false} LaunchDistinct(script: seq<Result>, n: nat, events: seq<Candidate>)
    requires DistinctCandidates(events)
    ensures DistinctIds(LaunchRun(script, n, events).pending)
  {
    if events != [] {
      var init, last := events[..|events| - 1], events[|events| - 1];
      var before := LaunchRun(script, n, init);
      LaunchDistinct(script, n, init);
      LaunchNotAbout(script, n, init, last.id);
      PendingIdsAppend(before.pending, Pending(last.id, n + |before.pending|));
    }
  }

  // What follows an event's first publish; its isolated one, if any, is number m.
  function WaitStory(script: seq<Result>, m: nat, p: Pending): Story {
    var first, alone := Respond(script, p.number), Respond(script, m);
    if Rejected(first) then Story(Some(alone), None, Verdict(p.id, false, true, alone), true)
    else Story(None, None, Verdict(p.id, false, false, first), true)
  }

  lemma AwaitOneStory(script: seq<Result>, n: nat, p: Pending, sofar: Error)
    ensures StoryOf(AwaitOne(script, n, p, sofar).trace, p.id) == WaitStory(script, n, p)
  {
    StoryOfOne(Report(Confirm(Some(p.id))), p.id);
    IsolatedStory(script, n, p.id, false);
  }

  lemma AwaitOneAbout(script: seq<Result>, n: nat, p: Pending, sofar: Error, id: EventId)
    requires id != p.id
    ensures NotAbout(AwaitOne(script, n, p, sofar).trace, id)
  {
  }

  lemma {:induction false} AwaitNotAbout(script: seq<Result>, n: nat, pending: seq<Pending>, id: EventId)
    requires forall k :: 0 <= k < |pending| ==> pending[k].id != id
    ensures NotAbout(AwaitRun(script, n, pending).trace, id)
  {
    if pending != [] {
      var init, last := pending[..|pending| - 1], pending[|pending| - 1];
      var before := AwaitRun(script, n, init);
      var one := AwaitOne(script, n + before.publishes, last, before.err).trace;
      AwaitNotAbout(script, n, init, id);
      AwaitOneAbout(script, n + before.publishes, last, before.err, id);
      NotAboutConcat(before.trace, one, id);
    }
  }

  // Waiting for the pending publishes: each one's own wait is all that concerns it.
  lemma {:induction false} AwaitStory(script: seq<Result>, n: nat, pending: seq<Pending>, i: nat) returns (m: nat, sofar: Error)
    requires DistinctIds(pending) && i < |pending|
    ensures StoryOf(AwaitRun(script, n, pending).trace, pending[i].id)
         == StoryOf(AwaitOne(script, m, pending[i], sofar).trace, pending[i].id)
  {
    hide StoryOf, AwaitOne;
    var init, last := pending[..|pending| - 1], pending[|pending| - 1];
    var before := AwaitRun(script, n, init);
    var one := AwaitOne(script, n + before.publishes, last, before.err).trace;
    if i < |init| {
      m, sofar := AwaitStory(script, n, init, i);
      AwaitOneAbout(script, n + before.publishes, last, before.err, pending[i].id);
      StoryEnds(before.trace, one, pending[i].id);
    } else {
      m, sofar := n + before.publishes, before.err;
      AwaitNotAbout(script, n, init, last.id);
      StoryBegins(before.trace, one, last.id);
    }
  }

  /** For every sequence of publish results, the story of each event of the unordered path is
      the lawful one; there every event is handled, whatever became of the others, and an
      isolated publish that times out with a permanent error is poison too. */
  lemma UnorderedStories(script: seq<Result>, n: nat, events: seq<Candidate>, j: nat)
    requires DistinctCandidates(events) && j < |events|
    ensures Lawful(events[j], false, true, StoryOf(UnorderedTrace(script, n, events), events[j].id))
  {
    var i := LaunchStory(script, n, events, j);
    if events[j].valid {
      ValidStory(script, n, events, events[j], i);
    } else {
      InvalidStory(script, n, events, events[j], i);
    }
  }

  lemma ValidStory(script: seq<Result>, n: nat, events: seq<Candidate>, c: Candidate, i: nat)
    requires DistinctCandidates(events) && c.valid && Launched(script, n, LaunchRun(script, n, events), c, i)
    ensures Lawful(c, false, true, StoryOf(UnorderedTrace(script, n, events), c.id))
  {
    hide StoryOf, LaunchRun, AwaitRun, AwaitOne, WaitStory, Lawful;
    var launch := LaunchRun(script, n, events);
    LaunchDistinct(script, n, events);
    var m, sofar := AwaitStory(script, n + |launch.pending|, launch.pending, i);
    AwaitOneStory(script, m, Pending(c.id, n + i), sofar);
    JoinStories(launch.trace, AwaitRun(script, n + |launch.pending|, launch.pending).trace, script, m, c, n + i);
  }

  lemma JoinStories(launched: seq<Op>, awaited: seq<Op>, script: seq<Result>, m: nat, c: Candidate, number: nat)
    requires c.valid && StoryOf(launched, c.id) == StoryStep(UNTOUCHED, LaunchOp(script, number, c), c.id)
    requires StoryOf(awaited, c.id) == WaitStory(script, m, Pending(c.id, number))
    ensures Lawful(c, false, true, StoryOf(launched + awaited, c.id))
  {
    StoryGoesOn(launched, awaited, c.id);
  }

  lemma InvalidStory(script: seq<Result>, n: nat, events: seq<Candidate>, c: Candidate, i: nat)
    requires !c.valid && Launched(script, n, LaunchRun(script, n, events), c, i)
    ensures Lawful(c, false, true, StoryOf(UnorderedTrace(script, n, events), c.id))
  {
    var launch := LaunchRun(script, n, events);
    AwaitNotAbout(script, n + |launch.pending|, launch.pending, c.id);
    StoryEnds(launch.trace, AwaitRun(script, n + |launch.pending|, launch.pending).trace, c.id);
  }

  // The event of this story is kept for a retry, and a publish of it failed with this kind.
  predicate KeptWith(story: Story, first: Result, kind: Kind) {
    && story.report.None?
    && ((first.Failed? && ErrIs(first.err, kind))
        || (story.first.Some? && story.first.value.Failed? && ErrIs(story.first.value.err, kind)))
  }

  // What waiting for pending publish i adds to the error.
  predicate WaitKept(script: seq<Result>, trace: seq<Op>, p: Pending, kind: Kind) {
    KeptWith(StoryOf(trace, p.id), Respond(script, p.number), kind)
  }

  lemma AwaitOneError(script: seq<Result>, n: nat, p: Pending, sofar: Error, kind: Kind)
    ensures var one := AwaitOne(script, n, p, sofar);
            Is(one.err, kind) <==> Is(sofar, kind) || KeptWith(WaitStory(script, n, p), Respond(script, p.number), kind)
  {
    var r, alone := Respond(script, p.number), Respond(script, n);
    if r.Failed? {
      JoinIs(sofar, Some(r.err), kind);
      JoinIs(sofar, None, kind);
      if Rejected(r) && alone.Failed? {
        JoinIs(Join(sofar, Some(r.err)), Some(alone.err), kind);
      }
    }
  }

  /** The error of the unordered path holds exactly the kinds of error that the publishes of
      the events it keeps for a retry ended in. */
  lemma {:induction false} UnorderedErrorIs(script: seq<Result>, n: nat, pending: seq<Pending>, kind: Kind)
    requires DistinctIds(pending)
    ensures var run := AwaitRun(script, n, pending);
            Is(run.err, kind) <==> exists i :: 0 <= i < |pending| && WaitKept(script, run.trace, pending[i], kind)
  {
    hide AwaitOne, StoryOf, KeptWith, WaitStory;
    if pending != [] {
      var init, last := pending[..|pending| - 1], pending[|pending| - 1];
      var before := AwaitRun(script, n, init);
      var one := AwaitOne(script, n + before.publishes, last, before.err);
      UnorderedErrorIs(script, n, init, kind);
      AwaitOneError(script, n + before.publishes, last, before.err, kind);
      AwaitOneStory(script, n + before.publishes, last, before.err);
      AwaitNotAbout(script, n, init, last.id);
      StoryBegins(before.trace, one.trace, last.id);
      forall i | 0 <= i < |init|
        ensures StoryOf(before.trace + one.trace, pending[i].id) == StoryOf(before.trace, pending[i].id)
      {
        AwaitOneAbout(script, n + before.publishes, last, before.err, pending[i].id);
        StoryEnds(before.trace, one.trace, pending[i].id);
      }
      assert WaitKept(script, before.trace + one.trace, last, kind)
        <==> KeptWith(WaitStory(script, n + before.publishes, last), Respond(script, last.number), kind);
      KeptSplits(script, before.trace, before.trace + one.trace, init, pending, kind);
    }
  }

  lemma KeptSplits(script: seq<Result>, before: seq<Op>, after: seq<Op>, init: seq<Pending>, pending: seq<Pending>, kind: Kind)
    requires |pending| == |init| + 1 && forall i :: 0 <= i < |init| ==> init[i] == pending[i]
    requires forall i :: 0 <= i < |init| ==> StoryOf(after, pending[i].id) == StoryOf(before, pending[i].id)
    ensures (exists i :: 0 <= i < |pending| && WaitKept(script, after, pending[i], kind))
       <==> (exists i :: 0 <= i < |init| && WaitKept(script, before, init[i], kind)) || WaitKept(script, after, pending[|init|], kind)
  {
    hide StoryOf, KeptWith;
    forall i | 0 <= i < |init|
      ensures WaitKept(script, after, pending[i], kind) <==> WaitKept(script, before, init[i], kind)
    {
    }
  }

  // --- the whole send -------------------------------------------------------------------------------

  // An event after its options are parsed.
  datatype Event = Event(candidate: Candidate, topic: string, orderingKey: string)

  predicate IsOrdered(e: Event) {
    e.orderingKey != ""
  }

  function GroupId(e: Event): string {
    e.topic + "\0" + e.orderingKey
  }

  lemma TopicEnds(e: Event)
    requires '\0' !in e.topic
    ensures |GroupId(e)| == |e.topic| + 1 + |e.orderingKey| && GroupId(e)[|e.topic|] == '\0'
    ensures forall i :: 0 <= i < |e.topic| ==> GroupId(e)[i] == e.topic[i] && GroupId(e)[i] != '\0'
    ensures GroupId(e)[..|e.topic|] == e.topic && GroupId(e)[|e.topic| + 1..] == e.orderingKey
  {
  }

  // Text columns cannot hold a NUL character, so group ids tell topic and key apart.
  lemma GroupIdInjective(a: Event, b: Event)
    requires '\0' !in a.topic && '\0' !in b.topic && GroupId(a) == GroupId(b)
    ensures a.topic == b.topic && a.orderingKey == b.orderingKey
  {
    TopicEnds(a);
    TopicEnds(b);
    assert |a.topic| == |b.topic|;
  }

  // The group of an event, None without an ordering key.
  function KeyOf(e: Event): Option<string> {
    if IsOrdered(e) then Some(GroupId(e)) else None
  }

  function Candidates(events: seq<Event>): (candidates: seq<Candidate>)
    ensures |candidates| == |events| && forall i | 0 <= i < |events| :: candidates[i] == events[i].candidate
  {
    seq(|events|, i requires 0 <= i < |events| => events[i].candidate)
  }

  // The events without a key, and those of one group, in batch order.
  function Unordered(events: seq<Event>): seq<Candidate> {
    Candidates(Grouping.FilterBy(events, KeyOf, None))
  }

  function GroupOf(events: seq<Event>, group: string): seq<Candidate> {
    Candidates(Grouping.FilterBy(events, KeyOf, Some(group)))
  }

  function Groups(events: seq<Event>): set<string> {
    set e | e in events && IsOrdered(e) :: GroupId(e)
  }

  lemma GroupsAreKeys(events: seq<Event>, key: Option<string>)
    ensures key in Grouping.KeySet(events, KeyOf) <==> if key.None? then exists e :: e in events && !IsOrdered(e) else key.value in Groups(events)
  {
    if e :| e in events && KeyOf(e) == key {
      var i :| 0 <= i < |events| && events[i] == e;
    }
  }

  // The dispatch loop of sendPubsubEventsWithCallbacks groups the events by key; the group
  // without a key is its `unordered` slice.
  method SplitEvents(events: seq<Event>) returns (unordered: seq<Candidate>, groups: map<string, seq<Candidate>>)
    ensures unordered == Unordered(events)
    ensures groups.Keys == Groups(events) && forall g :: g in groups ==> groups[g] == GroupOf(events, g)
  {
    var byKey, order := Grouping.GroupByKey(events, KeyOf);
    forall key {
      GroupsAreKeys(events, key);
    }
    unordered := if None in byKey then Candidates(byKey[None]) else [];
    if None !in byKey {
      Grouping.NoGroup(events, KeyOf, None);
    }
    groups := map g | g in Groups(events) :: Candidates(byKey[Some(g)]);
  }

  // The publish results each ordering group will see; groups run concurrently, so any
  // interleaving gives each of them some script.
  type Scripts = map<string, seq<Result>>

  function ScriptOf(scripts: Scripts, group: string): seq<Result> {
    if group in scripts then scripts[group] else []
  }

  function GroupRunOf(events: seq<Event>, scripts: Scripts, group: string): GroupRun {
    OrderedGroupRun(ScriptOf(scripts, group), 0, GroupOf(events, group))
  }

  function LaneOf(events: seq<Event>, scripts: Scripts): string -> (seq<Op>, Error) {
    (g: string) => var run := GroupRunOf(events, scripts, g); (run.trace, run.err)
  }

  function SendError(events: seq<Event>, script: seq<Result>, scripts: Scripts, finish: seq<string>): Error {
    Join(UnorderedError(script, 0, Unordered(events)), FinishAll(finish, LaneOf(events, scripts)).joined)
  }

  /** sendPubsubEventsWithCallbacks: the unordered events first, then every ordering group
      concurrently; `finish` is the order in which the groups finish. */
  method SendEvents(events: seq<Event>, script: seq<Result>, scripts: Scripts, finish: seq<string>)
      returns (trace: seq<Op>, lanes: map<string, seq<Op>>, err: Error)
    requires Grouping.NoRepeats(finish) && forall g :: g in finish <==> g in Groups(events)
    ensures trace == UnorderedTrace(script, 0, Unordered(events)) && lanes == FinishAll(finish, LaneOf(events, scripts)).results
    ensures err == SendError(events, script, scripts, finish)
  {
    var unordered, groups := SplitEvents(events);
    var session := new Session(script);
    var unorderedErr := SendUnordered(session, unordered);
    var all := SendLanes(events, groups, scripts, finish);
    trace, lanes, err := session.trace, all.results, Join(unorderedErr, all.joined);
  }

  // provider.RunConcurrent over the ordering groups.
  method SendLanes(events: seq<Event>, groups: map<string, seq<Candidate>>, scripts: Scripts, finish: seq<string>)
      returns (all: Completion<string, seq<Op>>)
    requires forall g :: g in finish ==> g in groups && groups[g] == GroupOf(events, g)
    ensures all == FinishAll(finish, LaneOf(events, scripts))
  {
    all := Completion(map[], None);
    for k := 0 to |finish|
      invariant all == FinishFirst(finish, LaneOf(events, scripts), k)
    {
      assert finish[k] in finish;
      all := SendLane(events, scripts, groups[finish[k]], finish[k], all);
    }
    FinishAllIsFold(finish, LaneOf(events, scripts));
  }

  // One ordering group's goroutine, and the collection of what it returns.
  method SendLane(events: seq<Event>, scripts: Scripts, group: seq<Candidate>, g: string, before: Completion<string, seq<Op>>)
      returns (after: Completion<string, seq<Op>>)
    requires group == GroupOf(events, g)
    ensures after == Finish(before, g, LaneOf(events, scripts)(g))
  {
    var session := new Session(ScriptOf(scripts, g));
    var err := SendOrderedGroup(session, group);
    assert session.trace == GroupRunOf(events, scripts, g).trace;
    after := Finish(before, g, (session.trace, err));
  }

  // The story of event e in the send of its batch.
  function StoryInSend(events: seq<Event>, script: seq<Result>, scripts: Scripts, e: Event): Story {
    StoryOf(if e.orderingKey != "" then GroupRunOf(events, scripts, GroupId(e)).trace else UnorderedTrace(script, 0, Unordered(events)),
            e.candidate.id)
  }

  // Every earlier event with the topic and the key of event j has been recorded.
  ghost predicate EldersRecorded(events: seq<Event>, scripts: Scripts, j: nat)
    requires j < |events|
  {
    forall i :: 0 <= i < j && events[i].topic == events[j].topic && events[i].orderingKey == events[j].orderingKey ==>
      events[i].candidate.id in Recorded(GroupRunOf(events, scripts, GroupId(events[j])).trace)
  }

  predicate NulFree(events: seq<Event>) {
    forall e | e in events :: '\0' !in e.topic
  }

  /** Whatever the publishes of a send end in, the story of each of its events is the lawful
      one: an event without a key is always handled, one with a key exactly if every earlier
      event of its topic and key was recorded. */
  lemma SendStories(events: seq<Event>, script: seq<Result>, scripts: Scripts, j: nat)
    requires Grouping.Ascending(events, (e: Event) => e.candidate.id) && NulFree(events) && j < |events|
    ensures var e := events[j];
            Lawful(e.candidate, e.orderingKey != "", e.orderingKey == "" || EldersRecorded(events, scripts, j),
                   StoryInSend(events, script, scripts, e))
  {
    hide StoryOf, Lawful, OrderedGroupRun, UnorderedTrace;
    var e := events[j];
    var k := PlaceInGroup(events, j);
    if e.orderingKey != "" {
      OrderedStories(ScriptOf(scripts, GroupId(e)), 0, GroupOf(events, GroupId(e)), k);
      EldersAreReached(events, j, k, Recorded(GroupRunOf(events, scripts, GroupId(e)).trace));
      SameKey(events, j);
    } else {
      UnorderedStories(script, 0, Unordered(events), k);
    }
  }

  lemma SameKey(events: seq<Event>, j: nat)
    requires NulFree(events) && j < |events| && events[j].orderingKey != ""
    ensures forall i :: 0 <= i < |events| ==>
              (KeyOf(events[i]) == KeyOf(events[j]) <==> events[i].topic == events[j].topic && events[i].orderingKey == events[j].orderingKey)
  {
    forall i | 0 <= i < |events| && IsOrdered(events[i]) && GroupId(events[i]) == GroupId(events[j]) {
      GroupIdInjective(events[i], events[j]);
    }
  }

  // The candidates an event is sent among, itself included.
  function Fellows(events: seq<Event>, e: Event): seq<Candidate> {
    Candidates(Grouping.FilterBy(events, KeyOf, KeyOf(e)))
  }

  lemma PlaceInGroup(events: seq<Event>, j: nat) returns (k: nat)
    requires Grouping.Ascending(events, (e: Event) => e.candidate.id) && j < |events|
    ensures var fellows := Fellows(events, events[j]);
            DistinctCandidates(fellows) && k < |fellows| && fellows[k] == events[j].candidate
  {
    var id, key := (e: Event) => e.candidate.id, KeyOf(events[j]);
    var group := Grouping.FilterBy(events, KeyOf, key);
    Grouping.GroupInOrder(events, KeyOf, key, id);
    Grouping.FilterMember(events, KeyOf, key, events[j]);
    forall a, b | 0 <= a < b < |group|
      ensures group[a].candidate.id != group[b].candidate.id
    {
      assert id(group[a]) < id(group[b]);
    }
    k :| 0 <= k < |group| && group[k] == events[j];
  }

  lemma EldersAreReached(events: seq<Event>, j: nat, k: nat, recorded: set<EventId>)
    requires Grouping.Ascending(events, (e: Event) => e.candidate.id) && j < |events|
    requires k < |Fellows(events, events[j])| && Fellows(events, events[j])[k] == events[j].candidate
    ensures Ids(Fellows(events, events[j])[..k]) <= recorded
       <==> forall i :: 0 <= i < j && KeyOf(events[i]) == KeyOf(events[j]) ==> events[i].candidate.id in recorded
  {
    var id, key := (e: Event) => e.candidate.id, KeyOf(events[j]);
    var group := Grouping.FilterBy(events, KeyOf, key);
    Grouping.GroupInOrder(events, KeyOf, key, id);
    forall i | 0 <= i < j && KeyOf(events[i]) == key
      ensures events[i].candidate.id in Ids(Fellows(events, events[j])[..k])
    {
      var p := ElderPlace(events, i, j, k);
      assert Fellows(events, events[j])[..k][p] == events[i].candidate;
    }
    forall p | 0 <= p < k
      ensures exists i :: 0 <= i < j && KeyOf(events[i]) == key && events[i].candidate == group[p].candidate
    {
      Grouping.FilterMember(events, KeyOf, key, group[p]);
      Grouping.FilterMember(events, KeyOf, key, group[k]);
      var i :| 0 <= i < |events| && events[i] == group[p];
      Grouping.PositionById(group, id, p, k);
      Grouping.PositionById(events, id, i, j);
    }
  }

  // An elder of event j stands before it in the group.
  lemma ElderPlace(events: seq<Event>, i: nat, j: nat, k: nat) returns (p: nat)
    requires Grouping.Ascending(events, (e: Event) => e.candidate.id) && i < j < |events| && KeyOf(events[i]) == KeyOf(events[j])
    requires k < |Fellows(events, events[j])| && Fellows(events, events[j])[k] == events[j].candidate
    ensures p < k && Fellows(events, events[j])[p] == events[i].candidate
  {
    var id, key := (e: Event) => e.candidate.id, KeyOf(events[j]);
    var group := Grouping.FilterBy(events, KeyOf, key);
    Grouping.GroupInOrder(events, KeyOf, key, id);
    Grouping.FilterMember(events, KeyOf, key, events[i]);
    p :| 0 <= p < |group| && group[p] == events[i];
    Grouping.PositionById(group, id, p, k);
    Grouping.PositionById(events, id, i, j);
  }

  // Some publish of this ordering group, an isolated one included, ended in
  // DeadlineExceeded.
  ghost predicate GroupTimedOut(events: seq<Event>, scripts: Scripts, group: string) {
    group in Groups(events)
    && AnyTimedOut(GroupRunOf(events, scripts, group).trace)
  }

  lemma LaneErrorsFatal(events: seq<Event>, scripts: Scripts, finish: seq<string>)
    requires forall g :: g in Groups(events) ==> Foreign(ScriptOf(scripts, g))
    requires forall g :: g in finish ==> g in Groups(events)
    ensures Is(FinishAll(finish, LaneOf(events, scripts)).joined, FatalAfterCommit)
       <==> exists g :: g in finish && GroupTimedOut(events, scripts, g)
  {
    var errs := ErrorsOf(finish, LaneOf(events, scripts));
    JoinCompletedIs(errs, FatalAfterCommit);
    forall k | 0 <= k < |finish|
      ensures Is(errs[k], FatalAfterCommit) <==> GroupTimedOut(events, scripts, finish[k])
    {
      assert finish[k] in finish;
      OrderedGroupFatalIff(ScriptOf(scripts, finish[k]), 0, GroupOf(events, finish[k]));
    }
    if g :| g in finish && GroupTimedOut(events, scripts, g) {
      var k :| 0 <= k < |finish| && finish[k] == g;
      assert Is(errs[k], FatalAfterCommit);
    }
  }

  /** A send returns the fatal sentinel exactly when some publish of some ordering group of
      the events sent ended in DeadlineExceeded, in whatever order the groups finish and
      whatever the unordered events did. */
  lemma SendFatalIff(events: seq<Event>, script: seq<Result>, scripts: Scripts, finish: seq<string>)
    requires Foreign(script) && forall g :: g in Groups(events) ==> Foreign(ScriptOf(scripts, g))
    requires forall g :: g in finish <==> g in Groups(events)
    ensures Is(SendError(events, script, scripts, finish), FatalAfterCommit) <==> exists g :: GroupTimedOut(events, scripts, g)
  {
    var pending := LaunchRun(script, 0, Unordered(events)).pending;
    UnorderedNeverFatal(script, |pending|, pending);
    LaneErrorsFatal(events, scripts, finish);
    JoinIs(UnorderedError(script, 0, Unordered(events)), FinishAll(finish, LaneOf(events, scripts)).joined, FatalAfterCommit);
  }
}

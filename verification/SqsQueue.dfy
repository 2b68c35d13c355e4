/** One queue's share of a batch, sent whole: a FIFO queue as its message groups side by
    side, a standard queue as the chunks of its prepared events side by side. Every group
    and every chunk meets its own script of answers, so any interleaving is covered.
 */
module SqsQueue {
  import opened Errors
  import opened Collector
  import opened Chunking
  import Parts = Chunking
  import opened SqsSender
  import Grouping

  // --- FIFO queues ------------------------------------------------------------------------

  // `groupId` is fifoGroupID; `lanes` answers each group's calls.
  datatype FifoQueue = FifoQueue(events: seq<Candidate>, groupId: Candidate -> string, lanes: string -> Service)

  function Groups(queue: FifoQueue): set<string> {
    Grouping.KeySet(queue.events, queue.groupId)
  }

  function Group(queue: FifoQueue, g: string): seq<Candidate> {
    Grouping.FilterBy(queue.events, queue.groupId, g)
  }

  function LaneRun(queue: FifoQueue, g: string): GroupRun {
    FifoGroupRun(queue.lanes(g), 0, Group(queue, g))
  }

  function LaneOf(queue: FifoQueue): string -> (seq<Op>, Error) {
    (g: string) => (LaneRun(queue, g).trace, LaneRun(queue, g).err)
  }

  ghost predicate FinishOrder(queue: FifoQueue, finish: seq<string>) {
    Grouping.NoRepeats(finish) && forall g :: g in finish <==> g in Groups(queue)
  }

  /** sendSQSFIFOEvents: every group runs whatever the others return, and the errors are
      joined as the groups finish. */
  method SendFifoQueue(queue: FifoQueue, finish: seq<string>) returns (all: Completion<string, seq<Op>>)
    requires FinishOrder(queue, finish)
    ensures all == FinishAll(finish, LaneOf(queue))
    ensures forall kind :: Is(all.joined, kind) <==> exists g :: g in Groups(queue) && Is(LaneRun(queue, g).err, kind)
  {
    var groups, _ := Grouping.GroupByKey(queue.events, queue.groupId);
    all := SendLanes(queue, groups, finish);
    FifoErrorIs(queue, finish);
  }

  // provider.RunConcurrent over the groups; `finish` is the order in which they finish.
  method SendLanes(queue: FifoQueue, groups: map<string, seq<Candidate>>, finish: seq<string>) returns (all: Completion<string, seq<Op>>)
    requires forall g :: g in finish ==> g in groups && groups[g] == Group(queue, g)
    ensures all == FinishAll(finish, LaneOf(queue))
  {
    all := Completion(map[], None);
    for k := 0 to |finish|
      invariant all == FinishFirst(finish, LaneOf(queue), k)
    {
      assert finish[k] in finish;
      all := SendLane(queue, groups[finish[k]], finish[k], all);
    }
    FinishAllIsFold(finish, LaneOf(queue));
  }

  // One group's goroutine, and the collection of what it returns.
  method SendLane(queue: FifoQueue, group: seq<Candidate>, g: string, before: Completion<string, seq<Op>>)
      returns (after: Completion<string, seq<Op>>)
    requires group == Group(queue, g)
    ensures after == Finish(before, g, LaneOf(queue)(g))
  {
    var session := new Session(queue.lanes(g));
    var err := SendFifoGroup(session, group);
    assert session.trace == LaneRun(queue, g).trace;
    after := Finish(before, g, (session.trace, err));
  }

  lemma FifoErrorIs(queue: FifoQueue, finish: seq<string>)
    requires FinishOrder(queue, finish)
    ensures forall kind :: Is(JoinCompleted(ErrorsOf(finish, LaneOf(queue))), kind)
                      <==> exists g :: g in Groups(queue) && Is(LaneRun(queue, g).err, kind)
  {
    var errs := ErrorsOf(finish, LaneOf(queue));
    forall kind
      ensures Is(JoinCompleted(errs), kind) <==> exists g :: g in Groups(queue) && Is(LaneRun(queue, g).err, kind)
    {
      JoinCompletedIs(errs, kind);
      if g :| g in Groups(queue) && Is(LaneRun(queue, g).err, kind) {
        assert g in finish;
        var k :| 0 <= k < |finish| && finish[k] == g;
        assert Is(errs[k], kind);
      }
      if k :| 0 <= k < |errs| && Is(errs[k], kind) {
        assert finish[k] in finish;
      }
    }
  }

  // The ids a queue's send reports.
  ghost predicate Reported(queue: FifoQueue, id: EventId) {
    exists g :: g in Groups(queue) && id in Recorded(LaneRun(queue, g).trace)
  }

  ghost predicate QueueAttributed(queue: FifoQueue) {
    forall g :: g in Groups(queue) ==> AllAttributed(LaneRun(queue, g).trace)
  }

  // How much of each group was recorded, and that it went out in turn.
  ghost predicate PrefixesOf(queue: FifoQueue, lengths: map<string, nat>) {
    && lengths.Keys == Groups(queue)
    && forall g :: g in lengths ==> RecordsPrefix(queue.lanes(g), 0, Group(queue, g), lengths[g])
  }

  ghost predicate InPrefix(queue: FifoQueue, lengths: map<string, nat>, g: string, id: EventId)
    requires PrefixesOf(queue, lengths)
  {
    g in lengths && id in Ids(Group(queue, g)[..lengths[g]])
  }

  /** With attributed answers, one send of a FIFO queue records exactly the union of one
      prefix of each of its groups. */
  lemma FifoQueuePrefixes(queue: FifoQueue) returns (lengths: map<string, nat>)
    requires QueueAttributed(queue)
    ensures PrefixesOf(queue, lengths)
    ensures forall id :: Reported(queue, id) <==> exists g :: InPrefix(queue, lengths, g, id)
  {
    forall g | g in Groups(queue)
      ensures exists m: nat :: RecordsPrefix(queue.lanes(g), 0, Group(queue, g), m)
    {
      var m := FifoGroupPrefix(queue.lanes(g), 0, Group(queue, g));
    }
    lengths := map g | g in Groups(queue) ::
      var m: nat :| RecordsPrefix(queue.lanes(g), 0, Group(queue, g), m); m;
    forall id
      ensures Reported(queue, id) <==> exists g :: InPrefix(queue, lengths, g, id)
    {
      if g :| g in Groups(queue) && id in Recorded(LaneRun(queue, g).trace) {
        assert InPrefix(queue, lengths, g, id);
      }
      if g :| InPrefix(queue, lengths, g, id) {
        assert id in Recorded(LaneRun(queue, g).trace);
      }
    }
  }

  // The event of the queue an id in a group's prefix belongs to.
  lemma PrefixMember(queue: FifoQueue, g: string, m: nat, j: nat) returns (p: nat)
    requires Grouping.Ascending(queue.events, (c: Candidate) => c.event.id)
    requires j < |queue.events| && m <= |Group(queue, g)|
    requires queue.events[j].event.id in Ids(Group(queue, g)[..m])
    ensures queue.groupId(queue.events[j]) == g && p < m && Group(queue, g)[p] == queue.events[j]
  {
    var id := (c: Candidate) => c.event.id;
    var c :| c in Group(queue, g)[..m] && c.event.id == queue.events[j].event.id;
    p :| 0 <= p < m && Group(queue, g)[p] == c;
    Grouping.FilterMember(queue.events, queue.groupId, g, c);
    var i :| 0 <= i < |queue.events| && queue.events[i] == c;
    Grouping.PositionById(queue.events, id, i, j);
    Grouping.PositionById(queue.events, id, j, i);
  }

  /** An event of the queue is recorded only after every older event of its group: what one
      send leaves behind of a group is all newer than what it recorded. */
  lemma FifoQueueInOrder(queue: FifoQueue, i: nat, j: nat)
    requires QueueAttributed(queue) && Grouping.Ascending(queue.events, (c: Candidate) => c.event.id)
    requires i < j < |queue.events| && queue.groupId(queue.events[i]) == queue.groupId(queue.events[j])
    requires Reported(queue, queue.events[j].event.id)
    ensures Reported(queue, queue.events[i].event.id)
  {
    var id := (c: Candidate) => c.event.id;
    var older, newer := queue.events[i], queue.events[j];
    var lengths := FifoQueuePrefixes(queue);
    var g :| InPrefix(queue, lengths, g, newer.event.id);
    var q := PrefixMember(queue, g, lengths[g], j);
    var group := Group(queue, g);
    Grouping.FilterMember(queue.events, queue.groupId, g, older);
    Grouping.GroupInOrder(queue.events, queue.groupId, g, id);
    var p :| 0 <= p < |group| && group[p] == older;
    Grouping.PositionById(queue.events, id, i, j);
    Grouping.PositionById(group, id, p, q);
    assert group[..lengths[g]][p] == older;
    assert InPrefix(queue, lengths, g, older.event.id);
  }

  // --- standard queues --------------------------------------------------------------------

  // prepareSQSEvent accepts the event.
  predicate IsValid(c: Candidate) {
    c.valid
  }

  // One poison report for each event that cannot be prepared, in order.
  ghost predicate PoisonsInvalid(candidates: seq<Candidate>, ops: seq<Op>) {
    var invalid := Grouping.FilterBy(candidates, IsValid, false);
    |ops| == |invalid| && forall k :: 0 <= k < |ops| ==> ops[k] == Report(Poison(Some(invalid[k].event.id), INVALID))
  }

  // The events that can, in order.
  ghost predicate ArePrepared(candidates: seq<Candidate>, prepared: seq<Prepared>) {
    var valid := Grouping.FilterBy(candidates, IsValid, true);
    |prepared| == |valid| && forall k :: 0 <= k < |prepared| ==> prepared[k] == valid[k].event
  }

  method PrepareAll(candidates: seq<Candidate>) returns (prepared: seq<Prepared>, ops: seq<Op>)
    requires forall c :: c in candidates && c.valid ==> c.event.size <= MAX_BYTES
    ensures ArePrepared(candidates, prepared) && PoisonsInvalid(candidates, ops)
    ensures forall e :: e in prepared ==> e.size <= MAX_BYTES
  {
    prepared, ops := [], [];
    for i := 0 to |candidates|
      invariant ArePrepared(candidates[..i], prepared) && PoisonsInvalid(candidates[..i], ops)
      invariant forall e :: e in prepared ==> e.size <= MAX_BYTES
    {
      assert candidates[..i + 1] == candidates[..i] + [candidates[i]];
      Grouping.FilterPush(candidates[..i], candidates[i], IsValid, true);
      Grouping.FilterPush(candidates[..i], candidates[i], IsValid, false);
      if candidates[i].valid {
        prepared := prepared + [candidates[i].event];
      } else {
        ops := ops + [Report(Poison(Some(candidates[i].event.id), INVALID))];
      }
    }
    assert candidates[..|candidates|] == candidates;
  }

  // One chunk's send: no call once the context is done.
  function ChunkRun(service: Service, chunk: seq<Prepared>): Run {
    if 0 in service.cancelled then Run([], false, Some(Leaf(Provider)))
    else SendBatchRun(service, 0, chunk)
  }

  function ChunkOf(lanes: nat -> Service, chunks: seq<seq<Prepared>>): nat -> (seq<Op>, Error) {
    (k: nat) => if k < |chunks| then (ChunkRun(lanes(k), chunks[k]).trace, ChunkRun(lanes(k), chunks[k]).err) else ([], None)
  }

  function ChunkTraces(lanes: nat -> Service, chunks: seq<seq<Prepared>>): map<nat, seq<Op>> {
    map k: nat | k < |chunks| :: ChunkRun(lanes(k), chunks[k]).trace
  }

  // One chunk's goroutine, and the collection of what it returns.
  method SendChunk(lanes: nat -> Service, chunks: seq<seq<Prepared>>, k: nat, before: Completion<nat, seq<Op>>)
      returns (after: Completion<nat, seq<Op>>)
    requires k < |chunks|
    ensures after == Finish(before, k, ChunkOf(lanes, chunks)(k))
  {
    var session := new Session(lanes(k));
    var _, err := SendWithSemaphore(session, chunks[k]);
    assert session.trace == ChunkRun(lanes(k), chunks[k]).trace;
    after := Finish(before, k, (session.trace, err));
  }

  // provider.RunConcurrent over the chunks; `order` is the order in which they finish.
  method SendChunks(lanes: nat -> Service, chunks: seq<seq<Prepared>>, order: seq<nat>) returns (all: Completion<nat, seq<Op>>)
    requires IsCompletionOrder(order, |chunks|)
    ensures all == FinishAll(order, ChunkOf(lanes, chunks)) && all.results == ChunkTraces(lanes, chunks)
  {
    all := Completion(map[], None);
    for i := 0 to |order|
      invariant all == FinishFirst(order, ChunkOf(lanes, chunks), i)
    {
      all := SendChunk(lanes, chunks, order[i], all);
    }
    FinishAllIsFold(order, ChunkOf(lanes, chunks));
    AllChunks(lanes, chunks, order);
  }

  lemma AllChunks(lanes: nat -> Service, chunks: seq<seq<Prepared>>, order: seq<nat>)
    requires IsCompletionOrder(order, |chunks|)
    ensures FinishAll(order, ChunkOf(lanes, chunks)).results == ChunkTraces(lanes, chunks)
  {
  }

  // What a standard queue sends: the prepared events in the fewest parts within the limits.
  ghost predicate IsPlan(candidates: seq<Candidate>, chunks: seq<seq<Prepared>>) {
    var prepared := Parts.Joined(chunks);
    ArePrepared(candidates, prepared) && IsSplit(chunks, prepared) && AllFit(chunks) && HasFewest(chunks, prepared)
  }

  method Plan(candidates: seq<Candidate>) returns (rejected: seq<Op>, chunks: seq<seq<Prepared>>)
    requires forall c :: c in candidates && c.valid ==> c.event.size <= MAX_BYTES
    ensures PoisonsInvalid(candidates, rejected) && IsPlan(candidates, chunks)
  {
    var prepared;
    prepared, rejected := PrepareAll(candidates);
    chunks := ChunkStandardEvents(prepared);
  }

  // finish(n) is the order in which n sends finish.
  ghost predicate OrdersAll(finish: nat -> seq<nat>) {
    forall n :: IsCompletionOrder(finish(n), n)
  }

  /** sendSQSQueueEvents of a standard queue: what cannot be prepared is poisoned, the rest
      is sent in the fewest parts within the limits, each whatever the others return, and
      takes at most one call per event and one per part. */
  method SendStandardQueue(candidates: seq<Candidate>, lanes: nat -> Service, finish: nat -> seq<nat>)
      returns (rejected: seq<Op>, chunks: seq<seq<Prepared>>, all: Completion<nat, seq<Op>>)
    requires forall c :: c in candidates && c.valid ==> c.event.size <= MAX_BYTES
    requires OrdersAll(finish)
    ensures PoisonsInvalid(candidates, rejected) && IsPlan(candidates, chunks)
    ensures IsCompletionOrder(finish(|chunks|), |chunks|) && all == FinishAll(finish(|chunks|), ChunkOf(lanes, chunks))
    ensures all.results == ChunkTraces(lanes, chunks) && CallsIn(all.results, |chunks|) <= |Parts.Joined(chunks)| + |chunks|
  {
    rejected, chunks := Plan(candidates);
    all := SendChunks(lanes, chunks, finish(|chunks|));
    QueueCallBudget(lanes, chunks);
  }

  // All provider calls of the first n chunks.
  function CallsIn(traces: map<nat, seq<Op>>, n: nat): nat
    requires forall k: nat :: k < n ==> k in traces
  {
    if n == 0 then 0 else CallsIn(traces, n - 1) + CallCount(traces[n - 1])
  }

  // The chunks whose send started, and those of them that were isolated.
  function Started(lanes: nat -> Service, chunks: seq<seq<Prepared>>): nat {
    if chunks == [] then 0
    else
      var last := |chunks| - 1;
      Started(lanes, chunks[..last]) + if 0 in lanes(last).cancelled then 0 else 1
  }

  predicate Isolated(service: Service, chunk: seq<Prepared>) {
    0 !in service.cancelled && Isolates(chunk, Respond(service, 0))
  }

  function IsolatedEvents(lanes: nat -> Service, chunks: seq<seq<Prepared>>): nat {
    if chunks == [] then 0
    else
      var last := |chunks| - 1;
      IsolatedEvents(lanes, chunks[..last]) + if Isolated(lanes(last), chunks[last]) then |chunks[last]| else 0
  }

  /** A standard queue's send makes one call for each chunk it starts and one more for each
      event of a chunk refused as a whole; so at most one per event and one per chunk. */
  lemma QueueCallBudget(lanes: nat -> Service, chunks: seq<seq<Prepared>>)
    requires forall k :: 0 <= k < |chunks| ==> chunks[k] != []
    ensures CallsIn(ChunkTraces(lanes, chunks), |chunks|) == Started(lanes, chunks) + IsolatedEvents(lanes, chunks)
    ensures Started(lanes, chunks) <= |chunks| && IsolatedEvents(lanes, chunks) <= |Parts.Joined(chunks)|
  {
    CallsUpTo(lanes, chunks, |chunks|);
    assert chunks[..|chunks|] == chunks;
  }

  lemma {:induction false} CallsUpTo(lanes: nat -> Service, chunks: seq<seq<Prepared>>, n: nat)
    requires n <= |chunks| && forall k :: 0 <= k < |chunks| ==> chunks[k] != []
    ensures CallsIn(ChunkTraces(lanes, chunks), n) == Started(lanes, chunks[..n]) + IsolatedEvents(lanes, chunks[..n])
    ensures Started(lanes, chunks[..n]) <= n && IsolatedEvents(lanes, chunks[..n]) <= |Parts.Joined(chunks[..n])|
  {
    if n > 0 {
      CallsUpTo(lanes, chunks, n - 1);
      assert chunks[..n][..n - 1] == chunks[..n - 1];
      CallBudget(lanes(n - 1), 0, chunks[n - 1]);
    }
  }
}

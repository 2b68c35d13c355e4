/** The senders obey the relay system's sequencing rule: whenever one of them hands a row
    of an ordering group to its provider, the step Attempt is Ready there.

    The guard is derived from the senders' own runs over the groups of one batch, for
    every sequence of provider answers and every interleaving with other groups.
 */
module SenderOrder {
  import opened Errors
  import opened Routing
  import opened Selection
  import opened RelaySystem
  import Grouping
  import Pubsub = PubsubSender
  import Sqs = SqsSender

  // The rows of row i's ordering group that a batch hands to its sender, oldest first.
  ghost predicate IsGroup(cfg: Settings, s: State, b: Batch, i: RowId, ids: seq<RowId>) {
    && (forall p, q :: 0 <= p < q < |ids| ==> ids[p] < ids[q])
    && (forall j :: j in ids <==> j in b.rows - b.condemned && SameGroup(cfg, s, i, j))
  }

  // What the senders group by: the destination and the ordering key.
  function KeyOf(cfg: Settings, s: State): RowId -> (Option<Route>, string) {
    (j: RowId) => (RouteAt(cfg, s, j), if j in s.history then s.history[j].key else "")
  }

  /** Grouping the dispatched rows of a batch by destination and key yields exactly the
      ordering groups of the system, each in id order. */
  lemma GroupsAreOrderingGroups(cfg: Settings, s: State, r: Relay, b: Batch, dispatched: seq<RowId>, i: RowId)
    requires BatchInv(cfg, s, r, b)
    requires Grouping.Ascending(dispatched, (j: RowId) => j) && forall j :: j in dispatched <==> j in b.rows - b.condemned
    requires i in dispatched && s.history[i].key != ""
    ensures IsGroup(cfg, s, b, i, Grouping.FilterBy(dispatched, KeyOf(cfg, s), KeyOf(cfg, s)(i)))
  {
    var key := KeyOf(cfg, s);
    var ids := Grouping.FilterBy(dispatched, key, key(i));
    Grouping.GroupInOrder(dispatched, key, key(i), (j: RowId) => j);
    forall j
      ensures j in ids <==> j in b.rows - b.condemned && SameGroup(cfg, s, i, j)
    {
      Grouping.FilterMember(dispatched, key, key(i), j);
    }
  }

  // Whatever precedes row ids[j] in its group has an outcome or was passed over.
  lemma EarlierDone(cfg: Settings, s: State, b: Batch, ids: seq<RowId>, j: nat)
    requires j < |ids| && IsGroup(cfg, s, b, ids[j], ids)
    requires forall p :: 0 <= p < j ==> ids[p] in b.confirmed + b.poison + b.passed
    ensures Ready(cfg, s, b, ids[j])
  {
    forall a | a in b.rows - b.condemned && a < ids[j] && SameGroup(cfg, s, ids[j], a)
      ensures a in b.confirmed + b.poison + b.passed
    {
      assert a in ids;
      var p :| 0 <= p < |ids| && ids[p] == a;
      assert p < j;
    }
  }

  predicate FifoListing(ids: seq<RowId>, group: seq<Sqs.Candidate>) {
    |group| == |ids| && forall p | 0 <= p < |ids| :: group[p].event.id == ids[p]
  }

  /** Every call of a FIFO group's send is Ready: when the group's row j goes out, what the
      send recorded so far has reached the batch, and the rows whose own call was answered
      astray are the ones passed over. */
  lemma FifoCallIsReady(
    cfg: Settings, s: State, b: Batch, ids: seq<RowId>, group: seq<Sqs.Candidate>, service: Sqs.Service, n: nat, q: nat, j: nat)
    requires j < |ids| && IsGroup(cfg, s, b, ids[j], ids) && FifoListing(ids, group) && Sqs.DistinctGroup(group)
    requires var trace := Sqs.FifoGroupRun(service, n, group).trace;
             && q < |trace| && Sqs.CallsFor(trace, q, group[j].event.entry)
             && Sqs.Recorded(trace[..q]) <= b.confirmed + b.poison
             && forall i, p :: 0 <= i < |ids| && 0 <= p < q && Sqs.StrayAt(trace, p, group[i].event.entry) ==> ids[i] in b.passed
    ensures Ready(cfg, s, b, ids[j])
  {
    var trace := Sqs.FifoGroupRun(service, n, group).trace;
    Sqs.FifoInTurn(service, n, group);
    assert Sqs.InTurn(group, trace, q);
    var k :| 0 <= k < |group| && Sqs.TurnOf(group, trace, q, k);
    assert trace[q].entries[0] == group[k].event.entry;
    assert k == j;
    forall p | 0 <= p < j
      ensures ids[p] in b.confirmed + b.poison + b.passed
    {
      assert Sqs.Accounted(trace, q, group[p].event);
    }
    EarlierDone(cfg, s, b, ids, j);
  }

  /** When every answer names only the entries it was asked about, no row is ever passed
      over, so every call is Ready by recorded outcomes alone. */
  lemma FifoCallIsReadyWhenNamed(
    cfg: Settings, s: State, b: Batch, ids: seq<RowId>, group: seq<Sqs.Candidate>, service: Sqs.Service, n: nat, q: nat, j: nat)
    requires j < |ids| && IsGroup(cfg, s, b, ids[j], ids) && FifoListing(ids, group) && Sqs.DistinctGroup(group)
    requires var trace := Sqs.FifoGroupRun(service, n, group).trace;
             && q < |trace| && Sqs.CallsFor(trace, q, group[j].event.entry)
             && Sqs.Recorded(trace[..q]) <= b.confirmed + b.poison
             && forall p :: 0 <= p < q && trace[p].Call? ==> Sqs.NamesOnly(trace[p].outcome, trace[p].entries)
    ensures Ready(cfg, s, b, ids[j])
  {
    var trace := Sqs.FifoGroupRun(service, n, group).trace;
    forall i, p | 0 <= i < |ids| && 0 <= p < q
      ensures !Sqs.StrayAt(trace, p, group[i].event.entry)
    {
      if Sqs.CallsFor(trace, p, group[i].event.entry) {
        Sqs.NamesOnlyIsAttributed(trace[p].outcome, group[i].event.entry);
      }
    }
    FifoCallIsReady(cfg, s, b, ids, group, service, n, q, j);
  }

  predicate OrderedListing(ids: seq<RowId>, group: seq<Pubsub.Candidate>) {
    |group| == |ids| && forall p | 0 <= p < |ids| :: group[p].id == ids[p]
  }

  /** Every publish of an ordering-key group's send, the isolated ones included, is Ready by
      recorded outcomes alone, whatever the publishes before it returned. */
  lemma PublishIsReady(
    cfg: Settings, s: State, b: Batch, ids: seq<RowId>, group: seq<Pubsub.Candidate>, script: seq<Pubsub.Result>, n: nat, q: nat, j: nat)
    requires j < |ids| && IsGroup(cfg, s, b, ids[j], ids) && OrderedListing(ids, group)
    requires var trace := Pubsub.OrderedGroupRun(script, n, group).trace;
             && q < |trace| && trace[q].Publish? && trace[q].id == ids[j]
             && Pubsub.Recorded(trace[..q]) <= b.confirmed + b.poison
    ensures Ready(cfg, s, b, ids[j])
  {
    var trace := Pubsub.OrderedGroupRun(script, n, group).trace;
    var m := Pubsub.OrderedGroupPrefix(script, n, group);
    assert Pubsub.PublishReady(group, trace, q);
    var k :| 0 <= k < |group| && group[k].valid && trace[q].id == group[k].id && Pubsub.Ids(group[..k]) <= Pubsub.Recorded(trace[..q]);
    assert ids[k] == ids[j] && k == j;
    forall p | 0 <= p < j
      ensures ids[p] in b.confirmed + b.poison + b.passed
    {
      assert group[p] in group[..j] && group[p].id in Pubsub.Ids(group[..j]);
    }
    EarlierDone(cfg, s, b, ids, j);
  }
}

/** From a publish with unknown outcome to the end of the process: an ordered Pub/Sub
    publish that ends in DeadlineExceeded stops the main loop, through the joins of the
    sender, of the batch and of the transaction, whatever else fails in that batch.
 */
module FatalStop {
  import opened Errors
  import opened Processor
  import opened BatchLoop
  import Pubsub = PubsubSender

  const PUBSUB := "pubsub"

  // One call of the Pub/Sub sender: the events whose options parsed, the publish results
  // of the unordered path and of each ordering group, and the groups' finishing order.
  datatype Send = Send(events: seq<Pubsub.Event>, script: seq<Pubsub.Result>, scripts: Pubsub.Scripts, finish: seq<string>)

  ghost predicate FromBatch(cfg: Settings, w: World, e: Pubsub.Event) {
    exists b :: b in ForTarget(cfg, w.events, w.now, PUBSUB) && b.id == e.candidate.id && b.route.destination == e.topic
  }

  // The batch's Pub/Sub sender ran as `send` says and returned its error.
  ghost predicate RanAs(cfg: Settings, w: World, send: Send) {
    && (forall e :: e in send.events ==> FromBatch(cfg, w, e))
    && Pubsub.Foreign(send.script)
    && (forall g :: g in send.finish <==> g in Pubsub.Groups(send.events))
    && (forall g :: g in send.finish ==> Pubsub.Foreign(Pubsub.ScriptOf(send.scripts, g)))
    && PUBSUB in w.order
    && RunOf(w, PUBSUB).err == Pubsub.SendError(send.events, send.script, send.scripts, send.finish)
  }

  // Some publish of some ordering group ended in DeadlineExceeded.
  ghost predicate OrderedTimeout(send: Send) {
    exists g :: Pubsub.GroupTimedOut(send.events, send.scripts, g)
  }

  lemma TimeoutHasEvents(cfg: Settings, w: World, send: Send)
    requires RanAs(cfg, w, send) && OrderedTimeout(send)
    ensures ForTarget(cfg, w.events, w.now, PUBSUB) != []
  {
    var g :| Pubsub.GroupTimedOut(send.events, send.scripts, g);
    var e :| e in send.events && Pubsub.IsOrdered(e) && Pubsub.GroupId(e) == g;
    assert FromBatch(cfg, w, e);
  }

  /** A batch that publishes stops the loop exactly when an ordered publish of its Pub/Sub
      send ended in DeadlineExceeded, in whatever order groups and senders finish and
      whichever of its dead letters, deletes or commit fails afterwards. */
  lemma StopIffOrderedTimeout(cfg: Settings, w: World, send: Send)
    requires Publishes(cfg, w) && RanAs(cfg, w, send)
    requires forall target :: target in w.order && target != PUBSUB ==> !Is(RunOf(w, target).err, FatalAfterCommit)
    ensures NextAfter(cfg, w) == Stop <==> OrderedTimeout(send)
  {
    Pubsub.SendFatalIff(send.events, send.script, send.scripts, send.finish);
    if OrderedTimeout(send) {
      TimeoutHasEvents(cfg, w, send);
      assert Reports(cfg, w, w.order, FatalAfterCommit);
    }
  }

  /** Once an ordered publish of a batch has an unknown outcome, no later batch of any
      script is ever run. */
  lemma TimeoutEndsRun(cfg: Settings, worlds: seq<World>, actions: seq<Next>, k: nat, send: Send)
    requires LoopResult(cfg, worlds, actions)
    requires k < |worlds| && Publishes(cfg, worlds[k]) && RanAs(cfg, worlds[k], send) && OrderedTimeout(send)
    ensures |actions| <= k + 1
  {
    var w := worlds[k];
    Pubsub.SendFatalIff(send.events, send.script, send.scripts, send.finish);
    TimeoutHasEvents(cfg, w, send);
    assert Reports(cfg, w, w.order, FatalAfterCommit);
    NothingAfterStop(cfg, worlds, actions, k);
  }
}

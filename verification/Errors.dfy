/** Go error trees as the relay builds and inspects them: errors.Join, errors.Is,
    the two sentinels of the batch loop, and RunConcurrent's joining of errors in
    completion order. A nil error is None.
 */
module Errors {

  datatype Option<+T> = None | Some(value: T)

  // Sentinels and the error classes the senders tell apart. Provider is any
  // other error a provider client returns.
  datatype Kind = FatalAfterCommit | DatabaseBatch | DeadlineExceeded | Permanent | Provider

  // Wrap is a single-error wrapper (Unwrap() error), Joined a multi-error one
  // (Unwrap() []error).
  datatype Err = Leaf(kind: Kind) | Wrap(inner: Err) | Joined(items: seq<Err>)

  type Error = Option<Err>

  // errors.Is for a sentinel.
  predicate ErrIs(e: Err, kind: Kind) {
    match e
    case Leaf(k) => k == kind
    case Wrap(inner) => ErrIs(inner, kind)
    case Joined(items) => exists i | 0 <= i < |items| :: ErrIs(items[i], kind)
  }

  predicate Is(e: Error, kind: Kind) {
    e.Some? && ErrIs(e.value, kind)
  }

  // errors.Join of two operands: nils are dropped, and joining only nils gives nil.
  function Join(a: Error, b: Error): Error {
    match (a, b)
    case (None, None) => None
    case (Some(x), None) => Some(Joined([x]))
    case (None, Some(y)) => Some(Joined([y]))
    case (Some(x), Some(y)) => Some(Joined([x, y]))
  }

  lemma JoinIs(a: Error, b: Error, kind: Kind)
    ensures Is(Join(a, b), kind) <==> Is(a, kind) || Is(b, kind)
  {
    if a.Some? && b.Some? {
      assert [a.value, b.value][0] == a.value && [a.value, b.value][1] == b.value;
    } else if a.Some? || b.Some? {
      var only := if a.Some? then a.value else b.value;
      assert Join(a, b) == Some(Joined([only])) && [only][0] == only;
    }
  }

  // The non-joined errors of a tree, left to right.
  function Leaves(e: Err): seq<Err> {
    match e
    case Joined(items) => LeavesOf(items)
    case _ => [e]
  }

  function LeavesOf(items: seq<Err>): seq<Err> {
    if items == [] then [] else Leaves(items[0]) + LeavesOf(items[1..])
  }

  // No node joins an empty list; errors.Join never builds one.
  predicate NoEmptyJoin(e: Err) {
    match e
    case Joined(items) => items != [] && forall i | 0 <= i < |items| :: NoEmptyJoin(items[i])
    case _ => true
  }

  function CountJoinedErrors(e: Error): nat {
    if e.None? then 0 else CountErr(e.value)
  }

  function CountErr(e: Err): nat {
    match e
    case Joined(items) => CountItems(items)
    case _ => 1
  }

  function CountItems(items: seq<Err>): nat {
    if items == [] then 0 else CountErr(items[0]) + CountItems(items[1..])
  }

  lemma {:induction false} CountIsLeafCount(e: Err)
    ensures CountErr(e) == |Leaves(e)|
    decreases e, 0
  {
    match e
    case Joined(items) => CountItemsIsLeafCount(items);
    case _ =>
  }

  lemma {:induction false} CountItemsIsLeafCount(items: seq<Err>)
    ensures CountItems(items) == |LeavesOf(items)|
    decreases items, 1
  {
    if items != [] {
      CountIsLeafCount(items[0]);
      CountItemsIsLeafCount(items[1..]);
    }
  }

  // The node a walk along first operands ends at lies inside e, on its left edge.
  predicate OnLeftEdge(e: Err, node: Err) {
    e == node || (e.Joined? && e.items != [] && OnLeftEdge(e.items[0], node))
  }

  lemma {:induction false} LeftEdgeLeaves(e: Err, node: Err)
    requires OnLeftEdge(e, node) && Leaves(node) != []
    ensures Leaves(e) != [] && Leaves(e)[0] == Leaves(node)[0]
  {
    if e != node {
      LeftEdgeLeaves(e.items[0], node);
    }
  }

  lemma {:induction false} LeftEdgeStep(e: Err, node: Err)
    requires OnLeftEdge(e, node) && node.Joined? && node.items != []
    ensures OnLeftEdge(e, node.items[0])
  {
    if e != node {
      LeftEdgeStep(e.items[0], node);
    }
  }

  lemma {:induction false} LeftEdgeNoEmptyJoin(e: Err, node: Err)
    requires OnLeftEdge(e, node) && NoEmptyJoin(e)
    ensures NoEmptyJoin(node)
  {
    if e != node {
      LeftEdgeNoEmptyJoin(e.items[0], node);
    }
  }

  /** firstLeafError: follows the first operand of every joined error. The result is the
      leftmost leaf of the tree, or an empty join on its left edge; a tree errors.Join
      can build has no empty join, so there it is always the leftmost leaf. */
  method FirstLeafError(e: Err) returns (leaf: Err)
    ensures OnLeftEdge(e, leaf)
    ensures if leaf.Joined? then leaf.items == [] else Leaves(e) != [] && leaf == Leaves(e)[0]
    ensures NoEmptyJoin(e) ==> !leaf.Joined?
  {
    leaf := e;
    while leaf.Joined? && leaf.items != []
      invariant OnLeftEdge(e, leaf)
      decreases leaf
    {
      LeftEdgeStep(e, leaf);
      leaf := leaf.items[0];
    }
    if leaf.Joined? {
      if NoEmptyJoin(e) {
        LeftEdgeNoEmptyJoin(e, leaf);
      }
    } else {
      LeftEdgeLeaves(e, leaf);
    }
  }

  // --- provider.RunConcurrent -------------------------------------------------

  // The fold `joined = errors.Join(joined, err)` over the errors in the order the
  // goroutines finished; goroutines that returned nil send nothing.
  function JoinCompleted(completed: seq<Error>): Error {
    if completed == [] then None
    else
      var sofar := JoinCompleted(completed[..|completed| - 1]);
      var last := completed[|completed| - 1];
      if last.None? then sofar else Join(sofar, last)
  }

  lemma JoinNext(completed: seq<Error>, k: nat)
    requires k < |completed|
    ensures JoinCompleted(completed[..k + 1])
         == if completed[k].None? then JoinCompleted(completed[..k]) else Join(JoinCompleted(completed[..k]), completed[k])
  {
    assert completed[..k + 1][..k] == completed[..k];
  }

  predicate IsCompletionOrder(order: seq<nat>, n: nat) {
    && |order| == n
    && (forall i | 0 <= i < n :: i in order)
    && (forall i | 0 <= i < n :: order[i] < n)
  }

  // Every item runs, whatever the others return; `order` is the order in which
  // the goroutines finish.
  method RunConcurrent<T>(items: seq<T>, run: T -> Error, order: seq<nat>) returns (joined: Error)
    requires IsCompletionOrder(order, |items|)
    ensures joined == JoinCompleted(seq(|order|, i requires 0 <= i < |order| => run(items[order[i]])))
    ensures forall kind :: Is(joined, kind) <==> exists i :: 0 <= i < |items| && Is(run(items[i]), kind)
  {
    ghost var completed := seq(|order|, i requires 0 <= i < |order| => run(items[order[i]]));
    joined := None;
    for j := 0 to |order|
      invariant joined == JoinCompleted(completed[..j])
    {
      var err := run(items[order[j]]);
      JoinNext(completed, j);
      if err.Some? {
        joined := Join(joined, err);
      }
    }
    assert completed[..|order|] == completed;
    forall kind
      ensures Is(joined, kind) <==> exists i :: 0 <= i < |items| && Is(run(items[i]), kind)
    {
      JoinCompletedIs(completed, kind);
      if i :| 0 <= i < |items| && Is(run(items[i]), kind) {
        assert i in order;
        var j :| 0 <= j < |order| && order[j] == i;
        assert Is(completed[j], kind);
      }
      if j :| 0 <= j < |completed| && Is(completed[j], kind) {
        assert Is(run(items[order[j]]), kind);
      }
    }
  }

  // What concurrent work leaves behind: the result of each piece, and the joined errors.
  datatype Completion<!K, T> = Completion(results: map<K, T>, joined: Error)

  function Finish<K, T>(sofar: Completion<K, T>, k: K, result: (T, Error)): Completion<K, T> {
    Completion(sofar.results[k := result.0], if result.1.Some? then Join(sofar.joined, result.1) else sofar.joined)
  }

  // After the first n pieces have finished.
  function FinishFirst<K, T>(order: seq<K>, run: K -> (T, Error), n: nat): Completion<K, T>
    requires n <= |order|
  {
    if n == 0 then Completion(map[], None)
    else Finish(FinishFirst(order, run, n - 1), order[n - 1], run(order[n - 1]))
  }

  // All results, and the errors joined in the order in which the pieces finish.
  function FinishAll<K(==), T>(order: seq<K>, run: K -> (T, Error)): Completion<K, T> {
    Completion(map k | k in order :: run(k).0, JoinCompleted(ErrorsOf(order, run)))
  }

  function ErrorsOf<K, T>(order: seq<K>, run: K -> (T, Error)): (errs: seq<Error>)
    ensures |errs| == |order| && forall i | 0 <= i < |order| :: errs[i] == run(order[i]).1
  {
    seq(|order|, i requires 0 <= i < |order| => run(order[i]).1)
  }

  lemma {:induction false} FinishedResults<K, T>(order: seq<K>, run: K -> (T, Error), n: nat)
    requires n <= |order|
    ensures FinishFirst(order, run, n).results == map k | k in order[..n] :: run(k).0
  {
    if n > 0 {
      FinishedResults(order, run, n - 1);
      assert order[..n] == order[..n - 1] + [order[n - 1]];
    }
  }

  lemma {:induction false} FinishedErrors<K, T>(order: seq<K>, run: K -> (T, Error), n: nat)
    requires n <= |order|
    ensures FinishFirst(order, run, n).joined == JoinCompleted(ErrorsOf(order, run)[..n])
  {
    if n > 0 {
      FinishedErrors(order, run, n - 1);
      JoinNext(ErrorsOf(order, run), n - 1);
    }
  }

  lemma FinishAllIsFold<K, T>(order: seq<K>, run: K -> (T, Error))
    ensures FinishFirst(order, run, |order|) == FinishAll(order, run)
  {
    FinishedResults(order, run, |order|);
    FinishedErrors(order, run, |order|);
    assert order[..|order|] == order;
    var errs := ErrorsOf(order, run);
    assert errs[..|order|] == errs;
  }

  lemma {:induction false} JoinCompletedIs(completed: seq<Error>, kind: Kind)
    ensures Is(JoinCompleted(completed), kind) <==> exists i :: 0 <= i < |completed| && Is(completed[i], kind)
  {
    if completed != [] {
      var init, last := completed[..|completed| - 1], completed[|completed| - 1];
      JoinCompletedIs(init, kind);
      JoinIs(JoinCompleted(init), last, kind);
      assert forall i :: 0 <= i < |init| ==> init[i] == completed[i];
    }
  }

  function SumCounts(completed: seq<Error>): nat {
    if completed == [] then 0
    else SumCounts(completed[..|completed| - 1]) + CountJoinedErrors(completed[|completed| - 1])
  }

  /** The sender error count of a batch does not depend on the order in which the
      concurrent operations finish or on how deeply their errors are joined. */
  lemma {:induction false} JoinCompletedCount(completed: seq<Error>)
    ensures CountJoinedErrors(JoinCompleted(completed)) == SumCounts(completed)
  {
    if completed != [] {
      var init, last := completed[..|completed| - 1], completed[|completed| - 1];
      JoinCompletedCount(init);
      var sofar := JoinCompleted(init);
      if last.Some? {
        JoinCount(sofar, last);
      }
    }
  }

  lemma JoinCount(a: Error, b: Error)
    ensures CountJoinedErrors(Join(a, b)) == CountJoinedErrors(a) + CountJoinedErrors(b)
  {
    if a.Some? && b.Some? {
      assert [a.value, b.value][1..] == [b.value];
      assert [b.value][1..] == [];
      assert CountItems([b.value]) == CountErr(b.value);
      assert CountItems([a.value, b.value]) == CountErr(a.value) + CountItems([b.value]);
    } else if a.Some? || b.Some? {
      var only := if a.Some? then a.value else b.value;
      assert Join(a, b) == Some(Joined([only]));
      assert [only][1..] == [];
      assert CountItems([only]) == CountErr(only);
    }
  }
}

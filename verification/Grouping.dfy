/** The group-by-key step both senders take before they sequence an ordering group:
    a map of groups and the keys in order of first appearance.
 */
module Grouping {

  function FilterBy<E, K(==)>(events: seq<E>, key: E -> K, k: K): seq<E> {
    if events == [] then []
    else
      var init, last := events[..|events| - 1], events[|events| - 1];
      FilterBy(init, key, k) + if key(last) == k then [last] else []
  }

  function KeySet<E, K(==)>(events: seq<E>, key: E -> K): set<K> {
    set i | 0 <= i < |events| :: key(events[i])
  }

  predicate NoRepeats<K(==)>(keys: seq<K>) {
    forall i, j | 0 <= i < j < |keys| :: keys[i] != keys[j]
  }

  // Each key once.
  ghost predicate IsListing<E, K>(order: seq<K>, events: seq<E>, key: E -> K) {
    NoRepeats(order) && (set k | k in order) == KeySet(events, key) && ByFirstEvent(order, events, key)
  }

  // Some event has the key of order[a], and no event up to it the key of order[b].
  predicate Precedes<E, K(==)>(order: seq<K>, events: seq<E>, key: E -> K, a: int, b: int)
    requires 0 <= a < |order| && 0 <= b < |order|
  {
    exists i | 0 <= i < |events| :: key(events[i]) == order[a] && forall j | 0 <= j <= i :: key(events[j]) != order[b]
  }

  // Keys come in the order in which they first appear.
  predicate ByFirstEvent<E, K(==)>(order: seq<K>, events: seq<E>, key: E -> K) {
    forall a, b | 0 <= a < b < |order| :: Precedes(order, events, key, a, b)
  }

  // Each event in its key's group, in order.
  ghost predicate IsGrouping<E, K>(groups: map<K, seq<E>>, events: seq<E>, key: E -> K) {
    groups.Keys == KeySet(events, key) && forall k :: k in groups ==> groups[k] == FilterBy(events, key, k)
  }

  method GroupByKey<E, K(==)>(events: seq<E>, key: E -> K) returns (groups: map<K, seq<E>>, order: seq<K>)
    ensures NoRepeats(order) && (forall k :: k in order <==> k in KeySet(events, key)) && ByFirstEvent(order, events, key)
    ensures groups.Keys == KeySet(events, key)
    ensures forall k :: k in groups ==> groups[k] == FilterBy(events, key, k)
  {
    groups, order := map[], [];
    for i := 0 to |events|
      invariant IsListing(order, events[..i], key) && IsGrouping(groups, events[..i], key)
    {
      var evt := events[i];
      var k := key(evt);
      assert events[..i + 1] == events[..i] + [evt];
      ListingStep(order, events[..i], key, evt);
      GroupingStep(groups, events[..i], key, evt);
      if k !in groups {
        order := order + [k];
      }
      groups := groups[k := (if k in groups then groups[k] else []) + [evt]];
    }
    assert events[..|events|] == events;
    assert forall k :: k in order <==> k in set k' | k' in order;
  }

  lemma KeySetAppend<E, K>(events: seq<E>, key: E -> K, e: E)
    ensures KeySet(events + [e], key) == KeySet(events, key) + {key(e)}
  {
    var all := events + [e];
    assert all[|events|] == e && forall i :: 0 <= i < |events| ==> all[i] == events[i];
    assert forall i :: 0 <= i < |events| ==> key(events[i]) == key(all[i]) && key(all[i]) in KeySet(all, key);
    assert key(all[|events|]) in KeySet(all, key);
  }

  lemma ListingStep<E, K>(order: seq<K>, events: seq<E>, key: E -> K, e: E)
    requires IsListing(order, events, key)
    ensures IsListing(if key(e) in order then order else order + [key(e)], events + [e], key)
  {
    KeySetAppend(events, key, e);
    var after := if key(e) in order then order else order + [key(e)];
    forall a, b | 0 <= a < b < |after|
      ensures Precedes(after, events + [e], key, a, b)
    {
      KeepsPreceding(order, after, events, key, e, a, b);
    }
  }

  lemma KeepsPreceding<E, K>(order: seq<K>, after: seq<K>, events: seq<E>, key: E -> K, e: E, a: int, b: int)
    requires IsListing(order, events, key) && 0 <= a < b < |after|
    requires after == if key(e) in order then order else order + [key(e)]
    ensures Precedes(after, events + [e], key, a, b)
  {
    if b < |order| {
      assert Precedes(order, events, key, a, b);
      var i :| 0 <= i < |events| && key(events[i]) == order[a] && forall j | 0 <= j <= i :: key(events[j]) != order[b];
      assert (events + [e])[i] == events[i] && forall j | 0 <= j <= i :: (events + [e])[j] == events[j];
    } else {
      var listed := set k | k in order;
      assert order[a] in order && order[a] in listed && order[a] in KeySet(events, key);
      var i :| 0 <= i < |events| && key(events[i]) == order[a];
      forall j | 0 <= j <= i
        ensures key((events + [e])[j]) != key(e)
      {
        assert key(events[j]) in KeySet(events, key) && (events + [e])[j] == events[j];
      }
      assert (events + [e])[i] == events[i];
    }
  }

  lemma GroupingStep<E, K>(groups: map<K, seq<E>>, events: seq<E>, key: E -> K, e: E)
    requires IsGrouping(groups, events, key)
    ensures IsGrouping(groups[key(e) := (if key(e) in groups then groups[key(e)] else []) + [e]], events + [e], key)
  {
    KeySetAppend(events, key, e);
    assert (events + [e])[..|events|] == events;
    if key(e) !in groups {
      NoGroup(events, key, key(e));
    }
  }

  lemma FilterPush<E, K>(events: seq<E>, e: E, key: E -> K, k: K)
    ensures FilterBy(events + [e], key, k) == FilterBy(events, key, k) + if key(e) == k then [e] else []
  {
    assert (events + [e])[..|events|] == events;
  }

  // A key no event has selects nothing.
  lemma {:induction false} NoGroup<E, K>(events: seq<E>, key: E -> K, k: K)
    requires k !in KeySet(events, key)
    ensures FilterBy(events, key, k) == []
    decreases |events|
  {
    if events != [] {
      var init := events[..|events| - 1];
      assert forall i :: 0 <= i < |init| ==> key(init[i]) == key(events[i]) && key(events[i]) in KeySet(events, key);
      assert key(events[|events| - 1]) in KeySet(events, key);
      NoGroup(init, key, k);
    }
  }

  function Concat<E, K(==)>(events: seq<E>, key: E -> K, order: seq<K>): seq<E> {
    if order == [] then []
    else Concat(events, key, order[..|order| - 1]) + FilterBy(events, key, order[|order| - 1])
  }

  // e itself, or nothing.
  function One<E>(e: E, counted: bool): multiset<E> {
    if counted then multiset{e} else multiset{}
  }

  lemma {:induction false} ConcatAppend<E, K>(events: seq<E>, e: E, key: E -> K, order: seq<K>)
    requires NoRepeats(order)
    ensures multiset(Concat(events + [e], key, order)) == multiset(Concat(events, key, order)) + One(e, key(e) in order)
  {
    if order != [] {
      var init, last := order[..|order| - 1], order[|order| - 1];
      assert key(e) in order <==> key(e) in init || key(e) == last by {
        assert order == init + [last];
      }
      assert last !in init;
      ConcatAppend(events, e, key, init);
      FilterAppend(events, e, key, last);
      ConcatCounts(events, key, order);
      ConcatCounts(events + [e], key, order);
      OneSum(multiset(Concat(events, key, init)), multiset(FilterBy(events, key, last)), e, key(e) in init, key(e) == last);
    }
  }

  lemma OneSum<E>(a: multiset<E>, b: multiset<E>, e: E, inA: bool, inB: bool)
    requires !(inA && inB)
    ensures (a + One(e, inA)) + (b + One(e, inB)) == (a + b) + One(e, inA || inB)
  {
  }

  lemma ConcatCounts<E, K>(events: seq<E>, key: E -> K, order: seq<K>)
    requires order != []
    ensures multiset(Concat(events, key, order))
         == multiset(Concat(events, key, order[..|order| - 1])) + multiset(FilterBy(events, key, order[|order| - 1]))
  {
  }

  lemma FilterAppend<E, K>(events: seq<E>, e: E, key: E -> K, k: K)
    ensures multiset(FilterBy(events + [e], key, k)) == multiset(FilterBy(events, key, k)) + One(e, key(e) == k)
  {
    assert (events + [e])[..|events|] == events;
  }

  lemma {:induction false} ConcatEmpty<E, K>(key: E -> K, order: seq<K>)
    ensures Concat([], key, order) == []
  {
    if order != [] {
      ConcatEmpty(key, order[..|order| - 1]);
    }
  }

  /** The groups partition the events: every event is in exactly one group. */
  lemma {:induction false} GroupsPartition<E, K>(events: seq<E>, key: E -> K, order: seq<K>)
    requires NoRepeats(order) && forall k :: k in KeySet(events, key) ==> k in order
    ensures multiset(Concat(events, key, order)) == multiset(events)
    decreases |events|
  {
    if events == [] {
      ConcatEmpty(key, order);
    } else {
      var init, last := events[..|events| - 1], events[|events| - 1];
      assert events == init + [last];
      assert forall k :: k in KeySet(init, key) ==> k in KeySet(events, key);
      assert key(last) in KeySet(events, key);
      GroupsPartition(init, key, order);
      ConcatAppend(init, last, key, order);
    }
  }

  ghost predicate Ascending<E>(events: seq<E>, id: E -> nat) {
    forall i, j :: 0 <= i < j < |events| ==> id(events[i]) < id(events[j])
  }

  // Ids tell the positions of an ascending list apart.
  lemma PositionById<E>(events: seq<E>, id: E -> nat, i: nat, j: nat)
    requires Ascending(events, id) && i < |events| && j < |events|
    ensures (id(events[i]) < id(events[j]) <==> i < j) && (events[i] == events[j] <==> i == j)
  {
    if i < j {
      assert id(events[i]) < id(events[j]);
    } else if j < i {
      assert id(events[j]) < id(events[i]);
    }
  }

  lemma {:induction false} FilterMember<E, K>(events: seq<E>, key: E -> K, k: K, e: E)
    ensures e in FilterBy(events, key, k) <==> e in events && key(e) == k
    decreases |events|
  {
    if events != [] {
      var init, last := events[..|events| - 1], events[|events| - 1];
      FilterMember(init, key, k, e);
      assert events == init + [last];
    }
  }

  /** A group keeps its events in id order. */
  lemma {:induction false} GroupInOrder<E, K>(events: seq<E>, key: E -> K, k: K, id: E -> nat)
    requires Ascending(events, id)
    ensures Ascending(FilterBy(events, key, k), id)
    decreases |events|
  {
    if events != [] {
      var init, last := events[..|events| - 1], events[|events| - 1];
      GroupInOrder(init, key, k, id);
      var kept, all := FilterBy(init, key, k), FilterBy(events, key, k);
      forall i, j | 0 <= i < j < |all|
        ensures id(all[i]) < id(all[j])
      {
        if j == |kept| {
          FilterMember(init, key, k, kept[i]);
          var p :| 0 <= p < |init| && init[p] == kept[i];
          assert events[p] == kept[i];
        }
      }
    }
  }
}

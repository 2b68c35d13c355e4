/** chunkSQSStandardEvents: splitting a standard queue's events into batch requests of at
    most ten entries and one MiB. The greedy split uses as few requests as any.
 */
module Chunking {

  const BATCH_SIZE := 10
  const MAX_BYTES := 1024 * 1024

  datatype Prepared = Prepared(id: nat, entry: string, size: nat)

  function TotalSize(events: seq<Prepared>): nat {
    if events == [] then 0 else TotalSize(events[..|events| - 1]) + events[|events| - 1].size
  }

  predicate Fits(events: seq<Prepared>) {
    |events| <= BATCH_SIZE && TotalSize(events) <= MAX_BYTES
  }

  function Joined(chunks: seq<seq<Prepared>>): seq<Prepared> {
    if chunks == [] then [] else Joined(chunks[..|chunks| - 1]) + chunks[|chunks| - 1]
  }

  ghost predicate IsSplit(chunks: seq<seq<Prepared>>, events: seq<Prepared>) {
    && Joined(chunks) == events
    && forall i :: 0 <= i < |chunks| ==> chunks[i] != []
  }

  predicate AllFit(chunks: seq<seq<Prepared>>) {
    forall i | 0 <= i < |chunks| :: Fits(chunks[i])
  }

  // No chunk could have taken the first event of the next one.
  ghost predicate Full(chunks: seq<seq<Prepared>>) {
    forall i: nat :: i + 1 < |chunks| ==> FullAt(chunks, i)
  }

  predicate FullAt(chunks: seq<seq<Prepared>>, i: nat)
    requires i + 1 < |chunks|
  {
    FullBefore(chunks[i], chunks[i + 1])
  }

  predicate FullBefore(chunk: seq<Prepared>, next: seq<Prepared>) {
    next != [] && !Fits(chunk + [next[0]])
  }

  /** The chunks concatenate to the events in order, none is empty, each respects both
      limits, and no contiguous split within the limits has fewer parts. */
  method ChunkStandardEvents(events: seq<Prepared>) returns (chunks: seq<seq<Prepared>>)
    requires forall e :: e in events ==> e.size <= MAX_BYTES
    ensures IsSplit(chunks, events)
    ensures AllFit(chunks)
    ensures HasFewest(chunks, events)
  {
    chunks := [];
    var current: seq<Prepared> := [];
    var currentSize := 0;
    for i := 0 to |events|
      invariant Greedy(chunks, current, currentSize, events[..i])
    {
      var evt := events[i];
      assert events[..i + 1] == events[..i] + [evt];
      PlaceEvent(chunks, current, currentSize, events[..i], evt);
      if |current| > 0 && (|current| >= BATCH_SIZE || currentSize + evt.size > MAX_BYTES) {
        chunks := chunks + [current];
        current := [];
        currentSize := 0;
      }
      current := current + [evt];
      currentSize := currentSize + evt.size;
    }
    assert events[..|events|] == events;
    if |current| > 0 {
      LastChunk(chunks, current, events);
      chunks := chunks + [current];
    }
    FullIsOptimal(chunks, events);
  }

  // The loop's state: finished chunks and the one being filled.
  ghost predicate Splitting(chunks: seq<seq<Prepared>>, current: seq<Prepared>, done: seq<Prepared>) {
    && Joined(chunks) + current == done
    && Fits(current)
    && (forall j :: 0 <= j < |chunks| ==> chunks[j] != [])
    && AllFit(chunks)
    && Full(chunks)
    && (chunks != [] ==> FullBefore(chunks[|chunks| - 1], current))
  }

  // The loop's state with the running size of the current chunk.
  ghost predicate Greedy(chunks: seq<seq<Prepared>>, current: seq<Prepared>, currentSize: int, done: seq<Prepared>) {
    Splitting(chunks, current, done) && currentSize == TotalSize(current) && (done != [] ==> current != [])
  }

  predicate StartsChunk(current: seq<Prepared>, currentSize: int, evt: Prepared) {
    |current| > 0 && (|current| >= BATCH_SIZE || currentSize + evt.size > MAX_BYTES)
  }

  // Where the next event goes: into a chunk of its own, or into the current one.
  lemma PlaceEvent(chunks: seq<seq<Prepared>>, current: seq<Prepared>, currentSize: int, done: seq<Prepared>, evt: Prepared)
    requires Greedy(chunks, current, currentSize, done) && evt.size <= MAX_BYTES
    ensures if StartsChunk(current, currentSize, evt)
            then Greedy(chunks + [current], [] + [evt], 0 + evt.size, done + [evt])
            else Greedy(chunks, current + [evt], currentSize + evt.size, done + [evt])
  {
    TotalSizeAppend(current, evt);
    TotalSizeAppend([], evt);
    if StartsChunk(current, currentSize, evt) {
      CloseChunk(chunks, current, done, evt);
    } else {
      ExtendChunk(chunks, current, done, evt);
    }
  }

  // No contiguous split within the limits has fewer parts.
  ghost predicate HasFewest(chunks: seq<seq<Prepared>>, events: seq<Prepared>) {
    forall split :: IsSplit(split, events) && AllFit(split) ==> |chunks| <= |split|
  }

  lemma TotalSizeAppend(events: seq<Prepared>, evt: Prepared)
    ensures TotalSize(events + [evt]) == TotalSize(events) + evt.size
  {
    assert (events + [evt])[..|events|] == events;
  }

  lemma ExtendChunk(chunks: seq<seq<Prepared>>, current: seq<Prepared>, done: seq<Prepared>, evt: Prepared)
    requires Splitting(chunks, current, done) && evt.size <= MAX_BYTES && (done != [] ==> current != [])
    requires |current| > 0 ==> |current| < BATCH_SIZE && TotalSize(current) + evt.size <= MAX_BYTES
    ensures Splitting(chunks, current + [evt], done + [evt])
  {
    TotalSizeAppend(current, evt);
    assert Joined(chunks) + (current + [evt]) == done + [evt];
  }

  lemma CloseChunk(chunks: seq<seq<Prepared>>, current: seq<Prepared>, done: seq<Prepared>, evt: Prepared)
    requires Splitting(chunks, current, done) && current != [] && evt.size <= MAX_BYTES
    requires |current| >= BATCH_SIZE || TotalSize(current) + evt.size > MAX_BYTES
    ensures Splitting(chunks + [current], [] + [evt], done + [evt])
  {
    TotalSizeAppend(current, evt);
    TotalSizeAppend([], evt);
    JoinedAppend(chunks, current);
    assert [] + [evt] == [evt];
    FullAppend(chunks, current);
  }

  lemma FullAppend(chunks: seq<seq<Prepared>>, chunk: seq<Prepared>)
    requires Full(chunks) && (chunks != [] ==> FullBefore(chunks[|chunks| - 1], chunk))
    ensures Full(chunks + [chunk])
  {
    forall i: nat | i + 1 < |chunks + [chunk]|
      ensures FullAt(chunks + [chunk], i)
    {
      if i + 1 < |chunks| {
        assert FullAt(chunks, i);
      }
    }
  }

  lemma LastChunk(chunks: seq<seq<Prepared>>, current: seq<Prepared>, events: seq<Prepared>)
    requires Splitting(chunks, current, events) && current != []
    ensures IsSplit(chunks + [current], events) && Full(chunks + [current])
    ensures AllFit(chunks + [current])
  {
    var all := chunks + [current];
    JoinedAppend(chunks, current);
    FullAppend(chunks, current);
    assert AllFit(all) by {
      assert forall i | 0 <= i < |all| :: all[i] == if i < |chunks| then chunks[i] else current;
    }
  }

  lemma JoinedAppend(chunks: seq<seq<Prepared>>, chunk: seq<Prepared>)
    ensures Joined(chunks + [chunk]) == Joined(chunks) + chunk
  {
    assert (chunks + [chunk])[..|chunks|] == chunks;
  }

  // How many events the first k chunks cover.
  function Covered(chunks: seq<seq<Prepared>>, k: nat): nat
    requires k <= |chunks|
  {
    |Joined(chunks[..k])|
  }

  lemma {:induction false} ChunkIsSlice(chunks: seq<seq<Prepared>>, events: seq<Prepared>, k: nat)
    requires Joined(chunks) == events && k < |chunks|
    ensures Covered(chunks, k) <= Covered(chunks, k + 1) == Covered(chunks, k) + |chunks[k]| <= |events|
    ensures chunks[k] == events[Covered(chunks, k)..Covered(chunks, k + 1)]
    decreases |chunks|
  {
    assert chunks[..k + 1] == chunks[..k] + [chunks[k]];
    JoinedAppend(chunks[..k], chunks[k]);
    if k + 1 == |chunks| {
      assert chunks[..k + 1] == chunks;
    } else {
      var init := chunks[..|chunks| - 1];
      ChunkIsSlice(init, Joined(init), k);
      assert init[..k] == chunks[..k] && init[..k + 1] == chunks[..k + 1];
    }
  }

  lemma {:induction false} TotalSizeConcat(a: seq<Prepared>, b: seq<Prepared>)
    ensures TotalSize(a + b) == TotalSize(a) + TotalSize(b)
    decreases |b|
  {
    if b == [] {
      assert a + b == a;
    } else {
      var init := b[..|b| - 1];
      assert (a + b)[..|a + b| - 1] == a + init;
      TotalSizeConcat(a, init);
    }
  }

  lemma PartFits(whole: seq<Prepared>, from: nat, to: nat)
    requires from <= to <= |whole| && Fits(whole)
    ensures Fits(whole[from..to])
  {
    assert whole == whole[..from] + whole[from..to] + whole[to..];
    TotalSizeConcat(whole[..from] + whole[from..to], whole[to..]);
    TotalSizeConcat(whole[..from], whole[from..to]);
  }

  // The greedy split stays ahead: its first k chunks cover at least as much as the
  // first k parts of any split within the limits.
  lemma {:induction false} StaysAhead(chunks: seq<seq<Prepared>>, split: seq<seq<Prepared>>, events: seq<Prepared>, k: nat)
    requires IsSplit(chunks, events) && Full(chunks) && IsSplit(split, events)
    requires AllFit(split)
    requires k <= |split| && k <= |chunks|
    ensures Covered(split, k) <= Covered(chunks, k)
  {
    if k > 0 {
      StaysAhead(chunks, split, events, k - 1);
      ChunkIsSlice(chunks, events, k - 1);
      ChunkIsSlice(split, events, k - 1);
      var b, end := Covered(chunks, k - 1), Covered(chunks, k);
      var a, reach := Covered(split, k - 1), Covered(split, k);
      if end < reach {
        NotLast(chunks, events, k);
        ChunkIsSlice(chunks, events, k);
        assert FullAt(chunks, k - 1);
        Overtaken(events, chunks[k - 1], chunks[k], split[k - 1], b, end, a, reach);
      }
    }
  }

  lemma SliceOfSlice(events: seq<Prepared>, a: nat, z: nat, p: nat, q: nat)
    requires a <= z <= |events| && p <= q <= z - a
    ensures events[a..z][p..q] == events[a + p..a + q]
  {
    var left, right := events[a..z][p..q], events[a + p..a + q];
    forall i | 0 <= i < q - p
      ensures left[i] == right[i]
    {
      assert left[i] == events[a..z][p + i];
    }
  }

  // A part that starts no later and ends later than a full chunk breaks the limits.
  lemma Overtaken(events: seq<Prepared>, chunk: seq<Prepared>, next: seq<Prepared>, part: seq<Prepared>, b: nat, end: nat, a: nat, reach: nat)
    requires a <= b <= end < reach <= |events|
    requires chunk == events[b..end] && next != [] && next[0] == events[end] && part == events[a..reach]
    requires Fits(part)
    ensures Fits(chunk + [next[0]])
  {
    assert chunk + [next[0]] == events[b..end + 1];
    SliceOfSlice(events, a, reach, b - a, end + 1 - a);
    PartFits(part, b - a, end + 1 - a);
  }

  lemma NotLast(chunks: seq<seq<Prepared>>, events: seq<Prepared>, k: nat)
    requires Joined(chunks) == events && k <= |chunks| && Covered(chunks, k) < |events|
    ensures k < |chunks|
  {
    AllCovered(chunks);
  }

  lemma AllCovered(chunks: seq<seq<Prepared>>)
    ensures Covered(chunks, |chunks|) == |Joined(chunks)|
  {
    assert chunks[..|chunks|] == chunks;
  }

  lemma FullIsOptimal(chunks: seq<seq<Prepared>>, events: seq<Prepared>)
    requires IsSplit(chunks, events) && Full(chunks)
    ensures HasFewest(chunks, events)
  {
    forall split | IsSplit(split, events) && AllFit(split)
      ensures |chunks| <= |split|
    {
      if |split| < |chunks| {
        StaysAhead(chunks, split, events, |split|);
        AllCovered(split);
        ChunkIsSlice(chunks, events, |split|);
      }
    }
  }
}

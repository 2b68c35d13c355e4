/** failureLogger: the per-signature rate limiter of failure logs.
 */
module FailureLogger {

  const FAILURE_LOG_WINDOW := 60000

  datatype Entry = Entry(nextLogAt: int, suppressed: nat)

  // One call of shouldLog with the clock reading it took, in lock order. Readings need
  // not be monotone.
  datatype Query = Query(signature: string, now: int)

  // What a call returned.
  datatype Answer = Answer(ok: bool, suppressed: nat)

  type Entries = map<string, Entry>

  function AnswerTo(entries: Entries, q: Query): Answer {
    if q.signature !in entries then Answer(true, 0)
    else if q.now < entries[q.signature].nextLogAt then Answer(false, 0)
    else Answer(true, entries[q.signature].suppressed)
  }

  function AfterQuery(entries: Entries, window: int, q: Query): Entries {
    if q.signature in entries && q.now < entries[q.signature].nextLogAt then
      entries[q.signature := entries[q.signature].(suppressed := entries[q.signature].suppressed + 1)]
    else
      entries[q.signature := Entry(q.now + window, 0)]
  }

  class Logger {
    const window: int
    var entries: Entries

    constructor (window: int)
      ensures entries == map[] && this.window == if window <= 0 then FAILURE_LOG_WINDOW else window
    {
      this.window := if window <= 0 then FAILURE_LOG_WINDOW else window;
      entries := map[];
    }

    method ShouldLog(signature: string, now: int) returns (ok: bool, suppressed: nat)
      modifies this
      ensures Answer(ok, suppressed) == AnswerTo(old(entries), Query(signature, now))
      ensures entries == AfterQuery(old(entries), window, Query(signature, now))
    {
      if signature !in entries {
        entries := entries[signature := Entry(now + window, 0)];
        return true, 0;
      }
      var entry := entries[signature];
      if now < entry.nextLogAt {
        entries := entries[signature := entry.(suppressed := entry.suppressed + 1)];
        return false, 0;
      }
      suppressed := entry.suppressed;
      entries := entries[signature := Entry(now + window, 0)];
      ok := true;
    }
  }

  // The table and the answers after a sequence of calls.
  function Play(window: int, queries: seq<Query>): (Entries, seq<Answer>) {
    if queries == [] then (map[], [])
    else
      var (entries, answers) := Play(window, queries[..|queries| - 1]);
      var q := queries[|queries| - 1];
      (AfterQuery(entries, window, q), answers + [AnswerTo(entries, q)])
  }

  // Call i emitted a log line for the signature.
  ghost predicate Emits(window: int, queries: seq<Query>, i: nat, signature: string)
    requires i < |queries|
  {
    var answers := Play(window, queries).1;
    queries[i].signature == signature && i < |answers| && answers[i].ok
  }

  lemma {:induction false} AnswersLength(window: int, queries: seq<Query>)
    ensures |Play(window, queries).1| == |queries|
  {
    if queries != [] {
      AnswersLength(window, queries[..|queries| - 1]);
    }
  }

  lemma EmitsPrefix(window: int, queries: seq<Query>, i: nat, signature: string)
    requires i + 1 < |queries|
    ensures Emits(window, queries, i, signature) <==> Emits(window, queries[..|queries| - 1], i, signature)
  {
    AnswersLength(window, queries[..|queries| - 1]);
  }

  // The entry of a signature remembers its latest emission.
  lemma {:induction false} NextAfterEmission(window: int, queries: seq<Query>, i: nat, signature: string)
    requires window > 0 && i < |queries| && Emits(window, queries, i, signature)
    ensures signature in Play(window, queries).0
    ensures Play(window, queries).0[signature].nextLogAt >= queries[i].now + window
    decreases |queries|
  {
    var init, last := queries[..|queries| - 1], queries[|queries| - 1];
    AnswersLength(window, init);
    if i < |init| {
      EmitsPrefix(window, queries, i, signature);
      NextAfterEmission(window, init, i, signature);
      assert init[i] == queries[i];
    }
  }

  /** Two log lines of one signature are at least one window apart, for any clock
      readings. */
  lemma {:induction false} EmissionsSpaced(window: int, queries: seq<Query>, i: nat, j: nat, signature: string)
    requires window > 0 && i < j < |queries|
    requires Emits(window, queries, i, signature) && Emits(window, queries, j, signature)
    ensures queries[j].now >= queries[i].now + window
    decreases |queries|
  {
    var init := queries[..|queries| - 1];
    AnswersLength(window, init);
    EmitsPrefix(window, queries, i, signature);
    if j < |init| {
      EmitsPrefix(window, queries, j, signature);
      EmissionsSpaced(window, init, i, j, signature);
      assert init[i] == queries[i] && init[j] == queries[j];
    } else {
      NextAfterEmission(window, init, i, signature);
      assert init[i] == queries[i];
    }
  }

  // The entry of a signature stems from one of its emissions.
  lemma {:induction false} EntryFromEmission(window: int, queries: seq<Query>, signature: string) returns (i: nat)
    requires signature in Play(window, queries).0
    ensures i < |queries| && Emits(window, queries, i, signature) && Play(window, queries).0[signature].nextLogAt == queries[i].now + window
  {
    var init, last := queries[..|queries| - 1], queries[|queries| - 1];
    AnswersLength(window, init);
    var answer := AnswerTo(Play(window, init).0, last);
    if last.signature == signature && answer.ok {
      i := |init|;
    } else {
      i := EntryFromEmission(window, init, signature);
      EmitsPrefix(window, queries, i, signature);
      assert init[i] == queries[i];
    }
  }

  /** A call emits its line exactly when every earlier line of its signature is at least one
      window old, whatever the clock does: the limiter is silent for one window after each
      line, and only then. */
  lemma EmitsIff(window: int, queries: seq<Query>, j: nat)
    requires window > 0 && j < |queries|
    ensures var signature := queries[j].signature;
            Emits(window, queries, j, signature)
            <==> forall i: nat :: i < j && Emits(window, queries, i, signature) ==> queries[j].now >= queries[i].now + window
    decreases |queries|
  {
    var init, signature := queries[..|queries| - 1], queries[j].signature;
    AnswersLength(window, init);
    forall i: nat | i < |init|
      ensures Emits(window, queries, i, signature) <==> Emits(window, init, i, signature)
    {
      EmitsPrefix(window, queries, i, signature);
    }
    if j < |init| {
      EmitsIff(window, init, j);
      assert forall i :: 0 <= i <= j ==> init[i] == queries[i];
    } else {
      forall i: nat | i < j && Emits(window, queries, i, signature) && Emits(window, queries, j, signature) {
        EmissionsSpaced(window, queries, i, j, signature);
      }
      if !Emits(window, queries, j, signature) {
        var i := EntryFromEmission(window, init, signature);
        assert init[i] == queries[i];
      }
    }
  }

  // --- nothing is lost count of ------------------------------------------------------------

  function CallsFor(queries: seq<Query>, signature: string): nat {
    if queries == [] then 0
    else CallsFor(queries[..|queries| - 1], signature) + if queries[|queries| - 1].signature == signature then 1 else 0
  }

  // Log lines emitted for a signature plus the suppressed counts they reported.
  function Accounted(window: int, queries: seq<Query>, signature: string): nat {
    if queries == [] then 0
    else
      var init, q := queries[..|queries| - 1], queries[|queries| - 1];
      var answer := AnswerTo(Play(window, init).0, q);
      Accounted(window, init, signature)
      + if q.signature == signature && answer.ok then 1 + answer.suppressed else 0
  }

  function PendingFor(entries: Entries, signature: string): nat {
    if signature in entries then entries[signature].suppressed else 0
  }

  /** Every call is an emitted log line, part of a reported suppressed count, or still
      pending as suppressed. */
  lemma {:induction false} CallsAccounted(window: int, queries: seq<Query>, signature: string)
    ensures CallsFor(queries, signature)
         == Accounted(window, queries, signature) + PendingFor(Play(window, queries).0, signature)
  {
    if queries != [] {
      CallsAccounted(window, queries[..|queries| - 1], signature);
    }
  }
}

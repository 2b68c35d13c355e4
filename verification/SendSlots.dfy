/** The global SQS send semaphore: chunk and FIFO-group goroutines of every queue share
    one buffered channel of SendConcurrency slots. A send takes one slot, makes its calls,
    isolated retries included, and gives the slot back.
 */
module SendSlots {

  // A goroutine. `sends` holds, for each send it may still make, the most calls that send
  // can cost; `callsLeft` is what is left of the current one while the slot is held.
  datatype Task = Task(sends: seq<nat>, holding: bool, inCall: bool, callsLeft: nat)

  // `used` is the number of elements in the channel.
  datatype State = State(tasks: seq<Task>, used: nat, cancelled: bool)

  datatype Step =
    | CancelContext
    | Acquire(i: nat)
    | GiveUp(i: nat)                // the context is done while waiting for a slot
    | StartCall(i: nat)
    | EndCall(i: nat)
    | Release(i: nat, stop: bool)   // stop: an error or an undone event ends the group

  predicate Finished(t: Task) {
    t.sends == [] && !t.holding
  }

  predicate Enabled(capacity: nat, s: State, step: Step) {
    match step
    case CancelContext => true
    case Acquire(i) => i < |s.tasks| && !s.tasks[i].holding && s.tasks[i].sends != [] && s.used < capacity
    case GiveUp(i) => i < |s.tasks| && !s.tasks[i].holding && s.tasks[i].sends != [] && s.cancelled
    case StartCall(i) => i < |s.tasks| && s.tasks[i].holding && !s.tasks[i].inCall && s.tasks[i].callsLeft > 0
    case EndCall(i) => i < |s.tasks| && s.tasks[i].inCall
    case Release(i, _) => i < |s.tasks| && s.tasks[i].holding && !s.tasks[i].inCall
  }

  function Moved(step: Step, t: Task): Task
    requires !step.CancelContext?
    requires step.Acquire? ==> t.sends != []
    requires step.StartCall? ==> t.callsLeft > 0
  {
    match step
    case Acquire(_) => Task(t.sends[1..], true, false, t.sends[0])
    case GiveUp(_) => t.(sends := [])
    case StartCall(_) => t.(inCall := true, callsLeft := t.callsLeft - 1)
    case EndCall(_) => t.(inCall := false)
    case Release(_, stop) => Task(if stop then [] else t.sends, false, false, 0)
  }

  function Apply(capacity: nat, s: State, step: Step): State
    requires Enabled(capacity, s, step)
  {
    match step
    case CancelContext => s.(cancelled := true)
    case Release(i, _) =>
      State(s.tasks[i := Moved(step, s.tasks[i])], if s.used > 0 then s.used - 1 else 0, s.cancelled)
    case _ =>
      State(s.tasks[step.i := Moved(step, s.tasks[step.i])], if step.Acquire? then s.used + 1 else s.used, s.cancelled)
  }

  function Start(tasks: seq<seq<nat>>): State {
    State(seq(|tasks|, i requires 0 <= i < |tasks| => Task(tasks[i], false, false, 0)), 0, false)
  }

  ghost predicate Runs(capacity: nat, s: State, steps: seq<Step>, t: State)
    decreases |steps|
  {
    if steps == [] then s == t
    else Enabled(capacity, s, steps[0]) && Runs(capacity, Apply(capacity, s, steps[0]), steps[1..], t)
  }

  // --- counting --------------------------------------------------------------------------

  function HeldBy(t: Task): nat { if t.holding then 1 else 0 }
  function CallsIn(t: Task): nat { if t.inCall then 1 else 0 }

  function SendsWeight(sends: seq<nat>): nat {
    if sends == [] then 0 else 2 * sends[0] + 2 + SendsWeight(sends[1..])
  }

  // What a task can still do, in steps.
  function Weight(t: Task): nat {
    SendsWeight(t.sends) + (if t.holding then 2 * t.callsLeft + 1 else 0) + CallsIn(t)
  }

  function Total(tasks: seq<Task>, f: Task -> nat): nat {
    if tasks == [] then 0 else Total(tasks[..|tasks| - 1], f) + f(tasks[|tasks| - 1])
  }

  lemma {:induction false} TotalUpdate(tasks: seq<Task>, f: Task -> nat, i: nat, t: Task)
    requires i < |tasks|
    ensures Total(tasks[i := t], f) + f(tasks[i]) == Total(tasks, f) + f(t)
    decreases |tasks|
  {
    var init, last := tasks[..|tasks| - 1], |tasks| - 1;
    if i == last {
      assert tasks[i := t][..last] == init;
    } else {
      assert tasks[i := t][..last] == init[i := t];
      TotalUpdate(init, f, i, t);
    }
  }

  lemma {:induction false} TotalMonotone(tasks: seq<Task>, f: Task -> nat, g: Task -> nat)
    requires forall i :: 0 <= i < |tasks| ==> f(tasks[i]) <= g(tasks[i])
    ensures Total(tasks, f) <= Total(tasks, g)
  {
    if tasks != [] {
      TotalMonotone(tasks[..|tasks| - 1], f, g);
    }
  }

  // --- the invariant ------------------------------------------------------------------------

  ghost predicate Invariant(capacity: nat, s: State) {
    && s.used == Total(s.tasks, HeldBy) <= capacity
    && forall i :: 0 <= i < |s.tasks| && s.tasks[i].inCall ==> s.tasks[i].holding
  }

  lemma {:induction false} StartInvariant(capacity: nat, tasks: seq<seq<nat>>)
    ensures Invariant(capacity, Start(tasks))
  {
    if tasks != [] {
      var init := tasks[..|tasks| - 1];
      StartInvariant(capacity, init);
      assert Start(tasks).tasks[..|tasks| - 1] == Start(init).tasks;
    }
  }

  lemma StepKeeps(capacity: nat, s: State, step: Step)
    requires Invariant(capacity, s) && Enabled(capacity, s, step)
    ensures Invariant(capacity, Apply(capacity, s, step))
  {
    if !step.CancelContext? {
      TotalUpdate(s.tasks, HeldBy, step.i, Moved(step, s.tasks[step.i]));
    }
  }

  lemma {:induction false} RunKeeps(capacity: nat, s: State, steps: seq<Step>, t: State)
    requires Invariant(capacity, s) && Runs(capacity, s, steps, t)
    ensures Invariant(capacity, t)
    decreases |steps|
  {
    if steps != [] {
      StepKeeps(capacity, s, steps[0]);
      RunKeeps(capacity, Apply(capacity, s, steps[0]), steps[1..], t);
    }
  }

  /** In every interleaving of any goroutines at most SendConcurrency calls are in flight
      across all queues. */
  lemma CallsBounded(capacity: nat, tasks: seq<seq<nat>>, steps: seq<Step>, s: State)
    requires Runs(capacity, Start(tasks), steps, s)
    ensures Total(s.tasks, CallsIn) <= s.used <= capacity
  {
    StartInvariant(capacity, tasks);
    RunKeeps(capacity, Start(tasks), steps, s);
    TotalMonotone(s.tasks, CallsIn, HeldBy);
  }

  /** No reachable unfinished state is stuck: some goroutine can always take a step. */
  lemma NeverStuck(capacity: nat, tasks: seq<seq<nat>>, steps: seq<Step>, s: State, i: nat) returns (step: Step)
    requires Runs(capacity, Start(tasks), steps, s) && capacity >= 1
    requires i < |s.tasks| && !Finished(s.tasks[i])
    ensures !step.CancelContext? && Enabled(capacity, s, step)
  {
    StartInvariant(capacity, tasks);
    RunKeeps(capacity, Start(tasks), steps, s);
    if s.used < capacity && !s.tasks[i].holding {
      step := Acquire(i);
    } else if s.tasks[i].holding {
      step := if s.tasks[i].inCall then EndCall(i) else Release(i, false);
    } else {
      var h := SomeHolder(s.tasks);
      step := if s.tasks[h].inCall then EndCall(h) else Release(h, false);
    }
  }

  lemma {:induction false} SomeHolder(tasks: seq<Task>) returns (h: nat)
    requires Total(tasks, HeldBy) > 0
    ensures h < |tasks| && tasks[h].holding
  {
    if tasks[|tasks| - 1].holding {
      h := |tasks| - 1;
    } else {
      h := SomeHolder(tasks[..|tasks| - 1]);
    }
  }

  function CallsStarted(steps: seq<Step>): nat {
    if steps == [] then 0 else (if steps[0].StartCall? then 1 else 0) + CallsStarted(steps[1..])
  }

  /** A goroutine that holds a slot can make every call its send may need, and give the slot
      back, with steps of its own and whatever the others are doing. */
  lemma {:induction false} SendCompletes(capacity: nat, s: State, i: nat) returns (steps: seq<Step>, t: State)
    requires i < |s.tasks| && s.tasks[i].holding && !s.tasks[i].inCall && s.used > 0
    ensures Runs(capacity, s, steps, t) && CallsStarted(steps) == s.tasks[i].callsLeft
    ensures t == State(s.tasks[i := Task(s.tasks[i].sends, false, false, 0)], s.used - 1, s.cancelled)
    decreases s.tasks[i].callsLeft
  {
    if s.tasks[i].callsLeft == 0 {
      steps, t := [Release(i, false)], Apply(capacity, s, Release(i, false));
      assert steps[1..] == [];
    } else {
      var inCall := Apply(capacity, s, StartCall(i));
      var called := Apply(capacity, inCall, EndCall(i));
      var rest;
      rest, t := SendCompletes(capacity, called, i);
      steps := [StartCall(i)] + ([EndCall(i)] + rest);
      assert steps[1..] == [EndCall(i)] + rest && steps[1..][1..] == rest;
      assert Runs(capacity, inCall, [EndCall(i)] + rest, t);
      assert t.tasks == s.tasks[i := Task(s.tasks[i].sends, false, false, 0)];
    }
  }

  function GoroutineSteps(steps: seq<Step>): nat {
    if steps == [] then 0 else (if steps[0].CancelContext? then 0 else 1) + GoroutineSteps(steps[1..])
  }

  /** Every run is finite: the goroutines take at most as many steps as their remaining
      sends allow, so together with NeverStuck every send comes to an end. */
  lemma {:induction false} RunsAreFinite(capacity: nat, s: State, steps: seq<Step>, t: State)
    requires Invariant(capacity, s) && Runs(capacity, s, steps, t)
    ensures GoroutineSteps(steps) + Total(t.tasks, Weight) <= Total(s.tasks, Weight)
    decreases |steps|
  {
    if steps != [] {
      var step := steps[0];
      StepKeeps(capacity, s, step);
      if !step.CancelContext? {
        StepLighter(s.tasks[step.i], step);
        TotalUpdate(s.tasks, Weight, step.i, Moved(step, s.tasks[step.i]));
      }
      RunsAreFinite(capacity, Apply(capacity, s, step), steps[1..], t);
    }
  }

  lemma StepLighter(t: Task, step: Step)
    requires !step.CancelContext? && (t.inCall ==> t.holding)
    requires step.Acquire? || step.GiveUp? ==> !t.holding && t.sends != []
    requires step.StartCall? ==> t.holding && !t.inCall && t.callsLeft > 0
    requires step.EndCall? ==> t.inCall
    requires step.Release? ==> t.holding && !t.inCall
    ensures Weight(Moved(step, t)) < Weight(t)
  {
  }
}

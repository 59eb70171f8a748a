/** The batch-swapping action queue: the class the crawler uses, and the protocol of any number of
    pushing and executing threads around it. */
module ActionQueue {
  function Flatten<T>(batches: seq<seq<T>>): seq<T>
  {
    if batches == [] then [] else Flatten(batches[..|batches| - 1]) + batches[|batches| - 1]
  }

  lemma FlattenAppend<T>(batches: seq<seq<T>>, b: seq<T>)
    ensures Flatten(batches + [b]) == Flatten(batches) + b
  {
    assert (batches + [b])[..|batches|] == batches;
  }

  /** The ghost logs record every push and every swapped-out batch, in order. */
  class ActionQueue<T> {
    var actions: seq<T>
    ghost var pushed: seq<T>
    ghost var batches: seq<seq<T>>

    ghost predicate Valid()
      reads this
    {
      Flatten(batches) + actions == pushed
    }

    constructor ()
      ensures Valid() && actions == [] && pushed == [] && batches == []
      ensures forall s: State<T> :: Unused(s) ==> Represents(s, actions, pushed, batches)
    {
      actions, pushed, batches := [], [], [];
    }

    method Push(action: T)
      requires Valid()
      modifies this
      ensures Valid()
      ensures actions == old(actions) + [action] && pushed == old(pushed) + [action] && batches == old(batches)
      ensures forall s: State<T> :: Represents(s, old(actions), old(pushed), old(batches)) ==>
        Represents(Apply(s, Step.Push(action)), actions, pushed, batches)
    {
      actions := actions + [action];
      pushed := pushed + [action];
    }

    /** The swap under the lock that execute and both waits end with. */
    method Swap() returns (toBeExecuted: seq<T>)
      requires Valid()
      modifies this
      ensures Valid()
      ensures toBeExecuted == old(actions) && actions == []
      ensures pushed == old(pushed) && batches == old(batches) + [toBeExecuted]
      ensures forall s: State<T>, x: nat, mode: Mode ::
        Represents(s, old(actions), old(pushed), old(batches)) && Enabled(s, SwapOut(x, mode)) ==>
          Represents(Apply(s, SwapOut(x, mode)), actions, pushed, batches)
    {
      hide Represents, Enabled, Apply;
      ghost var before := batches;
      toBeExecuted := actions;
      actions := [];
      FlattenAppend(batches, toBeExecuted);
      batches := batches + [toBeExecuted];
      forall s: State<T>, x: nat, mode: Mode
        | Represents(s, toBeExecuted, pushed, before) && Enabled(s, SwapOut(x, mode))
        ensures Represents(Apply(s, SwapOut(x, mode)), actions, pushed, batches)
      {
        SwapRepresents(s, x, mode, toBeExecuted, pushed, before);
      }
    }
  }

  // The protocol with any number of threads

  /** A swapped-out batch: who swapped it, what it holds, how many of its actions have run. */
  datatype Batch<T> = Batch(executor: nat, actions: seq<T>, ran: nat)

  function HandedOver<T>(batches: seq<Batch<T>>): (actions: seq<seq<T>>)
    ensures |actions| == |batches| && forall b :: 0 <= b < |actions| ==> actions[b] == batches[b].actions
  {
    seq(|batches|, b requires 0 <= b < |batches| => batches[b].actions)
  }

  /** How an executor comes to swap: execute at once, wait for an action, or wait no longer than a time. */
  datatype Mode = Execute | Wait | WaitUntil(time: int)

  datatype State<T> = State(queue: seq<T>, pushed: seq<T>, batches: seq<Batch<T>>, executed: seq<T>, clock: int)

  datatype Step<T> = Push(action: T) | SwapOut(executor: nat, mode: Mode) | RunNext(batch: nat) | Tick(to: int)

  ghost predicate Idle<T>(s: State<T>, executor: nat)
  {
    forall b :: b in s.batches && b.executor == executor ==> b.ran == |b.actions|
  }

  ghost predicate Enabled<T>(s: State<T>, step: Step<T>)
  {
    match step
    case Push(_) => true
    case SwapOut(x, Execute) => Idle(s, x)
    case SwapOut(x, Wait) => Idle(s, x) && s.queue != []
    case SwapOut(x, WaitUntil(t)) => Idle(s, x) && (s.queue != [] || t <= s.clock)
    case RunNext(b) => b < |s.batches| && s.batches[b].ran < |s.batches[b].actions|
    case Tick(to) => s.clock <= to
  }

  ghost function Apply<T>(s: State<T>, step: Step<T>): State<T>
    requires Enabled(s, step)
  {
    match step
    case Push(a) => s.(queue := s.queue + [a], pushed := s.pushed + [a])
    case SwapOut(x, _) => s.(queue := [], batches := s.batches + [Batch(x, s.queue, 0)])
    case RunNext(b) =>
      var batch := s.batches[b];
      s.(batches := s.batches[b := batch.(ran := batch.ran + 1)], executed := s.executed + [batch.actions[batch.ran]])
    case Tick(to) => s.(clock := to)
  }

  predicate Unused<T(==)>(s: State<T>) { s.queue == [] && s.pushed == [] && s.batches == [] && s.executed == [] }

  /** A state of the protocol and the fields of the class. Who executes the batches, how far they are and the
      clock are the executors' own. */
  ghost predicate Represents<T>(s: State<T>, actions: seq<T>, pushed: seq<T>, batches: seq<seq<T>>)
  {
    s.queue == actions && s.pushed == pushed && HandedOver(s.batches) == batches
  }

  lemma SwapRepresents<T>(s: State<T>, x: nat, mode: Mode, actions: seq<T>, pushed: seq<T>, batches: seq<seq<T>>)
    requires Represents(s, actions, pushed, batches) && Enabled(s, SwapOut(x, mode))
    ensures Represents(Apply(s, SwapOut(x, mode)), [], pushed, batches + [actions])
  {
    assert Apply(s, SwapOut(x, mode)).batches == s.batches + [Batch(x, s.queue, 0)];
  }

  /** The steps that are not the queue's leave its fields alone. */
  lemma OthersRepresent<T>(s: State<T>, step: Step<T>, actions: seq<T>, pushed: seq<T>, batches: seq<seq<T>>)
    requires Represents(s, actions, pushed, batches) && Enabled(s, step) && (step.RunNext? || step.Tick?)
    ensures Represents(Apply(s, step), actions, pushed, batches)
  {
    assert step.RunNext? ==> HandedOver(Apply(s, step).batches) == HandedOver(s.batches);
  }

  ghost predicate IsRun<T>(states: seq<State<T>>, steps: seq<Step<T>>)
  {
    && |states| == |steps| + 1 && Unused(states[0])
    && forall k :: 0 <= k < |steps| ==> Enabled(states[k], steps[k]) && states[k + 1] == Apply(states[k], steps[k])
  }

  function Contents<T>(batches: seq<Batch<T>>): seq<T>
  {
    if batches == [] then []
    else Contents(batches[..|batches| - 1]) + batches[|batches| - 1].actions
  }

  ghost function Ran<T>(batches: seq<Batch<T>>): multiset<T>
    requires forall b :: b in batches ==> b.ran <= |b.actions|
  {
    if batches == [] then multiset{}
    else
      var last := batches[|batches| - 1];
      Ran(batches[..|batches| - 1]) + multiset(last.actions[..last.ran])
  }

  /** Swapped-out batches in swap order, then the queue, are the push order; what has run is what the
      batches say has run. */
  ghost predicate Conserved<T>(s: State<T>)
  {
    && (forall b :: b in s.batches ==> b.ran <= |b.actions|)
    && Contents(s.batches) + s.queue == s.pushed
    && multiset(s.executed) == Ran(s.batches)
  }

  lemma {:induction false} RanNext<T>(batches: seq<Batch<T>>, b: nat)
    requires forall x :: x in batches ==> x.ran <= |x.actions|
    requires b < |batches| && batches[b].ran < |batches[b].actions|
    ensures var after := batches[b := batches[b].(ran := batches[b].ran + 1)];
      && (forall x :: x in after ==> x.ran <= |x.actions|)
      && Contents(after) == Contents(batches)
      && Ran(after) == Ran(batches) + multiset{batches[b].actions[batches[b].ran]}
  {
    var batch := batches[b];
    var after := batches[b := batch.(ran := batch.ran + 1)];
    var n := |batches| - 1;
    if b == n {
      assert after[..n] == batches[..n];
      assert batch.actions[..batch.ran + 1] == batch.actions[..batch.ran] + [batch.actions[batch.ran]];
    } else {
      RanNext(batches[..n], b);
      assert after[..n] == batches[..n][b := batch.(ran := batch.ran + 1)];
    }
  }

  lemma StepConserves<T>(s: State<T>, step: Step<T>)
    requires Conserved(s) && Enabled(s, step)
    ensures Conserved(Apply(s, step))
  {
    match step
    case SwapOut(x, _) =>
      assert (s.batches + [Batch(x, s.queue, 0)])[..|s.batches|] == s.batches;
    case RunNext(b) => RanNext(s.batches, b);
    case _ =>
  }

  /** In every run, with any number of pushers and executors, nothing is lost, repeated or reordered
      between the push order and the batches. */
  lemma {:induction false} Conservation<T>(states: seq<State<T>>, steps: seq<Step<T>>, k: nat)
    requires IsRun(states, steps) && k < |states|
    ensures Conserved(states[k])
  {
    if k > 0 {
      Conservation(states, steps, k - 1);
      StepConserves(states[k - 1], steps[k - 1]);
    }
  }

  lemma {:induction false} AllRan<T>(batches: seq<Batch<T>>)
    requires forall b :: b in batches ==> b.ran == |b.actions|
    ensures Ran(batches) == multiset(Contents(batches))
  {
    if batches != [] {
      var last := batches[|batches| - 1];
      AllRan(batches[..|batches| - 1]);
      assert last in batches;
      assert last.actions[..last.ran] == last.actions;
    }
  }

  /** When every executor is idle and the queue is empty, each pushed action has been executed exactly once. */
  lemma DrainedExactlyOnce<T>(states: seq<State<T>>, steps: seq<Step<T>>, k: nat)
    requires IsRun(states, steps) && k < |states|
    requires states[k].queue == [] && forall x :: Idle(states[k], x)
    ensures multiset(states[k].executed) == multiset(states[k].pushed)
  {
    var s := states[k];
    Conservation(states, steps, k);
    forall b | b in s.batches ensures b.ran == |b.actions| {
      assert Idle(s, b.executor);
    }
    AllRan(s.batches);
    assert Contents(s.batches) + s.queue == Contents(s.batches);
  }

  /** The only executor's unfinished batch, if any, is the last one; what it has run is a prefix. */
  ghost predicate InOrder<T>(s: State<T>)
  {
    && (forall k :: 0 <= k < |s.batches| - 1 ==> s.batches[k].ran == |s.batches[k].actions|)
    && (forall b :: b in s.batches ==> b.ran <= |b.actions|)
    && var n := |s.batches| - 1;
       s.executed == if n < 0 then [] else Contents(s.batches[..n]) + s.batches[n].actions[..s.batches[n].ran]
  }

  lemma StepInOrder<T>(s: State<T>, step: Step<T>)
    requires InOrder(s) && Enabled(s, step)
    requires forall b :: b in s.batches ==> b.executor == 0
    requires step.SwapOut? ==> step.executor == 0
    ensures InOrder(Apply(s, step))
  {
    match step
    case SwapOut(_, _) => SwapInOrder(s, step);
    case RunNext(_) => RunInOrder(s, step);
    case _ =>
  }

  /** With every batch so far run to its end, another one in front of its first action is in order. */
  lemma AnotherBatch<T>(batches: seq<Batch<T>>, next: Batch<T>)
    requires (forall b :: b in batches ==> b.ran == |b.actions|) && next.ran == 0
    ensures var after := batches + [next]; var n := |batches|;
      && after[..n] == batches && Contents(after[..n]) + after[n].actions[..after[n].ran] == Contents(batches)
      && (forall k :: 0 <= k < n ==> after[k].ran == |after[k].actions|)
      && (forall b :: b in after ==> b.ran <= |b.actions|)
  {
    hide Contents;
    var after, n := batches + [next], |batches|;
    assert after[..n] == batches && next.actions[..0] == [];
    forall k | 0 <= k < n ensures after[k].ran == |after[k].actions| { assert after[k] in batches; }
  }

  lemma SwapInOrder<T>(s: State<T>, step: Step<T>)
    requires InOrder(s) && Enabled(s, step) && step.SwapOut? && step.executor == 0
    requires forall b :: b in s.batches ==> b.executor == 0
    ensures InOrder(Apply(s, step))
  {
    var n := |s.batches|;
    forall b | b in s.batches ensures b.ran == |b.actions| {}
    if n > 0 {
      var last := s.batches[n - 1];
      assert last in s.batches && last.actions[..last.ran] == last.actions;
      assert Contents(s.batches) == Contents(s.batches[..n - 1]) + last.actions;
    } else {
      assert Contents(s.batches) == [];
    }
    assert s.executed == Contents(s.batches);
    AnotherBatch(s.batches, Batch(step.executor, s.queue, 0));
    hide Contents;
  }

  lemma RunInOrder<T>(s: State<T>, step: Step<T>)
    requires InOrder(s) && Enabled(s, step) && step.RunNext?
    ensures InOrder(Apply(s, step))
  {
    var t, n := Apply(s, step), |s.batches| - 1;
    var last := s.batches[n];
    assert step.batch == n;
    assert t.batches[..n] == s.batches[..n];
    hide Contents;
    assert last.actions[..last.ran + 1] == last.actions[..last.ran] + [last.actions[last.ran]];
  }

  lemma InOrderIsPrefix<T>(s: State<T>)
    requires InOrder(s) && Contents(s.batches) + s.queue == s.pushed
    ensures s.executed <= s.pushed
  {
    if s.batches != [] {
      var last := s.batches[|s.batches| - 1];
      var before := Contents(s.batches[..|s.batches| - 1]);
      assert last in s.batches;
      assert Contents(s.batches) == before + last.actions && s.executed == before + last.actions[..last.ran];
      hide Contents;
      PrefixOfSum(before, last.actions, last.ran, s.queue);
    }
  }

  lemma PrefixOfSum<T>(a: seq<T>, b: seq<T>, n: nat, c: seq<T>)
    requires n <= |b|
    ensures a + b[..n] <= (a + b) + c
  {
  }

  lemma {:induction false} OnlyExecutor<T>(states: seq<State<T>>, steps: seq<Step<T>>, k: nat)
    requires IsRun(states, steps) && k < |states|
    requires forall j :: 0 <= j < |steps| && steps[j].SwapOut? ==> steps[j].executor == 0
    ensures InOrder(states[k]) && forall b :: b in states[k].batches ==> b.executor == 0
  {
    if k > 0 {
      OnlyExecutor(states, steps, k - 1);
      StepInOrder(states[k - 1], steps[k - 1]);
    }
  }

  /** With a single executor the executed sequence is at every moment a prefix of the push order. */
  lemma SingleExecutorInOrder<T>(states: seq<State<T>>, steps: seq<Step<T>>, k: nat)
    requires IsRun(states, steps) && k < |states|
    requires forall j :: 0 <= j < |steps| && steps[j].SwapOut? ==> steps[j].executor == 0
    ensures states[k].executed <= states[k].pushed
  {
    Conservation(states, steps, k);
    OnlyExecutor(states, steps, k);
    InOrderIsPrefix(states[k]);
  }

  /** Batches keep their place, their executor and their actions. */
  lemma {:induction false} BatchesKept<T>(states: seq<State<T>>, steps: seq<Step<T>>, j: nat, k: nat, b: nat)
    requires IsRun(states, steps) && j <= k < |states| && b < |states[j].batches|
    ensures b < |states[k].batches| && states[k].batches[b].actions == states[j].batches[b].actions
    ensures states[k].batches[b].executor == states[j].batches[b].executor
    decreases k - j
  {
    if j < k {
      BatchesKept(states, steps, j, k - 1, b);
    }
  }

  /** What a wait hands over: the batch that executor x gets is, at every later moment, not empty; only a
      wait with a deadline may come back with nothing, and then not before the deadline. */
  lemma WaitsAreHonest<T>(states: seq<State<T>>, steps: seq<Step<T>>, j: nat, k: nat)
    requires IsRun(states, steps) && j < k < |states|
    requires steps[j].SwapOut? && !steps[j].mode.Execute?
    ensures var b := |states[j].batches|;
      && b < |states[k].batches| && states[k].batches[b].executor == steps[j].executor
      && (states[k].batches[b].actions == [] ==> steps[j].mode.WaitUntil? && steps[j].mode.time <= states[j].clock)
  {
    BatchesKept(states, steps, j + 1, k, |states[j].batches|);
  }
}

/** Progress and termination of a batch: every step but the clock's uses up a bounded measure, and
    the main thread is never stuck. */
module SchedulerTermination {
  import opened Downloads
  import opened DownloadPlan
  import opened Scheduler
  import opened SchedulerInvariant
  import opened SchedulerTheorems

  /** The steps one download takes: start, begin its callback, append each URL, push, execute. */
  function Weight(lists: UrlLists, e: Elem): nat { 4 + |Urls(lists, e)| }

  function Work(lists: UrlLists, elems: seq<Elem>): nat
  {
    if elems == [] then 0 else Work(lists, elems[..|elems| - 1]) + Weight(lists, elems[|elems| - 1])
  }

  function Taken(lists: UrlLists, e: Elem, p: Phase): nat
  {
    match p
    case InFlight => 1
    case Calling(k) => 2 + k
    case Finished => 3 + |Urls(lists, e)|
    case Executed(_) => 4 + |Urls(lists, e)|
  }

  function AllTaken(lists: UrlLists, started: seq<Elem>, phase: seq<Phase>): nat
    requires |started| == |phase|
  {
    if started == [] then 0
    else
      var n := |started| - 1;
      AllTaken(lists, started[..n], phase[..n]) + Taken(lists, started[n], phase[n])
  }

  /** Download and callback steps still to come in this batch. */
  function Left(c: Config, s: State): int
    requires |s.started| == |s.phase|
  {
    Work(c.lists, AllElems(c.lists, c.keys)) - AllTaken(c.lists, s.started, s.phase)
  }

  /** The earliest due time is still in the future. */
  ghost predicate InFuture(s: State)
  {
    s.heap != multiset{} && forall e :: e in s.heap ==> s.clock < e.due
  }

  ghost function Rank(s: State): nat
  {
    match s.main
    case Head => 3
    case Waiting(d) => if d.Some? && !InFuture(s) then 5 else 2
    case Popping(_, _) => 2
    case Counting(_, _) => 8
    case Testing(_, _) => 7
    case Flushing => 6
    case Draining(batch) => if batch == [] then 4 else 1
    case Exited => 0
  }

  /** The part of the measure that is not work. */
  ghost function Remainder(s: State): nat { (if InFuture(s) then 10 else 0) + Rank(s) }

  /** Lexicographic: steps left, then whether the heap top is still in the future, then the program point. */
  ghost function Measure(c: Config, s: State): int
    requires |s.started| == |s.phase|
  {
    20 * Left(c, s) + Remainder(s)
  }

  lemma {:induction false} AllTakenUpdate(lists: UrlLists, started: seq<Elem>, phase: seq<Phase>, i: nat, p: Phase)
    requires |started| == |phase| && i < |phase|
    ensures AllTaken(lists, started, phase[i := p])
         == AllTaken(lists, started, phase) - Taken(lists, started[i], phase[i]) + Taken(lists, started[i], p)
  {
    var n := |started| - 1;
    if i == n {
      assert phase[i := p][..n] == phase[..n];
    } else {
      assert phase[i := p][..n] == phase[..n][i := p];
      AllTakenUpdate(lists, started[..n], phase[..n], i, p);
    }
  }

  lemma AllTakenAppend(lists: UrlLists, started: seq<Elem>, phase: seq<Phase>, e: Elem)
    requires |started| == |phase|
    ensures AllTaken(lists, started + [e], phase + [InFlight]) == AllTaken(lists, started, phase) + 1
  {
    assert (started + [e])[..|started|] == started && (phase + [InFlight])[..|phase|] == phase;
  }

  lemma {:induction false} AllTakenBound(lists: UrlLists, started: seq<Elem>, phase: seq<Phase>)
    requires |started| == |phase|
    requires forall i :: 0 <= i < |phase| && phase[i].Calling? ==> phase[i].added <= |Urls(lists, started[i])|
    ensures AllTaken(lists, started, phase) <= Work(lists, started)
  {
    if started != [] {
      AllTakenBound(lists, started[..|started| - 1], phase[..|phase| - 1]);
    }
  }

  lemma {:induction false} WorkRemove(lists: UrlLists, a: seq<Elem>, j: nat)
    requires j < |a|
    ensures Work(lists, a[..j] + a[j + 1..]) + Weight(lists, a[j]) == Work(lists, a)
  {
    assert a == a[..j] + ([a[j]] + a[j + 1..]);
    WorkAppend(lists, a[..j], [a[j]] + a[j + 1..]);
    WorkAppend(lists, [a[j]], a[j + 1..]);
    WorkAppend(lists, a[..j], a[j + 1..]);
    assert [a[j]][..0] == [];
  }

  lemma RemoveWithin(a: seq<Elem>, b: seq<Elem>, j: nat)
    requires a != [] && multiset(a) <= multiset(b) && j < |b| && b[j] == a[|a| - 1]
    ensures multiset(a[..|a| - 1]) <= multiset(b[..j] + b[j + 1..])
  {
    assert a == a[..|a| - 1] + [b[j]];
    assert b == b[..j] + [b[j]] + b[j + 1..];
    var ma, mb := multiset(a[..|a| - 1]), multiset(b[..j] + b[j + 1..]);
    assert multiset(a) == ma + multiset{b[j]} && multiset(b) == mb + multiset{b[j]};
    forall e ensures ma[e] <= mb[e] {
      assert multiset(a)[e] <= multiset(b)[e];
    }
  }

  lemma {:induction false} WorkWithin(lists: UrlLists, a: seq<Elem>, b: seq<Elem>)
    requires multiset(a) <= multiset(b)
    ensures Work(lists, a) <= Work(lists, b)
  {
    if a != [] {
      var x := a[|a| - 1];
      assert x in multiset(a);
      assert x in multiset(b);
      var j :| 0 <= j < |b| && b[j] == x;
      RemoveWithin(a, b, j);
      WorkWithin(lists, a[..|a| - 1], b[..j] + b[j + 1..]);
      WorkRemove(lists, b, j);
    }
  }

  lemma LeftIsNat(c: Config, s: State)
    requires Inv(c, s)
    ensures 0 <= Left(c, s)
  {
    forall h ensures OfHost(s.started, h) <= PlanOf(c.lists, c.keys, h) {
      StartedIsPrefix(c, s, h);
    }
    StartedWithinPlans(c.lists, c.keys, s.started);
    WorkWithin(c.lists, s.started, AllElems(c.lists, c.keys));
    AllTakenBound(c.lists, s.started, s.phase);
  }

  /** A callback's step moves one phase on by one. */
  lemma CallbackPhase(c: Config, s: State, l: Label)
    requires |s.started| == |s.phase| && Enabled(c, s, l) && !Apply(c, s, l).fault && l.ByCallback()
    ensures var t := Apply(c, s, l);
      && l.id < |s.phase| == |t.phase| && t.started == s.started && t.phase == s.phase[l.id := t.phase[l.id]]
      && Taken(c.lists, s.started[l.id], t.phase[l.id]) == Taken(c.lists, s.started[l.id], s.phase[l.id]) + 1
  {
    hide Urls;
  }

  lemma LeftAfterCallback(c: Config, s: State, l: Label)
    requires |s.started| == |s.phase| && Enabled(c, s, l) && !Apply(c, s, l).fault && l.ByCallback()
    ensures |Apply(c, s, l).started| == |Apply(c, s, l).phase|
    ensures Left(c, Apply(c, s, l)) == Left(c, s) - 1
  {
    var t := Apply(c, s, l);
    CallbackPhase(c, s, l);
    hide Apply, Enabled, Work, AllTaken, Taken;
    AllTakenUpdate(c.lists, s.started, s.phase, l.id, t.phase[l.id]);
  }

  lemma LeftAfterPop(c: Config, s: State, top: Entry)
    requires |s.started| == |s.phase| && Enabled(c, s, Pop(top)) && !Apply(c, s, Pop(top)).fault
    ensures var t := Apply(c, s, Pop(top)); |t.started| == |t.phase| && Left(c, t) == Left(c, s) - 1
  {
    hide Work, AllTaken;
    AllTakenAppend(c.lists, s.started, s.phase, s.queues[top.host][|s.queues[top.host]| - 1]);
  }

  lemma LeftAfterRun(c: Config, s: State)
    requires |s.started| == |s.phase| && Enabled(c, s, Run) && !Apply(c, s, Run).fault
    requires s.phase[s.main.batch[0]].Finished?
    ensures var t := Apply(c, s, Run); |t.started| == |t.phase| && Left(c, t) == Left(c, s) - 1
  {
    hide Work, AllTaken;
    AllTakenUpdate(c.lists, s.started, s.phase, s.main.batch[0], Executed(s.clock));
  }

  lemma LeftAfterControl(c: Config, s: State, l: Label)
    requires |s.started| == |s.phase| && Enabled(c, s, l) && !l.ByCallback() && !l.Pop? && !l.Run?
    ensures var t := Apply(c, s, l); |t.started| == |t.phase| && Left(c, t) == Left(c, s)
  {
    hide Work, AllTaken;
  }

  /** Steps of callbacks, starts and finish actions use up one unit of work; others none. */
  lemma LeftAfter(c: Config, s: State, l: Label)
    requires |s.started| == |s.phase| && Enabled(c, s, l) && !Apply(c, s, l).fault
    requires l.Run? ==> s.phase[s.main.batch[0]].Finished?
    ensures |Apply(c, s, l).started| == |Apply(c, s, l).phase|
    ensures Left(c, Apply(c, s, l)) == Left(c, s) - if l.ByCallback() || l.Pop? || l.Run? then 1 else 0
  {
    hide Apply, Enabled, Left;
    if l.ByCallback() {
      LeftAfterCallback(c, s, l);
    } else if l.Pop? {
      LeftAfterPop(c, s, l.top);
    } else if l.Run? {
      LeftAfterRun(c, s);
    } else {
      LeftAfterControl(c, s, l);
    }
  }

  lemma RestOutside(c: Config, s: State, l: Label)
    requires Enabled(c, s, l) && !Apply(c, s, l).fault && !l.ByMain()
    ensures Remainder(Apply(c, s, l)) <= Remainder(s)
  {
    OutsideRests(c, s, l);
    var t := Apply(c, s, l);
    hide Apply, Enabled;
    assert InFuture(t) ==> InFuture(s);
  }

  lemma RestMain(c: Config, s: State, l: Label)
    requires AtPoint(c, s) && Enabled(c, s, l) && !Apply(c, s, l).fault && l.ByMain() && !l.Pop? && !l.Run?
    ensures Remainder(Apply(c, s, l)) < Remainder(s)
  {
    var t := Apply(c, s, l);
    assert t.heap == s.heap && t.clock == s.clock;
    assert InFuture(t) <==> InFuture(s);
  }

  lemma RestMoves(c: Config, s: State, l: Label)
    requires Enabled(c, s, l) && !Apply(c, s, l).fault && (l.Pop? || l.Run?)
    ensures Remainder(Apply(c, s, l)) < Remainder(s) + 20
  {
    hide InFuture;
  }

  /** The rest, step by step. */
  lemma RestAfter(c: Config, s: State, l: Label)
    requires AtPoint(c, s) && Enabled(c, s, l) && !Apply(c, s, l).fault
    ensures var a, b := Remainder(s), Remainder(Apply(c, s, l));
      && (l.Pop? || l.Run? ==> b < a + 20)
      && (l.Tick? || l.ByCallback() ==> b <= a)
      && (!l.Tick? && !l.ByCallback() && !l.Pop? && !l.Run? ==> b < a)
  {
    hide *;
    OutsideLabels(l);
    if l.Pop? || l.Run? {
      RestMoves(c, s, l);
    } else if l.Tick? || l.ByCallback() {
      RestOutside(c, s, l);
    } else {
      RestMain(c, s, l);
    }
  }

  lemma OutsideLabels(l: Label)
    ensures l.ByMain() <==> !l.Tick? && !l.ByCallback()
    ensures l.Pop? || l.Run? ==> l.ByMain()
  {
  }

  /** Every step but the clock's strictly decreases the measure; the clock never increases it. */
  lemma StepMeasure(c: Config, s: State, l: Label)
    requires Inv(c, s) && Enabled(c, s, l)
    ensures |Apply(c, s, l).started| == |Apply(c, s, l).phase|
    ensures Measure(c, Apply(c, s, l)) <= Measure(c, s)
    ensures !l.Tick? ==> Measure(c, Apply(c, s, l)) < Measure(c, s)
  {
    StepInv(c, s, l);
    assert !Apply(c, s, l).fault;
    if l.Run? { RunIsLive(c, s); }
    hide Inv, Apply, Enabled, InFuture, Rank, Left, Shape, AtPoint, Tokens, Counted, PendingOk;
    LeftAfter(c, s, l);
    RestAfter(c, s, l);
  }

  function NonTicks(labels: seq<Label>): nat
  {
    if labels == [] then 0
    else NonTicks(labels[..|labels| - 1]) + if labels[|labels| - 1].Tick? then 0 else 1
  }

  lemma NoNonTicks(labels: seq<Label>)
    ensures NonTicks(labels[..0]) == 0
  {
  }

  lemma NextNonTicks(labels: seq<Label>, k: nat)
    requires 0 < k <= |labels|
    ensures NonTicks(labels[..k]) == NonTicks(labels[..k - 1]) + if labels[k - 1].Tick? then 0 else 1
  {
    assert labels[..k][..k - 1] == labels[..k - 1];
  }

  lemma RunShape(c: Config, states: seq<State>, labels: seq<Label>, k: nat)
    requires IsRun(c, states, labels) && 1 <= c.maxActive && k < |states|
    ensures Inv(c, states[k]) && Shape(c, states[k]) && |states[k].started| == |states[k].phase|
  {
    RunInv(c, states, labels, k);
    hide IsRun, Tokens, Counted, PendingOk, Contents, Ordered, Polite, Delivered, AtPoint;
  }

  lemma {:induction false} RunUsesMeasure(c: Config, states: seq<State>, labels: seq<Label>, k: nat)
    requires IsRun(c, states, labels) && 1 <= c.maxActive && k <= |labels|
    ensures Shape(c, states[0]) && Shape(c, states[k])
    ensures NonTicks(labels[..k]) + Measure(c, states[k]) <= Measure(c, states[0])
  {
    hide *;
    RunStart(c, states, labels);
    RunShape(c, states, labels, 0);
    RunShape(c, states, labels, k);
    NoNonTicks(labels);
    if k > 0 {
      RunUsesMeasure(c, states, labels, k - 1);
      RunStep(c, states, labels, k - 1);
      RunShape(c, states, labels, k - 1);
      StepMeasure(c, states[k - 1], labels[k - 1]);
      NextNonTicks(labels, k);
    }
  }

  /** However callbacks and clock behave, a batch takes at most this many steps besides clock ticks. */
  lemma BoundedRuns(c: Config, states: seq<State>, labels: seq<Label>)
    requires IsRun(c, states, labels) && 1 <= c.maxActive
    ensures NonTicks(labels) <= 20 * Work(c.lists, AllElems(c.lists, c.keys)) + 3
  {
    var n := |labels|;
    RunUsesMeasure(c, states, labels, n);
    RunInv(c, states, labels, n);
    assert labels[..n] == labels;
    LeftIsNat(c, states[n]);
    var s := states[0];
    assert !InFuture(s) by {
      if e :| e in s.heap {
        assert s.heap[e] == 1;
      }
    }
  }

  /** The bound in the batch's own numbers: its robots and their URLs. */
  lemma {:induction false} WorkOfBatch(lists: UrlLists, keys: seq<Robot>)
    ensures |AllElems(lists, keys)| == |keys| + PageCount(lists, keys)
    ensures Work(lists, AllElems(lists, keys)) == 4 * |keys| + 5 * PageCount(lists, keys)
  {
    if keys != [] {
      var last := keys[|keys| - 1];
      var urls := Urls(lists, RobotsTxt(last));
      WorkOfBatch(lists, keys[..|keys| - 1]);
      WorkAppend(lists, Block(lists, last), AllElems(lists, keys[..|keys| - 1]));
      WorkAppend(lists, [RobotsTxt(last)], Backwards(Pages(last, urls)));
      BackwardsMultiset(Pages(last, urls));
      WorkOfPages(lists, Backwards(Pages(last, urls)));
      assert Work(lists, [RobotsTxt(last)]) == 4 + |urls|;
    }
  }

  lemma {:induction false} WorkAppend(lists: UrlLists, a: seq<Elem>, b: seq<Elem>)
    ensures Work(lists, a + b) == Work(lists, a) + Work(lists, b)
  {
    if b == [] {
      assert a + b == a;
    } else {
      assert (a + b)[..|a + b| - 1] == a + b[..|b| - 1];
      WorkAppend(lists, a, b[..|b| - 1]);
    }
  }

  lemma {:induction false} WorkOfPages(lists: UrlLists, ps: seq<Elem>)
    requires forall p :: p in multiset(ps) ==> p.Page?
    ensures Work(lists, ps) == 4 * |ps|
  {
    if ps != [] {
      assert ps == ps[..|ps| - 1] + [ps[|ps| - 1]];
      assert ps[|ps| - 1] in multiset(ps);
      WorkOfPages(lists, ps[..|ps| - 1]);
    }
  }

  // Progress

  lemma {:induction false} EarliestExists(heap: multiset<Entry>) returns (top: Entry)
    requires heap != multiset{}
    ensures IsTop(heap, top)
    decreases |heap|
  {
    top :| top in heap;
    var rest := heap - multiset{top};
    if rest != multiset{} {
      var other := EarliestExists(rest);
      if other.due < top.due { top := other; }
      assert forall f :: f in heap ==> f in rest || heap[f] == 1;
    }
  }

  /** The callback of a live download that has not pushed its finish action can always take its next step. */
  lemma CallbackCanMove(c: Config, s: State, i: nat) returns (l: Label)
    requires Shape(c, s) && !s.fault && Live(s, i) && !s.phase[i].Finished?
    ensures l.ByCallback() && Enabled(c, s, l)
  {
    l := if s.phase[i].InFlight? then Begin(i)
         else if s.phase[i].added < |Urls(c.lists, s.started[i])| then Append(i)
         else Push(i);
  }

  /** No deadlock: until the loop exits some thread can move, or the main thread waits for a due time
      that the clock has yet to reach. The plain wait is never entered without an unfinished download. */
  lemma Progress(c: Config, states: seq<State>, labels: seq<Label>, k: nat) returns (l: Label)
    requires IsRun(c, states, labels) && 1 <= c.maxActive && k < |states| && !states[k].main.Exited?
    ensures Enabled(c, states[k], l)
    ensures l.Tick? ==> states[k].main.Waiting? && states[k].main.deadline.Some?
                        && states[k].clock < states[k].main.deadline.value == l.to
    ensures states[k].main == Waiting(None) ==> exists i :: Live(states[k], i)
  {
    RunInv(c, states, labels, k);
    l := CanMove(c, states[k]);
  }

  lemma CanMove(c: Config, s: State) returns (l: Label)
    requires Inv(c, s) && !s.main.Exited?
    ensures Enabled(c, s, l)
    ensures l.Tick? ==> s.main.Waiting? && s.main.deadline.Some? && s.clock < s.main.deadline.value == l.to
    ensures s.main == Waiting(None) ==> exists i :: Live(s, i)
  {
    hide Tokens, Contents, Ordered, Polite, Delivered;
    match s.main {
      case Head =>
        var top := Entry(0, "");
        if s.heap != multiset{} { top := EarliestExists(s.heap); }
        l := Guard(top);
      case Waiting(d) =>
        if s.actions != [] || (d.Some? && d.value <= s.clock) {
          l := Swap;
          if d.None? { var i := SomeLive(s); }
        } else if d.Some? {
          l := Tick(d.value);
        } else {
          var i := SomeLive(s);
          assert Pending(s) == [] && i !in Pending(s);
          l := CallbackCanMove(c, s, i);
        }
      case Popping(_, _) =>
        var top := EarliestExists(s.heap);
        l := Pop(top);
      case Counting(_, _) => l := Count;
      case Testing(_, _) =>
        var top := Entry(0, "");
        if s.heap != multiset{} { top := EarliestExists(s.heap); }
        l := Again(top);
      case Flushing => l := Swap;
      case Draining(batch) =>
        if batch == [] {
          l := Back;
        } else {
          assert Pending(s)[0] == batch[0];
          l := Run;
        }
    }
  }

  // Why a crawler without download slots is refused

  /** Nothing has been started, and nothing but the loop test and the clock can move. */
  ghost predicate Stuck(c: Config, s: State)
  {
    && (s.main.Head? || s.main == Waiting(None))
    && s.queues != map[] && s.active == 0 && s.actions == [] && s.started == [] && s.phase == [] && !s.fault
  }

  lemma InitIsStuck(c: Config, s: State)
    requires Init(c, s) && c.keys != []
    ensures Stuck(c, s)
  {
    assert c.keys[0] in c.keys;
    assert c.keys[0].host in s.queues;
  }

  /** Without slots a batch that has anything to download never starts a download and never ends. */
  lemma {:induction false} ZeroSlotsNeverEnd(c: Config, states: seq<State>, labels: seq<Label>, k: nat)
    requires IsRun(c, states, labels) && k < |states| && c.maxActive == 0 && c.keys != []
    ensures Stuck(c, states[k]) && !states[k].main.Exited? && states[k].started == []
  {
    hide *;
    RunStart(c, states, labels);
    if k == 0 {
      InitIsStuck(c, states[0]);
    } else {
      ZeroSlotsNeverEnd(c, states, labels, k - 1);
      RunStep(c, states, labels, k - 1);
      StaysStuck(c, states[k - 1], labels[k - 1]);
    }
    assert !states[k].main.Exited? && states[k].started == [];
  }

  lemma StaysStuck(c: Config, s: State, l: Label)
    requires Stuck(c, s) && Enabled(c, s, l) && c.maxActive == 0
    ensures Stuck(c, Apply(c, s, l))
  {
  }
}

/** What every run of a batch guarantees. Each theorem speaks of an arbitrary run and any point in it. */
module SchedulerTheorems {
  import opened Downloads
  import opened DownloadPlan
  import opened Scheduler
  import opened SchedulerInvariant

  // Order of downloads

  /** Per-host order is independent of the schedule: at every point of every run the downloads started
      for a host are a prefix of its plan, and at exit they are the whole plan. */
  lemma PerHostOrder(c: Config, states: seq<State>, labels: seq<Label>, k: nat, h: string)
    requires IsRun(c, states, labels) && 1 <= c.maxActive && k < |states|
    ensures OfHost(states[k].started, h) <= PlanOf(c.lists, c.keys, h)
    ensures states[k].main.Exited? ==> OfHost(states[k].started, h) == PlanOf(c.lists, c.keys, h)
  {
    RunInv(c, states, labels, k);
    StartedIsPrefix(c, states[k], h);
  }

  lemma StartedIsPrefix(c: Config, s: State, h: string)
    requires Tokens(s) && Ordered(c, s) && AtPoint(c, s)
    ensures OfHost(s.started, h) <= PlanOf(c.lists, c.keys, h)
    ensures s.main.Exited? ==> OfHost(s.started, h) == PlanOf(c.lists, c.keys, h)
  {
    hide Unfold, OfHost, PlanOf, Rest;
    if h in s.queues {
      assert InHeap(s, h) || InLive(s, h);
      if InLive(s, h) {
        var i :| LiveAt(s, i, h);
        assert Live(s, i);
      } else {
        var e :| e in s.heap && e.host == h;
        assert OfHost(s.started, e.host) + Unfold(c.lists, s.queues[e.host]) == PlanOf(c.lists, c.keys, e.host);
      }
    }
  }

  // Exactly once

  /** The downloads whose callbacks have run, in callback order. */
  function DeliveredElems(s: State): seq<Elem>
    requires forall k :: 0 <= k < |s.delivered| ==> s.delivered[k] < |s.started|
  {
    Pick(s.started, s.delivered)
  }

  function Pick<T>(a: seq<T>, ids: seq<nat>): (r: seq<T>)
    requires forall k :: 0 <= k < |ids| ==> ids[k] < |a|
    ensures |r| == |ids| && forall k :: 0 <= k < |ids| ==> r[k] == a[ids[k]]
  {
    seq(|ids|, k requires 0 <= k < |ids| => a[ids[k]])
  }

  lemma PickSplit<T>(a: seq<T>, ids: seq<nat>, p: nat)
    requires a != [] && p < |ids| && ids[p] == |a| - 1
    requires forall k :: 0 <= k < |ids| && k != p ==> ids[k] < |a| - 1
    ensures var n := |a| - 1; var rest := ids[..p] + ids[p + 1..];
      && (forall k :: 0 <= k < |rest| ==> rest[k] < n)
      && multiset(Pick(a, ids)) == multiset(Pick(a[..n], rest)) + multiset{a[n]}
  {
    var n := |a| - 1;
    var rest := ids[..p] + ids[p + 1..];
    assert forall k :: 0 <= k < |rest| ==> rest[k] == ids[if k < p then k else k + 1];
    var b := Pick(a[..n], rest);
    assert Pick(a, ids) == b[..p] + [a[n]] + b[p..];
    assert b == b[..p] + b[p..];
  }

  /** Without its largest index, the rest still names every other one exactly once. */
  lemma RestPicked(n: nat, ids: seq<nat>, p: nat)
    requires p < |ids| && ids[p] == n
    requires forall j, k :: 0 <= j < k < |ids| ==> ids[j] != ids[k]
    requires forall i :: 0 <= i <= n ==> i in ids
    ensures var rest := ids[..p] + ids[p + 1..];
      && (forall j, k :: 0 <= j < k < |rest| ==> rest[j] != rest[k])
      && (forall i :: 0 <= i < n ==> i in rest)
  {
    var rest := ids[..p] + ids[p + 1..];
    assert forall k :: 0 <= k < |rest| ==> rest[k] == ids[if k < p then k else k + 1];
    forall i | 0 <= i < n ensures i in rest {
      assert i in ids;
      var q :| 0 <= q < |ids| && ids[q] == i;
      assert rest[if q < p then q else q - 1] == i;
    }
  }

  lemma NonePicked<T>(a: seq<T>, ids: seq<nat>)
    requires ids != [] && forall k :: 0 <= k < |ids| ==> ids[k] < |a|
    ensures a != []
  {
    assert ids[0] < |a|;
  }

  /** Picking every index exactly once permutes the sequence. */
  lemma {:induction false} PickPermutes<T>(a: seq<T>, ids: seq<nat>)
    requires forall k :: 0 <= k < |ids| ==> ids[k] < |a|
    requires forall j, k :: 0 <= j < k < |ids| ==> ids[j] != ids[k]
    requires forall i :: 0 <= i < |a| ==> i in ids
    ensures multiset(Pick(a, ids)) == multiset(a)
  {
    if a == [] {
      if ids != [] { NonePicked(a, ids); assert false; }
    } else {
      var n := |a| - 1;
      assert n in ids;
      var p :| 0 <= p < |ids| && ids[p] == n;
      PickSplit(a, ids, p);
      var rest := ids[..p] + ids[p + 1..];
      RestPicked(n, ids, p);
      hide Pick;
      PickPermutes(a[..n], rest);
      assert a == a[..n] + [a[n]];
    }
  }

  /** At exit every download of the batch has been started and called back exactly once. */
  lemma ExactlyOnce(c: Config, states: seq<State>, labels: seq<Label>, k: nat)
    requires IsRun(c, states, labels) && 1 <= c.maxActive && k < |states| && states[k].main.Exited?
    ensures multiset(states[k].started) == multiset(AllElems(c.lists, c.keys))
    ensures forall q :: 0 <= q < |states[k].delivered| ==> states[k].delivered[q] < |states[k].started|
    ensures multiset(DeliveredElems(states[k])) == multiset(AllElems(c.lists, c.keys))
  {
    var s := states[k];
    RunInv(c, states, labels, k);
    forall h ensures OfHost(s.started, h) == PlanOf(c.lists, c.keys, h) {
      StartedIsPrefix(c, s, h);
    }
    StartedAllPlans(c.lists, c.keys, s.started);
    NoneLive(s.phase);
    PickPermutes(s.started, s.delivered);
  }

  /** At every point, at most once: the callbacks that have run are among the batch's downloads. */
  lemma NeverMoreThanOnce(c: Config, states: seq<State>, labels: seq<Label>, k: nat)
    requires IsRun(c, states, labels) && 1 <= c.maxActive && k < |states|
    ensures multiset(states[k].started) <= multiset(AllElems(c.lists, c.keys))
    ensures forall i, j :: 0 <= i < j < |states[k].delivered| ==> states[k].delivered[i] != states[k].delivered[j]
  {
    var s := states[k];
    RunInv(c, states, labels, k);
    forall h ensures OfHost(s.started, h) <= PlanOf(c.lists, c.keys, h) {
      StartedIsPrefix(c, s, h);
    }
    StartedWithinPlans(c.lists, c.keys, s.started);
  }

  /** A page's callback runs only after the callback of its own scheme and host's robots.txt. */
  ghost predicate RobotsCalledFirst(s: State)
  {
    forall q :: 0 <= q < |s.delivered| && s.delivered[q] < |s.started| && s.started[s.delivered[q]].Page? ==>
      CalledBefore(s, s.started[s.delivered[q]].robot, q)
  }

  ghost predicate CalledBefore(s: State, r: Robot, q: int)
  {
    exists p :: 0 <= p < q <= |s.delivered| && s.delivered[p] < |s.started| && s.started[s.delivered[p]] == RobotsTxt(r)
  }

  lemma CalledBeforeKept(s: State, t: State, r: Robot, q: int)
    requires CalledBefore(s, r, q) && s.delivered <= t.delivered && s.started <= t.started
    ensures CalledBefore(t, r, q)
  {
    var p :| 0 <= p < q <= |s.delivered| && s.delivered[p] < |s.started| && s.started[s.delivered[p]] == RobotsTxt(r);
    assert t.delivered[p] == s.delivered[p];
  }

  /** When a page download is in flight, its robots.txt download has finished and has been called back. */
  lemma RobotsCalledBeforePage(c: Config, s: State, i: nat)
    requires Inv(c, s) && Known(s, i) && s.started[i].Page?
    ensures CalledBefore(s, s.started[i].robot, |s.delivered|)
  {
    hide Tokens, Counted, PendingOk, Ordered, AtPoint;
    var r := s.started[i].robot;
    assert RobotsBefore(s.started, r, i);
    var j :| 0 <= j < i && s.started[j] == RobotsTxt(r);
    assert s.started[j].Host() == s.started[i].Host();
    assert s.phase[j].Executed?;
    assert j in s.delivered;
    var p :| 0 <= p < |s.delivered| && s.delivered[p] == j;
  }

  lemma LogsGrow(c: Config, s: State, l: Label)
    requires Enabled(c, s, l)
    ensures s.started <= Apply(c, s, l).started && s.delivered <= Apply(c, s, l).delivered
    ensures Apply(c, s, l).delivered == if l.Begin? then s.delivered + [l.id] else s.delivered
    ensures l.Begin? ==> Apply(c, s, l).started == s.started
  {
  }

  lemma RobotsFirstStep(s: State, t: State, begun: seq<nat>)
    requires RobotsCalledFirst(s) && s.started <= t.started && t.delivered == s.delivered + begun && |begun| <= 1
    requires forall k :: 0 <= k < |s.delivered| ==> s.delivered[k] < |s.started|
    requires begun != [] ==> begun[0] < |s.started| && t.started == s.started
    requires begun != [] && s.started[begun[0]].Page? ==> CalledBefore(s, s.started[begun[0]].robot, |s.delivered|)
    ensures RobotsCalledFirst(t)
  {
    hide CalledBefore;
    forall q | 0 <= q < |t.delivered| && t.delivered[q] < |t.started| && t.started[t.delivered[q]].Page?
      ensures CalledBefore(t, t.started[t.delivered[q]].robot, q)
    {
      CalledBeforeKept(s, t, t.started[t.delivered[q]].robot, q);
    }
  }

  lemma DeliveredKnown(c: Config, s: State)
    requires Inv(c, s)
    ensures forall k :: 0 <= k < |s.delivered| ==> s.delivered[k] < |s.started|
  {
    hide Tokens, Counted, PendingOk, Contents, Ordered, Polite, AtPoint;
  }

  lemma {:induction false} RobotsFirst(c: Config, states: seq<State>, labels: seq<Label>, k: nat)
    requires IsRun(c, states, labels) && 1 <= c.maxActive && k < |states|
    ensures RobotsCalledFirst(states[k])
  {
    hide *;
    RunStart(c, states, labels);
    if k == 0 {
      NothingDelivered(c, states[0]);
    } else {
      RobotsFirst(c, states, labels, k - 1);
      RunInv(c, states, labels, k - 1);
      RunStep(c, states, labels, k - 1);
      RobotsFirstNext(c, states[k - 1], labels[k - 1]);
    }
  }

  lemma NothingDelivered(c: Config, s: State)
    requires Init(c, s)
    ensures RobotsCalledFirst(s)
  {
  }

  lemma RobotsFirstNext(c: Config, s: State, l: Label)
    requires Inv(c, s) && RobotsCalledFirst(s) && Enabled(c, s, l)
    ensures RobotsCalledFirst(Apply(c, s, l))
  {
    hide Inv, Apply, RobotsCalledFirst;
    DeliveredKnown(c, s);
    LogsGrow(c, s, l);
    if l.Begin? && s.started[l.id].Page? {
      RobotsCalledBeforePage(c, s, l.id);
    }
    RobotsFirstStep(s, Apply(c, s, l), if l.Begin? then [l.id] else []);
  }

  // Tokens, counters and the absence of faults

  ghost function HeapHosts(heap: multiset<Entry>): set<string> { set e | e in heap :: e.host }

  ghost function LiveHosts(s: State, n: nat): set<string>
    requires n <= |s.phase| && |s.started| == |s.phase|
  {
    set i | 0 <= i < n && !s.phase[i].Executed? :: s.started[i].Host()
  }

  /** Entries occur once, and no host has two. */
  ghost predicate OnePerHost(heap: multiset<Entry>)
  {
    && (forall e :: e in heap ==> heap[e] == 1)
    && (forall e, f :: e in heap && f in heap && e.host == f.host ==> e == f)
  }

  lemma OneEntryLess(heap: multiset<Entry>, e: Entry)
    requires OnePerHost(heap) && e in heap
    ensures var rest := heap - multiset{e};
      OnePerHost(rest) && HeapHosts(heap) == HeapHosts(rest) + {e.host} && e.host !in HeapHosts(rest)
  {
    var rest := heap - multiset{e};
    assert forall f :: f in heap <==> f in rest || f == e;
    assert e !in rest;
  }

  lemma {:induction false} HeapHostsCount(heap: multiset<Entry>)
    requires OnePerHost(heap)
    ensures |HeapHosts(heap)| == |heap|
    decreases |heap|
  {
    if heap != multiset{} {
      var e :| e in heap;
      OneEntryLess(heap, e);
      hide OnePerHost, HeapHosts;
      HeapHostsCount(heap - multiset{e});
    }
  }

  lemma {:induction false} LiveHostsCount(s: State, n: nat)
    requires n <= |s.phase| && |s.started| == |s.phase|
    requires forall i, j :: Live(s, i) && Live(s, j) && s.started[i].Host() == s.started[j].Host() ==> i == j
    ensures |LiveHosts(s, n)| == CountLive(s.phase[..n])
  {
    if n > 0 {
      LiveHostsCount(s, n - 1);
      assert s.phase[..n][..n - 1] == s.phase[..n - 1];
      var before := LiveHosts(s, n - 1);
      if s.phase[n - 1].Executed? {
        assert LiveHosts(s, n) == before;
      } else {
        assert Live(s, n - 1);
        LiveHostsStep(s, n);
      }
    }
  }

  lemma LiveHostsStep(s: State, n: nat)
    requires 0 < n <= |s.phase| && |s.started| == |s.phase| && Live(s, n - 1)
    requires forall i, j :: Live(s, i) && Live(s, j) && s.started[i].Host() == s.started[j].Host() ==> i == j
    ensures |LiveHosts(s, n)| == |LiveHosts(s, n - 1)| + 1
  {
    assert LiveHosts(s, n) == LiveHosts(s, n - 1) + {s.started[n - 1].Host()};
    assert forall i :: 0 <= i < n - 1 && !s.phase[i].Executed? ==> Live(s, i);
  }

  lemma TokenOfHost(s: State, h: string)
    requires Tokens(s) && |s.started| == |s.phase|
    ensures h in s.queues <==> h in HeapHosts(s.heap) || h in LiveHosts(s, |s.phase|)
  {
    if h in s.queues {
      assert InHeap(s, h) || InLive(s, h);
      if InLive(s, h) {
        var i :| LiveAt(s, i, h);
      }
    } else {
      forall i | 0 <= i < |s.phase| && !s.phase[i].Executed? ensures s.started[i].Host() != h {
        assert Live(s, i);
      }
    }
  }

  lemma LiveNotInHeap(s: State, h: string)
    requires AtMostOneToken(s) && |s.started| == |s.phase| && h in LiveHosts(s, |s.phase|)
    ensures h !in HeapHosts(s.heap)
  {
    var i :| 0 <= i < |s.phase| && !s.phase[i].Executed? && s.started[i].Host() == h;
    assert Live(s, i);
  }

  /** The hosts with a queue split exactly into those with one heap entry and those with one live download. */
  lemma TokenSplit(s: State)
    requires Tokens(s) && |s.started| == |s.phase|
    ensures s.queues.Keys == HeapHosts(s.heap) + LiveHosts(s, |s.phase|)
    ensures HeapHosts(s.heap) !! LiveHosts(s, |s.phase|)
    ensures |s.queues| == |s.heap| + CountLive(s.phase)
  {
    var a, b := HeapHosts(s.heap), LiveHosts(s, |s.phase|);
    HeapHostsCount(s.heap);
    LiveHostsCount(s, |s.phase|);
    assert s.phase[..|s.phase|] == s.phase;
    forall h ensures h in s.queues <==> h in a || h in b { TokenOfHost(s, h); }
    forall h | h in b ensures h !in a { LiveNotInHeap(s, h); }
    hide Tokens, HeapHosts, LiveHosts;
    assert s.queues.Keys == a + b;
    assert |s.queues| == |s.queues.Keys|;
  }

  /** Whenever the while test is evaluated: one token per host, the size equation, and a guard whose
      three disjuncts amount to the first. */
  lemma TokenPartition(c: Config, states: seq<State>, labels: seq<Label>, k: nat)
    requires IsRun(c, states, labels) && 1 <= c.maxActive && k < |states| && states[k].main.Head?
    ensures var s := states[k];
      && Tokens(s)
      && |s.queues| == |s.heap| + s.active
      && (KeepsGoing(s) <==> s.queues != map[])
  {
    RunInv(c, states, labels, k);
    TokenSplit(states[k]);
    assert states[k].queues == map[] ==> |states[k].queues| == 0;
    assert states[k].heap != multiset{} ==> |states[k].heap| > 0;
  }

  /** No run pops an empty queue, uses an erased iterator or decrements a zero counter; when the loop
      ends the heap is empty, so the check after it never throws. */
  lemma NoFault(c: Config, states: seq<State>, labels: seq<Label>, k: nat)
    requires IsRun(c, states, labels) && 1 <= c.maxActive && k < |states|
    ensures !states[k].fault
    ensures states[k].main.Exited? ==> states[k].heap == multiset{}
  {
    RunInv(c, states, labels, k);
  }

  /** At no instant, not even between download() and the increment, are more than maxActive downloads
      unfinished; the counter counts them exactly. */
  lemma ParallelismBound(c: Config, states: seq<State>, labels: seq<Label>, k: nat)
    requires IsRun(c, states, labels) && 1 <= c.maxActive && k < |states|
    ensures CountLive(states[k].phase) <= c.maxActive
    ensures 0 <= states[k].active == CountLive(states[k].phase) - (if states[k].main.Counting? then 1 else 0)
  {
    RunInv(c, states, labels, k);
  }

  lemma ActionsAreLive(s: State)
    requires PendingOk(s) && s.actions != []
    ensures exists i :: 0 <= i < |s.phase| && s.phase[i].Finished?
  {
    var p := Pending(s);
    assert p[|p| - 1] == s.actions[|s.actions| - 1];
  }

  lemma OnlyTicks(c: Config, s: State)
    requires s.main.Exited? && forall i :: 0 <= i < |s.phase| ==> s.phase[i].Executed?
    ensures forall l :: Enabled(c, s, l) ==> l.Tick?
  {
  }

  /** When the inner loop has exited nothing of the batch can act any more: only time passes, and the
      next batch starts from a zero counter. */
  lemma BatchIsolation(c: Config, states: seq<State>, labels: seq<Label>, k: nat)
    requires IsRun(c, states, labels) && 1 <= c.maxActive && k < |states| && states[k].main.Exited?
    ensures states[k].active == 0 && states[k].actions == [] && states[k].queues == map[]
    ensures forall i :: 0 <= i < |states[k].phase| ==> states[k].phase[i].Executed?
    ensures forall l :: Enabled(c, states[k], l) ==> l.Tick?
  {
    var s := states[k];
    RunInv(c, states, labels, k);
    hide IsRun, Tokens, Contents, Ordered, Polite, Delivered;
    NoneLive(s.phase);
    if s.actions != [] {
      ActionsAreLive(s);
      assert false;
    }
    hide *;
    OnlyTicks(c, s);
  }

  // Races

  /** The hosts whose queues a step reads or writes. */
  function Touches(s: State, l: Label): set<string>
  {
    match l
    case Append(i) => if Known(s, i) then {s.started[i].Host()} else {}
    case Pop(top) => {top.host}
    case Run =>
      if s.main.Draining? && s.main.batch != [] && Known(s, s.main.batch[0])
      then {s.started[s.main.batch[0]].Host()} else {}
    case _ => {}
  }

  lemma AppendOwner(c: Config, s: State, i: nat)
    requires Tokens(s) && Enabled(c, s, Append(i))
    ensures LiveAt(s, i, s.started[i].Host()) && s.started[i].Host() in s.queues
  {
    assert Live(s, i);
  }

  lemma RunOwner(c: Config, s: State)
    requires PendingOk(s) && Enabled(c, s, Run)
    ensures LiveAt(s, s.main.batch[0], s.started[s.main.batch[0]].Host()) && s.phase[s.main.batch[0]].Finished?
  {
    assert Pending(s)[0] == s.main.batch[0];
  }

  lemma OwnersApart(c: Config, s: State, a: Label, b: Label)
    requires AtMostOneToken(s) && AtLeastOneToken(s) && PendingOk(s) && Enabled(c, s, a) && Enabled(c, s, b)
    requires a.ByCallback() && a != b
    ensures Touches(s, a) !! Touches(s, b)
    ensures Apply(c, s, a).queues.Keys == s.queues.Keys
  {
    if a.Append? {
      AppendOwner(c, s, a.id);
      hide AtLeastOneToken, PendingOk;
      if b.Append? {
        AppendOwner(c, s, b.id);
      } else if b.Run? {
        RunOwner(c, s);
      }
    }
  }

  /** A callback's append and any other step that could happen at the same time, of the main thread or
      of another callback, touch different queues; only the main thread changes which queues exist. */
  lemma SingleOwner(c: Config, states: seq<State>, labels: seq<Label>, k: nat, a: Label, b: Label)
    requires IsRun(c, states, labels) && 1 <= c.maxActive && k < |states|
    requires Enabled(c, states[k], a) && Enabled(c, states[k], b)
    requires a.ByCallback() && a != b
    ensures Touches(states[k], a) !! Touches(states[k], b)
    ensures Apply(c, states[k], a).queues.Keys == states[k].queues.Keys
  {
    RunInv(c, states, labels, k);
    hide AtMostOneToken, AtLeastOneToken, PendingOk, Touches, Enabled, Apply;
    OwnersApart(c, states[k], a, b);
  }

  /** Both steps write to the same log, or one hands over the log that the other writes to. */
  predicate OrderShows(a: Label, b: Label)
  {
    (a.Begin? && b.Begin?) || (a.Push? && (b.Push? || b.Swap?))
  }

  /** Each step is possible after the other, and the order makes no difference. */
  ghost predicate Commute(c: Config, s: State, a: Label, b: Label)
    requires Enabled(c, s, a) && Enabled(c, s, b)
  {
    var t, u := Apply(c, s, a), Apply(c, s, b);
    Enabled(c, t, b) && Enabled(c, u, a) && Apply(c, t, b) == Apply(c, u, a)
  }

  /** What keeps a step from a fault. */
  ghost predicate Sound(s: State, b: Label)
  {
    && |s.phase| == |s.started|
    && (b.Append? && Known(s, b.id) ==> s.started[b.id].Host() in s.queues)
    && (b.Pop? ==> Poppable(s, b.top.host))
    && (b.Run? && s.main.Draining? && s.main.batch != [] && Known(s, s.main.batch[0]) ==>
          var i := s.main.batch[0];
          s.started[i].Host() in s.queues && 0 < s.active && s.phase[i].Finished?)
  }

  /** A step of the main thread or the clock that changes neither downloads nor queues. */
  lemma ControlCommutes(c: Config, s: State, a: Label, b: Label)
    requires Enabled(c, s, a) && Enabled(c, s, b) && Sound(s, a) && Sound(s, b) && Touches(s, a) !! Touches(s, b)
    requires a.ByCallback() && !b.ByCallback() && !b.Pop? && !b.Run? && !OrderShows(a, b)
    ensures Commute(c, s, a, b)
  {
    hide Urls, StartTop, Finish;
  }

  lemma PopCommutes(c: Config, s: State, a: Label, b: Label)
    requires Enabled(c, s, a) && Enabled(c, s, b) && Sound(s, a) && Sound(s, b) && Touches(s, a) !! Touches(s, b)
    requires (a.Begin? || a.Push?) && b.Pop?
    ensures Commute(c, s, a, b)
  {
    hide Urls, IsTop, KeepsGoing, CanAdd, Decide, Finish;
  }

  lemma AppendPopCommutes(c: Config, s: State, a: Label, b: Label)
    requires Enabled(c, s, a) && Enabled(c, s, b) && Sound(s, a) && Sound(s, b) && Touches(s, a) !! Touches(s, b)
    requires a.Append? && b.Pop?
    ensures Commute(c, s, a, b)
  {
    hide Urls, IsTop, KeepsGoing, CanAdd, Decide, Finish;
  }

  lemma RescheduleCommutes(c: Config, s: State, a: Label, b: Label)
    requires Enabled(c, s, a) && Enabled(c, s, b) && Sound(s, a) && Sound(s, b) && Touches(s, a) !! Touches(s, b)
    requires a.ByCallback() && b.Run? && s.queues[s.started[s.main.batch[0]].Host()] != []
    ensures Commute(c, s, a, b)
  {
    hide Urls, IsTop, KeepsGoing, CanAdd, Decide, StartTop;
  }

  lemma EraseCommutes(c: Config, s: State, a: Label, b: Label)
    requires Enabled(c, s, a) && Enabled(c, s, b) && Sound(s, a) && Sound(s, b) && Touches(s, a) !! Touches(s, b)
    requires a.ByCallback() && b.Run? && s.queues[s.started[s.main.batch[0]].Host()] == []
    ensures Commute(c, s, a, b)
  {
    hide Urls, IsTop, KeepsGoing, CanAdd, Decide, StartTop;
  }

  lemma AppendCommutes(c: Config, s: State, a: Label, b: Label)
    requires Enabled(c, s, a) && Enabled(c, s, b) && Sound(s, a) && Sound(s, b) && Touches(s, a) !! Touches(s, b)
    requires a.Append? && b.ByCallback() && a != b
    ensures Commute(c, s, a, b)
  {
    hide Urls, IsTop, KeepsGoing, CanAdd, Decide, StartTop, Finish;
  }

  lemma BeginPushCommutes(c: Config, s: State, a: Label, b: Label)
    requires Enabled(c, s, a) && Enabled(c, s, b) && Sound(s, a) && Sound(s, b) && Touches(s, a) !! Touches(s, b)
    requires a.Begin? && b.Push?
    ensures Commute(c, s, a, b)
  {
    hide Urls, IsTop, KeepsGoing, CanAdd, Decide, StartTop, Finish;
  }

  lemma OrderIsShown(c: Config, s: State, a: Label, b: Label)
    requires Enabled(c, s, a) && Enabled(c, s, b) && a != b && OrderShows(a, b)
    ensures !Commute(c, s, a, b)
  {
    if a.Begin? {
      assert (s.delivered + [a.id] + [b.id])[|s.delivered|] != (s.delivered + [b.id] + [a.id])[|s.delivered|];
    } else if b.Push? {
      assert (s.actions + [a.id] + [b.id])[|s.actions|] != (s.actions + [b.id] + [a.id])[|s.actions|];
    }
  }

  lemma SoundSteps(c: Config, s: State, b: Label)
    requires Inv(c, s) && Enabled(c, s, b)
    ensures Sound(s, b)
  {
    match b
    case Append(i) => AppendOwner(c, s, i);
    case Pop(top) => TopIsPoppable(c, s, top);
    case Run => RunIsLive(c, s);
    case _ =>
  }

  /** A callback's step and any other step possible at the same time, of the main thread, of the clock or of
      another callback, leave each other possible and come to the same state in either order, unless both
      add to the callback log or to the action queue, or one adds an action and the other swaps actions out. So
      it makes no difference whether a callback's step falls before or after a finish action. */
  lemma CommuteIff(c: Config, states: seq<State>, labels: seq<Label>, k: nat, a: Label, b: Label)
    requires IsRun(c, states, labels) && 1 <= c.maxActive && k < |states|
    requires Enabled(c, states[k], a) && Enabled(c, states[k], b) && a.ByCallback() && a != b
    ensures Commute(c, states[k], a, b) <==> !OrderShows(a, b)
  {
    var s := states[k];
    RunInv(c, states, labels, k);
    SingleOwner(c, states, labels, k, a, b);
    hide *;
    SoundSteps(c, s, a);
    SoundSteps(c, s, b);
    CommuteUnlessShown(c, s, a, b);
  }

  lemma CallbacksCommute(c: Config, s: State, a: Label, b: Label)
    requires Enabled(c, s, a) && Enabled(c, s, b) && Sound(s, a) && Sound(s, b) && Touches(s, a) !! Touches(s, b)
    requires a.ByCallback() && b.ByCallback() && a != b && !OrderShows(a, b)
    ensures Commute(c, s, a, b)
  {
    hide Enabled, Apply, Sound, Touches;
    if a.Append? {
      AppendCommutes(c, s, a, b);
    } else if b.Append? {
      AppendCommutes(c, s, b, a);
    } else if a.Begin? {
      BeginPushCommutes(c, s, a, b);
    } else {
      BeginPushCommutes(c, s, b, a);
    }
  }

  lemma CommuteUnlessShown(c: Config, s: State, a: Label, b: Label)
    requires Enabled(c, s, a) && Enabled(c, s, b) && Sound(s, a) && Sound(s, b) && Touches(s, a) !! Touches(s, b)
    requires a.ByCallback() && a != b
    ensures Commute(c, s, a, b) <==> !OrderShows(a, b)
  {
    if OrderShows(a, b) {
      OrderIsShown(c, s, a, b);
    } else if b.ByCallback() {
      CallbacksCommute(c, s, a, b);
    } else if b.Pop? {
      if a.Append? { AppendPopCommutes(c, s, a, b); } else { PopCommutes(c, s, a, b); }
    } else if !b.Run? {
      ControlCommutes(c, s, a, b);
    } else if s.queues[s.started[s.main.batch[0]].Host()] != [] {
      RescheduleCommutes(c, s, a, b);
    } else {
      EraseCommutes(c, s, a, b);
    }
  }

  // Politeness

  /** Within a batch two downloads of one host never overlap, and the later one starts at least the
      timeout after the earlier one's finish action ran. */
  lemma Politeness(c: Config, states: seq<State>, labels: seq<Label>, k: nat, i: nat, j: nat)
    requires IsRun(c, states, labels) && 1 <= c.maxActive && k < |states|
    requires i < j < |states[k].started| && states[k].started[i].Host() == states[k].started[j].Host()
    ensures |states[k].startAt| == |states[k].phase| == |states[k].started|
    ensures states[k].phase[i].Executed? && states[k].startAt[i] <= states[k].phase[i].at
    ensures states[k].startAt[j] >= states[k].phase[i].at + c.timeout
  {
    RunInv(c, states, labels, k);
  }

  // Scheduling decisions

  /** Work-conserving: at every moment of every wait, either all slots are taken or the heap is empty, and
      then some download is unfinished; or a slot is free and the wait ends when the earliest entry is due. */
  lemma WorkConserving(c: Config, states: seq<State>, labels: seq<Label>, k: nat)
    requires IsRun(c, states, labels) && 1 <= c.maxActive && k < |states| && states[k].main.Waiting?
    ensures var s := states[k];
      match s.main.deadline
      case None => (c.maxActive <= s.active || s.heap == multiset{}) && exists i :: Live(s, i)
      case Some(d) => s.active < c.maxActive && exists e :: IsTop(s.heap, e) && e.due == d
  {
    var s := states[k];
    RunInv(c, states, labels, k);
    hide IsRun, Tokens, PendingOk, Contents, Ordered, Polite, Delivered;
    if s.main.deadline.None? {
      var i := SomeLive(s);
    } else {
      var e :| e in s.heap && e.due == s.main.deadline.value;
      assert IsTop(s.heap, e);
    }
  }

  /** Between two steps of the main thread the outside world touches neither heap, counter nor program point. */
  lemma {:induction false} MainRests(c: Config, states: seq<State>, labels: seq<Label>, a: nat, b: nat)
    requires IsRun(c, states, labels) && a <= b < |states|
    requires (forall m :: a <= m < b ==> !labels[m].ByMain()) && forall m :: a < m <= b ==> !states[m].fault
    ensures states[b].heap == states[a].heap && states[b].active == states[a].active
    ensures states[b].main == states[a].main && states[a].clock <= states[b].clock
  {
    if a < b {
      hide IsRun, Enabled, Apply;
      MainRests(c, states, labels, a, b - 1);
      RunStep(c, states, labels, b - 1);
      assert !labels[b - 1].ByMain();
      OutsideRests(c, states[b - 1], labels[b - 1]);
    }
  }

  lemma OutsideRests(c: Config, s: State, l: Label)
    requires Enabled(c, s, l) && !l.ByMain() && !Apply(c, s, l).fault
    ensures Apply(c, s, l).heap == s.heap && Apply(c, s, l).active == s.active
    ensures Apply(c, s, l).main == s.main && s.clock <= Apply(c, s, l).clock
  {
  }

  /** A wait with a slot free: from its first moment to its last no entry was due at the clock reading it
      was chosen by. */
  lemma WaitsOnlyWhenNoneDue(c: Config, states: seq<State>, labels: seq<Label>, j: nat, k: nat)
    requires IsRun(c, states, labels) && 1 <= c.maxActive && j < k < |states|
    requires labels[j].Guard? && states[j + 1].main.Waiting? && forall m :: j < m < k ==> !labels[m].ByMain()
    ensures states[k].main == states[j + 1].main
    ensures states[k].active < c.maxActive ==> forall e :: e in states[k].heap ==> states[j].clock < e.due
  {
    forall m | j + 1 < m <= k ensures !states[m].fault { NoFault(c, states, labels, m); }
    MainRests(c, states, labels, j + 1, k);
    RunStep(c, states, labels, j);
  }

  /** The do-while loop has left nothing startable behind: until its actions are swapped out, no slot is
      free or no entry is due at the clock reading it worked with. */
  lemma StartsAllDue(c: Config, states: seq<State>, labels: seq<Label>, j: nat, k: nat)
    requires IsRun(c, states, labels) && 1 <= c.maxActive && j < k < |states|
    requires labels[j].Again? && states[j + 1].main.Flushing? && forall m :: j < m < k ==> !labels[m].ByMain()
    ensures states[k].main.Flushing? && states[j].main.Testing?
    ensures states[k].active >= c.maxActive || forall e :: e in states[k].heap ==> states[j].main.now < e.due
  {
    forall m | j + 1 < m <= k ensures !states[m].fault { NoFault(c, states, labels, m); }
    MainRests(c, states, labels, j + 1, k);
    RunStep(c, states, labels, j);
  }

  /** Inside the do-while loop, whose pops have not gone below due, or past it, about to flush. */
  predicate StartingFrom(s: State, due: int)
  {
    || s.main.Flushing?
    || ((s.main.Popping? || s.main.Counting? || s.main.Testing?) && due <= s.main.last)
  }

  lemma StepIsSound(c: Config, states: seq<State>, labels: seq<Label>, k: nat)
    requires IsRun(c, states, labels) && 1 <= c.maxActive && k < |labels|
    ensures Enabled(c, states[k], labels[k]) && states[k + 1] == Apply(c, states[k], labels[k])
    ensures AtPoint(c, states[k]) && !states[k + 1].fault
  {
    RunInv(c, states, labels, k);
    RunInv(c, states, labels, k + 1);
  }

  lemma FloorRises(c: Config, s: State, l: Label, due: int)
    requires AtPoint(c, s) && Enabled(c, s, l) && StartingFrom(s, due) && !l.Swap?
    requires !Apply(c, s, l).fault
    ensures StartingFrom(Apply(c, s, l), due)
    ensures l.Pop? ==> due <= l.top.due <= s.main.now <= s.clock
  {
  }

  lemma PopSetsFloor(c: Config, s: State, top: Entry)
    requires Enabled(c, s, Pop(top)) && !Apply(c, s, Pop(top)).fault
    ensures StartingFrom(Apply(c, s, Pop(top)), top.due)
  {
  }

  lemma {:induction false} FloorHolds(c: Config, states: seq<State>, labels: seq<Label>, a: nat, m: nat)
    requires IsRun(c, states, labels) && 1 <= c.maxActive && a < m < |states|
    requires labels[a].Pop? && forall k :: a <= k < m ==> !labels[k].Swap?
    ensures StartingFrom(states[m], labels[a].top.due)
  {
    hide StartingFrom, Enabled, Apply, AtPoint, Init;
    StepIsSound(c, states, labels, m - 1);
    if m == a + 1 {
      PopSetsFloor(c, states[a], labels[a].top);
    } else {
      FloorHolds(c, states, labels, a, m - 1);
      FloorRises(c, states[m - 1], labels[m - 1], labels[a].top.due);
    }
  }

  /** One run of the do-while loop starts hosts in non-decreasing due time, none before it is due. */
  lemma EarliestDueFirst(c: Config, states: seq<State>, labels: seq<Label>, a: nat, b: nat)
    requires IsRun(c, states, labels) && 1 <= c.maxActive && a < b < |labels|
    requires labels[a].Pop? && labels[b].Pop? && forall k :: a <= k < b ==> !labels[k].Swap?
    ensures labels[a].top.due <= labels[b].top.due <= states[b].main.now <= states[b].clock
  {
    StepIsSound(c, states, labels, b);
    FloorHolds(c, states, labels, a, b);
    FloorRises(c, states[b], labels[b], labels[a].top.due);
  }
}

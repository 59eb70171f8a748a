/** The inductive invariant behind every guarantee of the crawl loop. */
module SchedulerInvariant {
  import opened Downloads
  import opened DownloadPlan
  import opened Scheduler

  predicate Live(s: State, i: int) { Known(s, i) && !s.phase[i].Executed? }

  /** Download i is live and belongs to host h: h's token is out. */
  predicate LiveAt(s: State, i: int, h: string) { Live(s, i) && s.started[i].Host() == h }

  ghost predicate InLive(s: State, h: string) { exists i :: LiveAt(s, i, h) }

  ghost predicate InHeap(s: State, h: string) { exists e :: e in s.heap && e.host == h }

  function CountLive(phase: seq<Phase>): nat
  {
    if phase == [] then 0
    else CountLive(phase[..|phase| - 1]) + if phase[|phase| - 1].Executed? then 0 else 1
  }

  /** The URLs a live download's callback has still to append, as queue elements. */
  function Rest(c: Config, s: State, i: int): seq<Elem>
    requires Known(s, i)
  {
    var urls := Urls(c.lists, s.started[i]);
    match s.phase[i]
    case InFlight => Pages(s.started[i].robot, urls)
    case Calling(k) => if k <= |urls| then Pages(s.started[i].robot, urls[k..]) else []
    case Finished => []
    case Executed(_) => []
  }

  ghost predicate Shape(c: Config, s: State)
  {
    && |s.started| == |s.startAt| == |s.phase|
    && (forall i :: Known(s, i) && s.phase[i].Calling? ==> s.phase[i].added <= |Urls(c.lists, s.started[i])|)
  }

  // Every host has exactly one token: a heap entry, which needs a non-empty queue, or a live download.

  ghost predicate HeapBacked(s: State)
  {
    forall e :: e in s.heap ==> s.heap[e] == 1 && e.host in s.queues && s.queues[e.host] != []
  }

  ghost predicate OneEntryPerHost(s: State)
  {
    forall e, f :: e in s.heap && f in s.heap && e.host == f.host ==> e == f
  }

  ghost predicate LiveBacked(s: State)
  {
    forall i :: Live(s, i) ==> s.started[i].Host() in s.queues
  }

  ghost predicate OneLivePerHost(s: State)
  {
    forall i, j :: Live(s, i) && Live(s, j) && s.started[i].Host() == s.started[j].Host() ==> i == j
  }

  ghost predicate HeapApartFromLive(s: State)
  {
    forall e, i :: e in s.heap && Live(s, i) ==> e.host != s.started[i].Host()
  }

  ghost predicate AtMostOneToken(s: State)
  {
    HeapBacked(s) && OneEntryPerHost(s) && LiveBacked(s) && OneLivePerHost(s) && HeapApartFromLive(s)
  }

  ghost predicate AtLeastOneToken(s: State)
  {
    forall h {:trigger InHeap(s, h)} {:trigger InLive(s, h)} :: h in s.queues ==> InHeap(s, h) || InLive(s, h)
  }

  ghost predicate Tokens(s: State) { AtMostOneToken(s) && AtLeastOneToken(s) }

  /** A host's token survives a step that keeps the live downloads and heap entries of that host. */
  lemma TokenKept(s: State, t: State, h: string)
    requires InHeap(s, h) || InLive(s, h)
    requires forall e :: e in s.heap && e.host == h ==> e in t.heap
    requires forall i :: LiveAt(s, i, h) ==> LiveAt(t, i, h)
    ensures InHeap(t, h) || InLive(t, h)
  {
    if InLive(s, h) {
      var i :| LiveAt(s, i, h);
      assert LiveAt(t, i, h);
    } else {
      var e :| e in s.heap && e.host == h;
      assert e in t.heap;
    }
  }

  ghost predicate Counted(c: Config, s: State)
  {
    && 1 <= c.maxActive
    && 0 <= s.active
    && CountLive(s.phase) == s.active + (if s.main.Counting? then 1 else 0)
    && CountLive(s.phase) <= c.maxActive
  }

  /** Finish actions pushed and not yet executed, oldest first. */
  function Pending(s: State): seq<nat>
  {
    (if s.main.Draining? then s.main.batch else []) + s.actions
  }

  ghost predicate PendingOk(s: State)
  {
    var p := Pending(s);
    && (forall k :: 0 <= k < |p| ==> Known(s, p[k]) && s.phase[p[k]].Finished?)
    && (forall j, k :: 0 <= j < k < |p| ==> p[j] != p[k])
    && (forall i {:trigger i in p} :: Known(s, i) && s.phase[i].Finished? ==> i in p)
  }

  /** The robots.txt of r is among the first n started downloads. */
  ghost predicate RobotsBefore(started: seq<Elem>, r: Robot, n: int)
  {
    exists k :: 0 <= k < n <= |started| && started[k] == RobotsTxt(r)
  }

  /** Queues hold only their own host's downloads, and a page appears only after its robots.txt started. */
  ghost predicate Contents(c: Config, s: State)
  {
    && (forall h, k :: h in s.queues && 0 <= k < |s.queues[h]| ==>
          && s.queues[h][k].Host() == h
          && (s.queues[h][k].Page? ==> RobotsBefore(s.started, s.queues[h][k].robot, |s.started|)))
    && (forall j {:trigger RobotsBefore(s.started, s.started[j].robot, j)} ::
          0 <= j < |s.started| && s.started[j].Page? ==> RobotsBefore(s.started, s.started[j].robot, j))
  }

  // Started so far, then what the queue and a running callback will still yield: always the plan.

  ghost predicate OrderedHeap(c: Config, s: State)
  {
    forall e :: e in s.heap && e.host in s.queues ==>
      OfHost(s.started, e.host) + Unfold(c.lists, s.queues[e.host]) == PlanOf(c.lists, c.keys, e.host)
  }

  ghost predicate OrderedLive(c: Config, s: State)
  {
    forall i :: Live(s, i) && s.started[i].Host() in s.queues ==>
      var h := s.started[i].Host();
      OfHost(s.started, h) + Unfold(c.lists, s.queues[h] + Rest(c, s, i)) == PlanOf(c.lists, c.keys, h)
  }

  ghost predicate OrderedGone(c: Config, s: State)
  {
    forall h :: h !in s.queues ==> OfHost(s.started, h) == PlanOf(c.lists, c.keys, h)
  }

  ghost predicate Ordered(c: Config, s: State)
  {
    OrderedHeap(c, s) && OrderedLive(c, s) && OrderedGone(c, s)
  }

  ghost predicate Polite(c: Config, s: State)
    requires Shape(c, s)
  {
    && (forall i :: 0 <= i < |s.phase| ==>
          s.startAt[i] <= s.clock && (s.phase[i].Executed? ==> s.startAt[i] <= s.phase[i].at <= s.clock))
    && (forall e, i :: e in s.heap && 0 <= i < |s.phase| && s.phase[i].Executed? && s.started[i].Host() == e.host ==>
          s.phase[i].at + c.timeout <= e.due)
    && (forall i, j :: 0 <= i < j < |s.phase| && s.started[i].Host() == s.started[j].Host() ==>
          s.phase[i].Executed? && s.phase[i].at + c.timeout <= s.startAt[j])
  }

  ghost predicate Delivered(s: State)
  {
    && (forall k :: 0 <= k < |s.delivered| ==> s.delivered[k] < |s.phase|)
    && (forall j, k :: 0 <= j < k < |s.delivered| ==> s.delivered[j] != s.delivered[k])
    && (forall i :: 0 <= i < |s.phase| ==> (i in s.delivered <==> !s.phase[i].InFlight?))
  }

  /** What the main thread knows at each program point. */
  ghost predicate AtPoint(c: Config, s: State)
  {
    match s.main
    case Popping(now, last) =>
      && s.active < c.maxActive && now <= s.clock
      && (exists e :: e in s.heap && e.due <= now)
      && (forall e :: e in s.heap ==> last <= e.due)
    case Counting(now, last) => now <= s.clock && forall e :: e in s.heap ==> last <= e.due
    case Testing(now, last) => now <= s.clock && forall e :: e in s.heap ==> last <= e.due
    case Waiting(None) => 0 < CountLive(s.phase) && (c.maxActive <= s.active || s.heap == multiset{})
    case Waiting(Some(d)) =>
      && s.active < c.maxActive
      && (exists e :: e in s.heap && e.due == d)
      && (forall e :: e in s.heap ==> d <= e.due)
    case Exited => s.queues == map[] && s.active == 0 && s.heap == multiset{}
    case _ => true
  }

  ghost predicate Inv(c: Config, s: State)
  {
    && !s.fault
    && Shape(c, s) && Tokens(s) && Counted(c, s) && PendingOk(s) && Contents(c, s)
    && Ordered(c, s) && Polite(c, s) && Delivered(s) && AtPoint(c, s)
  }

  // Counting live downloads

  lemma {:induction false} CountLiveUpdate(phase: seq<Phase>, i: nat, p: Phase)
    requires i < |phase|
    ensures CountLive(phase[i := p])
         == CountLive(phase) - (if phase[i].Executed? then 0 else 1) + (if p.Executed? then 0 else 1)
  {
    var n := |phase| - 1;
    if i == n {
      assert phase[i := p][..n] == phase[..n];
    } else {
      assert phase[i := p][..n] == phase[..n][i := p];
      CountLiveUpdate(phase[..n], i, p);
    }
  }

  lemma {:induction false} SomeLive(s: State) returns (i: nat)
    requires |s.started| == |s.phase|
    requires 0 < CountLive(s.phase)
    ensures Live(s, i)
  {
    i := SomeLiveIndex(s.phase);
  }

  lemma {:induction false} SomeLiveIndex(phase: seq<Phase>) returns (i: nat)
    requires 0 < CountLive(phase)
    ensures i < |phase| && !phase[i].Executed?
  {
    i := |phase| - 1;
    if phase[i].Executed? {
      i := SomeLiveIndex(phase[..i]);
    }
  }

  lemma {:induction false} NoneLive(phase: seq<Phase>)
    requires CountLive(phase) == 0
    ensures forall i :: 0 <= i < |phase| ==> phase[i].Executed?
  {
    if phase != [] {
      NoneLive(phase[..|phase| - 1]);
      assert forall i :: 0 <= i < |phase| - 1 ==> phase[i] == phase[..|phase| - 1][i];
    }
  }

  lemma LiveCounted(s: State, i: int)
    requires |s.started| == |s.phase| && Live(s, i)
    ensures 0 < CountLive(s.phase)
  {
    if CountLive(s.phase) == 0 { NoneLive(s.phase); }
  }

  // The outside world's steps

  /** What every step of the outside world keeps: tokens, program point and counters stay, live
      downloads stay live, and queue plus pending URLs of each host stay the same. */
  ghost predicate OutsideStep(c: Config, s: State, t: State)
  {
    && t.heap == s.heap && t.queues.Keys == s.queues.Keys && t.main == s.main && t.active == s.active
    && t.started == s.started && t.startAt == s.startAt && |t.phase| == |s.phase| && |s.started| == |s.phase|
    && s.clock <= t.clock
    && CountLive(t.phase) == CountLive(s.phase)
    && (forall i :: 0 <= i < |s.phase| ==>
          (s.phase[i].Executed? <==> t.phase[i].Executed?) && (s.phase[i].Executed? ==> t.phase[i] == s.phase[i]))
    && (forall e :: e in s.heap && e.host in s.queues ==> t.queues[e.host] == s.queues[e.host])
    && (forall i :: Live(s, i) && s.started[i].Host() in s.queues ==>
          t.queues[s.started[i].Host()] + Rest(c, t, i) == s.queues[s.started[i].Host()] + Rest(c, s, i))
  }

  lemma OutsideAtMostOneToken(c: Config, s: State, t: State)
    requires AtMostOneToken(s) && OutsideStep(c, s, t)
    ensures AtMostOneToken(t)
  {
    assert forall i :: Live(t, i) ==> Live(s, i);
  }

  lemma OutsideAtLeastOneToken(c: Config, s: State, t: State)
    requires AtLeastOneToken(s) && OutsideStep(c, s, t)
    ensures AtLeastOneToken(t)
  {
    forall h | h in t.queues ensures InHeap(t, h) || InLive(t, h) {
      assert InHeap(s, h) || InLive(s, h);
      TokenKept(s, t, h);
    }
  }

  lemma OutsideOrdered(c: Config, s: State, t: State)
    requires Ordered(c, s) && OutsideStep(c, s, t)
    ensures Ordered(c, t)
  {
    assert forall i :: Live(t, i) ==> Live(s, i);
    assert forall h :: h in s.queues.Keys <==> h in t.queues.Keys;
  }

  lemma OutsidePolite(c: Config, s: State, t: State)
    requires Shape(c, s) && Shape(c, t) && Polite(c, s) && OutsideStep(c, s, t)
    ensures Polite(c, t)
  {
  }

  lemma OutsideAtPoint(c: Config, s: State, t: State)
    requires Tokens(s) && AtPoint(c, s) && OutsideStep(c, s, t)
    ensures AtPoint(c, t)
  {
    if s.main.Exited? {
      assert s.queues.Keys == {};
      assert t.queues == map[];
    } else if s.main.Popping? {
      var e :| e in s.heap && e.due <= s.main.now;
      assert e in t.heap;
    } else if s.main.Waiting? && s.main.deadline.Some? {
      var e :| e in s.heap && e.due == s.main.deadline.value;
      assert e in t.heap;
    }
  }

  lemma OutsideInv(c: Config, s: State, t: State)
    requires Inv(c, s) && OutsideStep(c, s, t)
    requires !t.fault && Shape(c, t) && PendingOk(t) && Contents(c, t) && Delivered(t)
    ensures Inv(c, t)
  {
    hide AtMostOneToken, AtLeastOneToken, Shape, PendingOk, Contents, Ordered, Polite, Delivered, AtPoint;
    OutsideAtMostOneToken(c, s, t);
    OutsideAtLeastOneToken(c, s, t);
    OutsideOrdered(c, s, t);
    OutsidePolite(c, s, t);
    OutsideAtPoint(c, s, t);
  }

  /** A callback's step on download i's phase: the live downloads and the others' URLs stay. */
  lemma PhaseStep(c: Config, s: State, t: State, i: nat)
    requires |s.started| == |s.phase| && Live(s, i) && t.started == s.started
    requires |t.phase| == |s.phase| && t.phase == s.phase[i := t.phase[i]] && !t.phase[i].Executed?
    ensures CountLive(t.phase) == CountLive(s.phase)
    ensures forall j :: Known(s, j) && j != i ==> t.phase[j] == s.phase[j] && Rest(c, t, j) == Rest(c, s, j)
  {
    CountLiveUpdate(s.phase, i, t.phase[i]);
  }

  lemma TickIsOutside(c: Config, s: State, to: int)
    requires Shape(c, s) && Enabled(c, s, Tick(to))
    ensures OutsideStep(c, s, Apply(c, s, Tick(to)))
  {
  }

  lemma PreserveTick(c: Config, s: State, to: int)
    requires Inv(c, s) && Enabled(c, s, Tick(to))
    ensures Inv(c, Apply(c, s, Tick(to)))
  {
    var t := Apply(c, s, Tick(to));
    assert Pending(t) == Pending(s);
    assert OutsideStep(c, s, t) by { TickIsOutside(c, s, to); }
    hide OutsideStep, Tokens, Contents, Ordered, Polite, AtPoint;
    ContentsStay(c, s, t);
    OutsideInv(c, s, t);
  }

  lemma ContentsStay(c: Config, s: State, t: State)
    requires Contents(c, s) && t.queues == s.queues && t.started == s.started
    ensures Contents(c, t)
  {
  }

  lemma BeginIsOutside(c: Config, s: State, i: nat)
    requires Shape(c, s) && Enabled(c, s, Begin(i))
    ensures OutsideStep(c, s, Apply(c, s, Begin(i)))
  {
    var t := Apply(c, s, Begin(i));
    assert Rest(c, t, i) == Rest(c, s, i);
    PhaseStep(c, s, t, i);
    hide Rest, CountLive;
  }

  lemma BeginLogs(c: Config, s: State, i: nat)
    requires Shape(c, s) && PendingOk(s) && Delivered(s) && Enabled(c, s, Begin(i))
    ensures var t := Apply(c, s, Begin(i)); Shape(c, t) && PendingOk(t) && Delivered(t)
  {
    var t := Apply(c, s, Begin(i));
    assert Pending(t) == Pending(s);
    assert i !in s.delivered;
    assert forall j :: j in t.delivered <==> j in s.delivered || j == i;
  }

  lemma PreserveBegin(c: Config, s: State, i: nat)
    requires Inv(c, s) && Enabled(c, s, Begin(i))
    ensures Inv(c, Apply(c, s, Begin(i)))
  {
    var t := Apply(c, s, Begin(i));
    BeginIsOutside(c, s, i);
    BeginLogs(c, s, i);
    hide OutsideStep, Shape, Tokens, PendingOk, Contents, Ordered, Polite, Delivered, AtPoint;
    ContentsStay(c, s, t);
    OutsideInv(c, s, t);
  }

  lemma PushIsOutside(c: Config, s: State, i: nat)
    requires Shape(c, s) && Enabled(c, s, Push(i))
    ensures OutsideStep(c, s, Apply(c, s, Push(i)))
  {
    var t := Apply(c, s, Push(i));
    assert Rest(c, t, i) == Rest(c, s, i);
    PhaseStep(c, s, t, i);
    hide Rest, CountLive;
  }

  lemma PushLogs(c: Config, s: State, i: nat)
    requires Shape(c, s) && PendingOk(s) && Delivered(s) && Enabled(c, s, Push(i))
    ensures var t := Apply(c, s, Push(i)); Shape(c, t) && PendingOk(t) && Delivered(t)
  {
    var t := Apply(c, s, Push(i));
    assert Pending(t) == Pending(s) + [i];
    assert i !in Pending(s);
    hide Pending, Urls;
    PushPending(s, t, i);
  }

  lemma PushPending(s: State, t: State, i: nat)
    requires PendingOk(s) && i < |s.phase| && |s.phase| == |t.phase| && t.started == s.started && i < |s.started|
    requires t.phase == s.phase[i := Finished] && !s.phase[i].Finished? && Pending(t) == Pending(s) + [i]
    ensures PendingOk(t)
  {
    hide Pending;
    assert forall j :: j in Pending(s) + [i] <==> j in Pending(s) || j == i;
    assert i !in Pending(s);
  }

  lemma PreservePush(c: Config, s: State, i: nat)
    requires Inv(c, s) && Enabled(c, s, Push(i))
    ensures Inv(c, Apply(c, s, Push(i)))
  {
    var t := Apply(c, s, Push(i));
    PushIsOutside(c, s, i);
    PushLogs(c, s, i);
    hide OutsideStep, Shape, Tokens, PendingOk, Contents, Ordered, Polite, Delivered, AtPoint;
    ContentsStay(c, s, t);
    OutsideInv(c, s, t);
  }

  /** The callback's own queue and what it has still to append, together, stay the same. */
  lemma AppendMovesOn(c: Config, s: State, i: nat)
    requires Shape(c, s) && Enabled(c, s, Append(i)) && s.started[i].Host() in s.queues
    ensures var t, h := Apply(c, s, Append(i)), s.started[i].Host();
      && h in t.queues && Known(t, i) && t.queues[h] + Rest(c, t, i) == s.queues[h] + Rest(c, s, i)
  {
    var t, e, k := Apply(c, s, Append(i)), s.started[i], s.phase[i].added;
    var page := Page(e.robot, Urls(c.lists, e)[k]);
    assert Rest(c, s, i) == [page] + Rest(c, t, i);
    assert t.queues[e.Host()] == s.queues[e.Host()] + [page];
    hide Rest;
    MoveAcross(s.queues[e.Host()], page, Rest(c, t, i));
  }

  /** What an append changes: one queue and one phase. */
  predicate AppendChanges(s: State, t: State, i: nat)
  {
    && i < |s.started| == |s.startAt| == |s.phase| && s.started[i].Host() in s.queues && s.started[i].Host() in t.queues
    && |t.phase| == |s.phase| && s.phase[i].Calling? && t.phase == s.phase[i := t.phase[i]] && t.phase[i].Calling?
    && t.queues == s.queues[s.started[i].Host() := t.queues[s.started[i].Host()]]
    && t == s.(queues := t.queues, phase := t.phase)
  }

  /** Every other live download belongs to another host, whose queue stays. */
  lemma OthersElsewhere(c: Config, s: State, t: State, i: nat, j: int)
    requires AtMostOneToken(s) && AppendChanges(s, t, i) && Live(s, j) && j != i && s.started[j].Host() in s.queues
    ensures s.started[j].Host() in t.queues && Known(t, j)
    ensures t.queues[s.started[j].Host()] == s.queues[s.started[j].Host()] && t.phase[j] == s.phase[j]
  {
    assert Live(s, i);
  }

  lemma AppendIsOutside(c: Config, s: State, i: nat)
    requires Shape(c, s) && Tokens(s) && Enabled(c, s, Append(i))
    ensures s.started[i].Host() in s.queues
    ensures OutsideStep(c, s, Apply(c, s, Append(i)))
  {
    var t := Apply(c, s, Append(i));
    assert Live(s, i);
    assert AppendChanges(s, Apply(c, s, Append(i)), i);
    AppendMovesOn(c, s, i);
    PhaseStep(c, s, t, i);
    hide Rest, CountLive, Enabled, Apply, Shape, AtLeastOneToken;
    forall e | e in s.heap && e.host in s.queues ensures e.host in t.queues && t.queues[e.host] == s.queues[e.host] {
      assert e.host != s.started[i].Host();
    }
    hide AtMostOneToken;
    forall j | Live(s, j) && s.started[j].Host() in s.queues
      ensures s.started[j].Host() in t.queues && Known(t, j)
      ensures t.queues[s.started[j].Host()] + Rest(c, t, j) == s.queues[s.started[j].Host()] + Rest(c, s, j)
    {
      if j != i { OthersElsewhere(c, s, t, i, j); }
    }
  }

  lemma AppendLogs(c: Config, s: State, i: nat)
    requires Shape(c, s) && PendingOk(s) && Delivered(s) && Enabled(c, s, Append(i))
    requires s.started[i].Host() in s.queues
    ensures var t := Apply(c, s, Append(i)); Shape(c, t) && PendingOk(t) && Delivered(t)
  {
    assert Pending(Apply(c, s, Append(i))) == Pending(s);
  }

  lemma AppendContents(c: Config, s: State, i: nat)
    requires Contents(c, s) && Enabled(c, s, Append(i)) && s.started[i].Host() in s.queues
    ensures Contents(c, Apply(c, s, Append(i)))
  {
    assert RobotsBefore(s.started, s.started[i].robot, |s.started|);
  }

  lemma PreserveAppend(c: Config, s: State, i: nat)
    requires Inv(c, s) && Enabled(c, s, Append(i))
    ensures Inv(c, Apply(c, s, Append(i)))
  {
    AppendIsOutside(c, s, i);
    AppendLogs(c, s, i);
    AppendContents(c, s, i);
    hide OutsideStep, Shape, Tokens, PendingOk, Contents, Ordered, Polite, Delivered, AtPoint;
    OutsideInv(c, s, Apply(c, s, Append(i)));
  }

  // The main thread's control steps: only its program point, the counter and the action queue move

  ghost predicate SameData(s: State, t: State)
  {
    && t.queues == s.queues && t.heap == s.heap && t.clock == s.clock && t.started == s.started
    && t.startAt == s.startAt && t.phase == s.phase && t.delivered == s.delivered && t.fault == s.fault
    && Pending(t) == Pending(s)
  }

  lemma ControlAtMostOneToken(s: State, t: State)
    requires AtMostOneToken(s) && SameData(s, t)
    ensures AtMostOneToken(t)
  {
    assert forall i :: Live(t, i) ==> Live(s, i);
  }

  lemma ControlAtLeastOneToken(s: State, t: State)
    requires AtLeastOneToken(s) && SameData(s, t)
    ensures AtLeastOneToken(t)
  {
    forall h | h in t.queues ensures InHeap(t, h) || InLive(t, h) {
      assert InHeap(s, h) || InLive(s, h);
      TokenKept(s, t, h);
    }
  }

  lemma ControlOrdered(c: Config, s: State, t: State)
    requires Ordered(c, s) && SameData(s, t)
    ensures Ordered(c, t)
  {
    assert forall i :: Live(t, i) ==> Live(s, i) && Rest(c, t, i) == Rest(c, s, i);
  }

  lemma ControlLogs(c: Config, s: State, t: State)
    requires Shape(c, s) && Polite(c, s) && PendingOk(s) && Delivered(s) && SameData(s, t)
    ensures Shape(c, t) && Polite(c, t) && PendingOk(t) && Delivered(t)
  {
  }

  lemma ControlInv(c: Config, s: State, t: State)
    requires Inv(c, s) && SameData(s, t) && Counted(c, t) && AtPoint(c, t)
    ensures Inv(c, t)
  {
    hide AtMostOneToken, AtLeastOneToken, Shape, PendingOk, Contents, Ordered, Polite, Delivered, AtPoint;
    ControlAtMostOneToken(s, t);
    ControlAtLeastOneToken(s, t);
    ControlOrdered(c, s, t);
    ControlLogs(c, s, t);
    ContentsStay(c, s, t);
  }

  /** The deadline-free wait is chosen only when some download is still live. */
  lemma WaitHasLive(c: Config, s: State)
    requires Shape(c, s) && Tokens(s) && Counted(c, s) && s.main.Head?
    requires KeepsGoing(s) && (!CanAdd(c, s) || s.heap == multiset{})
    ensures 0 < CountLive(s.phase)
  {
    if s.active == 0 {
      var h :| h in s.queues;
      assert !InHeap(s, h);
      assert InLive(s, h);
      var i :| LiveAt(s, i, h);
      LiveCounted(s, i);
    }
  }

  lemma GuardDecides(c: Config, s: State, top: Entry)
    requires Shape(c, s) && Tokens(s) && Counted(c, s) && Enabled(c, s, Guard(top))
    ensures var t := Apply(c, s, Guard(top)); SameData(s, t) && Counted(c, t) && AtPoint(c, t)
  {
    if KeepsGoing(s) && (!CanAdd(c, s) || s.heap == multiset{}) {
      WaitHasLive(c, s);
    }
    hide Shape, Tokens, CountLive;
  }

  lemma PreserveGuard(c: Config, s: State, top: Entry)
    requires Inv(c, s) && Enabled(c, s, Guard(top))
    ensures Inv(c, Apply(c, s, Guard(top)))
  {
    hide Tokens, Shape, Counted, PendingOk, Contents, Ordered, Polite, Delivered, AtPoint, SameData;
    GuardDecides(c, s, top);
    ControlInv(c, s, Apply(c, s, Guard(top)));
  }

  lemma PreserveCount(c: Config, s: State)
    requires Inv(c, s) && Enabled(c, s, Count)
    ensures Inv(c, Apply(c, s, Count))
  {
    hide Tokens, Shape, PendingOk, Contents, Ordered, Polite, Delivered;
    ControlInv(c, s, Apply(c, s, Count));
  }

  lemma PreserveAgain(c: Config, s: State, top: Entry)
    requires Inv(c, s) && Enabled(c, s, Again(top))
    ensures Inv(c, Apply(c, s, Again(top)))
  {
    hide Tokens, Shape, PendingOk, Contents, Ordered, Polite, Delivered;
    ControlInv(c, s, Apply(c, s, Again(top)));
  }

  lemma PreserveSwap(c: Config, s: State)
    requires Inv(c, s) && Enabled(c, s, Swap)
    ensures Inv(c, Apply(c, s, Swap))
  {
    hide Tokens, Shape, PendingOk, Contents, Ordered, Polite, Delivered;
    ControlInv(c, s, Apply(c, s, Swap));
  }

  lemma PreserveBack(c: Config, s: State)
    requires Inv(c, s) && Enabled(c, s, Back)
    ensures Inv(c, Apply(c, s, Back))
  {
    hide Tokens, Shape, PendingOk, Contents, Ordered, Polite, Delivered;
    ControlInv(c, s, Apply(c, s, Back));
  }

  // Starting the earliest due host

  /** The host's queue exists, is not empty, and its last element is the host's own download. */
  predicate Poppable(s: State, h: string)
  {
    h in s.queues && s.queues[h] != [] && s.queues[h][|s.queues[h]| - 1].Host() == h
  }

  lemma TopIsPoppable(c: Config, s: State, top: Entry)
    requires Tokens(s) && Contents(c, s) && top in s.heap
    ensures Poppable(s, top.host)
  {
  }

  /** What a pop does: one heap entry leaves, one live download of its host joins. */
  ghost predicate PopMoves(s: State, t: State, top: Entry)
  {
    && Poppable(s, top.host) && s.heap[top] == 1
    && t.queues == s.queues[top.host := s.queues[top.host][..|s.queues[top.host]| - 1]]
    && t.heap == s.heap - multiset{top}
    && t.started == s.started + [s.queues[top.host][|s.queues[top.host]| - 1]]
    && t.startAt == s.startAt + [s.clock]
    && t.phase == s.phase + [InFlight]
    && |s.started| == |s.startAt| == |s.phase|
    && t.clock == s.clock && t.delivered == s.delivered
    && (forall e :: e in t.heap <==> e in s.heap && e != top)
  }

  lemma PopHasMoves(c: Config, s: State, top: Entry)
    requires Shape(c, s) && Tokens(s) && Enabled(c, s, Pop(top)) && Poppable(s, top.host)
    ensures PopMoves(s, Apply(c, s, Pop(top)), top)
  {
    assert s.heap[top] == 1;
    assert forall e :: s.heap[e] <= 1;
  }

  /** The popped host has no entry left and the new download as its only live one. */
  lemma PopTokens(s: State, t: State, top: Entry)
    requires AtMostOneToken(s) && top in s.heap && PopMoves(s, t, top)
    ensures forall e :: e in t.heap ==> e in s.heap && t.heap[e] == s.heap[e] && e.host != top.host
    ensures Live(t, |s.phase|) ==> t.started[|s.phase|].Host() == top.host
    ensures forall i :: Live(t, i) && i != |s.phase| ==> Live(s, i) && t.started[i] == s.started[i]
    ensures forall i :: Live(t, i) && i != |s.phase| ==> s.started[i].Host() != top.host
    ensures forall h :: h in t.queues <==> h in s.queues
    ensures forall h :: h in s.queues && h != top.host ==> t.queues[h] == s.queues[h]
    ensures top.host in s.queues
  {
  }

  lemma PopAtMostOneToken(s: State, t: State, top: Entry)
    requires AtMostOneToken(s) && top in s.heap && PopMoves(s, t, top)
    ensures AtMostOneToken(t)
  {
    PopTokens(s, t, top);
    hide PopMoves, Live;
    TokensShifted(s, t, top.host, |s.phase|);
  }

  /** Tokens stay single when host h hands its heap token over to download n. */
  lemma TokensShifted(s: State, t: State, h: string, n: nat)
    requires AtMostOneToken(s) && h in s.queues
    requires forall e :: e in t.heap ==> e in s.heap && t.heap[e] == s.heap[e] && e.host != h
    requires Live(t, n) ==> t.started[n].Host() == h
    requires forall i :: Live(t, i) && i != n ==> Live(s, i) && t.started[i] == s.started[i]
    requires forall i :: Live(t, i) && i != n ==> s.started[i].Host() != h
    requires forall k :: k in t.queues <==> k in s.queues
    requires forall k :: k in s.queues && k != h ==> t.queues[k] == s.queues[k]
    ensures AtMostOneToken(t)
  {
    hide Live;
    assert HeapBacked(t);
    assert OneEntryPerHost(t) by { hide HeapBacked, LiveBacked, OneLivePerHost, HeapApartFromLive; }
    hide HeapBacked, OneEntryPerHost;
    assert LiveBacked(t);
    assert OneLivePerHost(t);
    assert HeapApartFromLive(t);
  }

  lemma PopAtLeastOneToken(s: State, t: State, top: Entry)
    requires AtLeastOneToken(s) && PopMoves(s, t, top)
    ensures AtLeastOneToken(t)
  {
    forall h | h in t.queues ensures InHeap(t, h) || InLive(t, h) {
      assert InHeap(s, h) || InLive(s, h);
      if h == top.host {
        assert LiveAt(t, |s.phase|, h);
      } else {
        TokenKept(s, t, h);
      }
    }
  }

  lemma PopLeavesEntry(s: State, t: State, top: Entry, e: Entry)
    requires AtMostOneToken(s) && top in s.heap && PopMoves(s, t, top) && e in t.heap
    ensures e in s.heap && e.host in s.queues && e.host in t.queues && t.queues[e.host] == s.queues[e.host]
    ensures |t.started| == |s.started| + 1 && t.started == s.started + [t.started[|s.started|]]
    ensures t.started[|s.started|].Host() != e.host
  {
  }

  lemma OrderedElsewhereInHeap(c: Config, s: State, t: State, h: string)
    requires h in s.queues && h in t.queues && t.queues[h] == s.queues[h]
    requires |t.started| == |s.started| + 1 && t.started == s.started + [t.started[|s.started|]]
    requires t.started[|s.started|].Host() != h
    requires OfHost(s.started, h) + Unfold(c.lists, s.queues[h]) == PlanOf(c.lists, c.keys, h)
    ensures OfHost(t.started, h) + Unfold(c.lists, t.queues[h]) == PlanOf(c.lists, c.keys, h)
  {
    hide Unfold, OfHost, PlanOf;
    OfHostAppend(s.started, t.started[|s.started|], h);
  }

  lemma PopOrderedHeap(c: Config, s: State, t: State, top: Entry)
    requires AtMostOneToken(s) && top in s.heap && OrderedHeap(c, s) && PopMoves(s, t, top)
    ensures OrderedHeap(c, t)
  {
    hide AtMostOneToken, PopMoves, Unfold, OfHost, PlanOf;
    forall e | e in t.heap && e.host in t.queues
      ensures OfHost(t.started, e.host) + Unfold(c.lists, t.queues[e.host]) == PlanOf(c.lists, c.keys, e.host)
    {
      PopLeavesEntry(s, t, top, e);
      OrderedElsewhereInHeap(c, s, t, e.host);
    }
  }

  lemma PopOrderedGone(c: Config, s: State, t: State, top: Entry)
    requires OrderedGone(c, s) && PopMoves(s, t, top)
    ensures OrderedGone(c, t)
  {
    forall h | h !in t.queues ensures OfHost(t.started, h) == OfHost(s.started, h) {
      OfHostAppend(s.started, t.started[|s.started|], h);
    }
  }

  /** Popping x and then letting its callback append its pages unrolls the same queue. */
  lemma UnfoldPop(lists: UrlLists, q: seq<Elem>)
    requires q != []
    ensures var x := q[|q| - 1];
      Unfold(lists, q) == [x] + Unfold(lists, q[..|q| - 1] + Pages(x.robot, Urls(lists, x)))
  {
    var x := q[|q| - 1];
    UnfoldPages(lists, q[..|q| - 1], Pages(x.robot, Urls(lists, x)));
  }

  /** The popped download's own host: what was popped moves from the queue to the started log. */
  lemma PopOrderedNew(c: Config, s: State, t: State, top: Entry)
    requires top in s.heap && OrderedHeap(c, s) && PopMoves(s, t, top)
    ensures OfHost(t.started, top.host) + Unfold(c.lists, t.queues[top.host] + Rest(c, t, |s.phase|))
         == PlanOf(c.lists, c.keys, top.host)
  {
    var q := s.queues[top.host];
    var x := q[|q| - 1];
    assert OfHost(s.started, top.host) + Unfold(c.lists, q) == PlanOf(c.lists, c.keys, top.host);
    assert t.started == s.started + [x] && t.queues[top.host] == q[..|q| - 1];
    assert Rest(c, t, |s.phase|) == Pages(x.robot, Urls(c.lists, x));
    hide OrderedHeap, PopMoves, Rest, Unfold, OfHost, PlanOf, Pages, Urls;
    OfHostAppend(s.started, x, top.host);
    UnfoldPop(c.lists, q);
    MoveAcross(OfHost(s.started, top.host), x, Unfold(c.lists, q[..|q| - 1] + Pages(x.robot, Urls(c.lists, x))));
  }

  lemma MoveAcross(a: seq<Elem>, x: Elem, b: seq<Elem>)
    ensures (a + [x]) + b == a + ([x] + b)
  {
  }

  lemma PopOrderedLive(c: Config, s: State, t: State, top: Entry)
    requires Tokens(s) && top in s.heap && OrderedHeap(c, s) && OrderedLive(c, s) && PopMoves(s, t, top)
    ensures OrderedLive(c, t)
  {
    assert AtMostOneToken(s);
    hide Unfold, OfHost, PlanOf, Rest, Tokens;
    forall i | Live(t, i) && t.started[i].Host() in t.queues ensures OrderedAt(c, t, i) {
      if i < |s.phase| {
        PopOrderedOther(c, s, t, top, i);
      } else {
        PopOrderedNew(c, s, t, top);
      }
    }
  }

  /** A download live before the pop is another host's, for which nothing changes. */
  lemma PopOrderedOther(c: Config, s: State, t: State, top: Entry, i: int)
    requires AtMostOneToken(s) && top in s.heap && OrderedLive(c, s)
    requires PopMoves(s, t, top) && Live(t, i) && i < |s.phase|
    ensures t.started[i].Host() in t.queues && OrderedAt(c, t, i)
  {
    assert Live(s, i);
    assert Untouched(s, t, i);
    assert OrderedAt(c, s, i);
    hide OrderedLive, AtMostOneToken, PopMoves, OrderedAt;
    OrderedElsewhere(c, s, t, i);
  }

  ghost predicate OrderedAt(c: Config, s: State, i: int)
    requires Known(s, i) && s.started[i].Host() in s.queues
  {
    var h := s.started[i].Host();
    OfHost(s.started, h) + Unfold(c.lists, s.queues[h] + Rest(c, s, i)) == PlanOf(c.lists, c.keys, h)
  }

  /** Download i's phase and its host's queue are the same, and what was started since is not its host's. */
  predicate Untouched(s: State, t: State, i: int)
  {
    && Known(s, i) && Known(t, i) && t.started[i] == s.started[i] && t.phase[i] == s.phase[i]
    && var h := s.started[i].Host();
       && h in s.queues && h in t.queues && t.queues[h] == s.queues[h]
       && |t.started| == |s.started| + 1 && t.started == s.started + [t.started[|s.started|]]
       && t.started[|s.started|].Host() != h
  }

  lemma OrderedElsewhere(c: Config, s: State, t: State, i: int)
    requires Untouched(s, t, i) && OrderedAt(c, s, i)
    ensures OrderedAt(c, t, i)
  {
    hide Unfold, OfHost, PlanOf, Rest;
    RestSame(c, s, t, i);
    OfHostAppend(s.started, t.started[|s.started|], s.started[i].Host());
    hide Untouched;
  }

  lemma RestSame(c: Config, s: State, t: State, i: int)
    requires Known(s, i) && Known(t, i) && t.started[i] == s.started[i] && t.phase[i] == s.phase[i]
    ensures Rest(c, t, i) == Rest(c, s, i)
  {
  }

  lemma PopPolite(c: Config, s: State, t: State, top: Entry)
    requires Shape(c, s) && Tokens(s) && Polite(c, s) && top in s.heap && top.due <= s.clock && PopMoves(s, t, top)
    ensures Shape(c, t) && Polite(c, t)
  {
    forall i | 0 <= i < |s.phase| && s.started[i].Host() == top.host
      ensures s.phase[i].Executed? && s.phase[i].at + c.timeout <= s.clock
    {
      assert !Live(s, i);
    }
    assert Appended(s, t, top.host) && forall e :: e in t.heap ==> e in s.heap;
    hide Tokens, PopMoves;
    PoliteAppended(c, s, t, top.host);
  }

  /** A pop lengthens the logs by one, for the popped host. */
  predicate Appended(s: State, t: State, h: string)
  {
    var n := |s.started|;
    && n == |s.startAt| == |s.phase| && |t.started| == |t.startAt| == |t.phase| == n + 1
    && (forall i :: 0 <= i < n ==> t.started[i] == s.started[i])
    && (forall i :: 0 <= i < n ==> t.startAt[i] == s.startAt[i] && t.phase[i] == s.phase[i])
    && t.started[n].Host() == h && t.startAt[n] == s.clock && t.phase[n] == InFlight && t.clock == s.clock
  }

  lemma PoliteAppended(c: Config, s: State, t: State, h: string)
    requires Shape(c, s) && Polite(c, s) && Appended(s, t, h) && forall e :: e in t.heap ==> e in s.heap
    requires forall i :: 0 <= i < |s.phase| && s.started[i].Host() == h ==>
      s.phase[i].Executed? && s.phase[i].at + c.timeout <= s.clock
    ensures Shape(c, t) && Polite(c, t)
  {
    ShapeAppended(c, s, t, h);
    hide Shape;
    var n := |s.started|;
    forall i, j | 0 <= i < j < |t.phase| && t.started[i].Host() == t.started[j].Host()
      ensures t.phase[i].Executed? && t.phase[i].at + c.timeout <= t.startAt[j]
    {
      assert i < n;
    }
  }

  lemma ShapeAppended(c: Config, s: State, t: State, h: string)
    requires Shape(c, s) && Appended(s, t, h)
    ensures Shape(c, t)
  {
    forall i | Known(t, i) && t.phase[i].Calling? ensures t.phase[i].added <= |Urls(c.lists, t.started[i])| {
      assert Known(s, i) && s.phase[i].Calling?;
    }
  }

  lemma PopContents(c: Config, s: State, t: State, top: Entry)
    requires Contents(c, s) && PopMoves(s, t, top)
    ensures Contents(c, t)
  {
    var n := |s.started|;
    forall r, j | RobotsBefore(s.started, r, j) && j <= n
      ensures RobotsBefore(t.started, r, j) && RobotsBefore(t.started, r, n + 1)
    {
      var k :| 0 <= k < j && s.started[k] == RobotsTxt(r);
      assert t.started[k] == RobotsTxt(r);
    }
    forall j | 0 <= j < |t.started| && t.started[j].Page? ensures RobotsBefore(t.started, t.started[j].robot, j) {
      if j < n {
        assert RobotsBefore(s.started, s.started[j].robot, j);
      } else {
        assert RobotsBefore(s.started, t.started[n].robot, n);
      }
    }
  }

  lemma PopLogs(c: Config, s: State, t: State, top: Entry)
    requires PendingOk(s) && Delivered(s) && PopMoves(s, t, top) && Pending(t) == Pending(s)
    ensures PendingOk(t) && Delivered(t)
  {
    assert |s.phase| !in s.delivered;
  }

  lemma PopCounted(c: Config, s: State, top: Entry)
    requires Counted(c, s) && AtPoint(c, s) && Enabled(c, s, Pop(top)) && PopMoves(s, Apply(c, s, Pop(top)), top)
    ensures top.due <= s.clock
    ensures var t := Apply(c, s, Pop(top)); Counted(c, t) && AtPoint(c, t)
  {
    assert (s.phase + [InFlight])[..|s.phase|] == s.phase;
  }

  lemma PreservePop(c: Config, s: State, top: Entry)
    requires Inv(c, s) && Enabled(c, s, Pop(top))
    ensures Inv(c, Apply(c, s, Pop(top)))
  {
    hide AtMostOneToken, AtLeastOneToken, Shape, Counted, PendingOk, Contents, OrderedHeap, OrderedLive,
      OrderedGone, Polite, Delivered, AtPoint, PopMoves;
    var t := Apply(c, s, Pop(top));
    TopIsPoppable(c, s, top);
    PopHasMoves(c, s, top);
    assert Pending(t) == Pending(s);
    PopAtMostOneToken(s, t, top);
    PopAtLeastOneToken(s, t, top);
    PopOrderedHeap(c, s, t, top);
    PopOrderedLive(c, s, t, top);
    PopOrderedGone(c, s, t, top);
    PopCounted(c, s, top);
    PopPolite(c, s, t, top);
    PopContents(c, s, t, top);
    PopLogs(c, s, t, top);
  }

  // Executing one finish action

  /** The action at hand belongs to a live download whose host still has its queue. */
  lemma RunIsLive(c: Config, s: State)
    requires Shape(c, s) && Tokens(s) && Counted(c, s) && PendingOk(s) && Enabled(c, s, Run)
    ensures Live(s, s.main.batch[0]) && s.phase[s.main.batch[0]].Finished?
    ensures s.started[s.main.batch[0]].Host() in s.queues && 0 < s.active
  {
    assert Pending(s)[0] == s.main.batch[0];
    LiveCounted(s, s.main.batch[0]);
  }

  /** What executing the finish action of download i does: its host is rescheduled, or dropped when
      its queue is empty. */
  ghost predicate RunMoves(c: Config, s: State, t: State, i: nat)
  {
    && Live(s, i) && s.phase[i].Finished? && s.started[i].Host() in s.queues
    && t.started == s.started && t.startAt == s.startAt && t.clock == s.clock && t.delivered == s.delivered
    && |s.started| == |s.startAt| == |s.phase|
    && t.phase == s.phase[i := Executed(s.clock)]
    && var h := s.started[i].Host();
       if s.queues[h] != []
       then t.queues == s.queues && t.heap == s.heap + multiset{Entry(s.clock + c.timeout, h)}
       else t.queues == s.queues - {h} && t.heap == s.heap
  }

  lemma RunHasMoves(c: Config, s: State)
    requires Shape(c, s) && Enabled(c, s, Run) && Live(s, s.main.batch[0]) && s.phase[s.main.batch[0]].Finished?
    requires s.started[s.main.batch[0]].Host() in s.queues && 0 < s.active
    ensures RunMoves(c, s, Apply(c, s, Run), s.main.batch[0])
  {
  }

  /** The finished host has no live download left; its entry, if it gets one, is its only one. */
  lemma RunTokens(c: Config, s: State, t: State, i: nat)
    requires AtMostOneToken(s) && RunMoves(c, s, t, i)
    ensures var h := s.started[i].Host(); var added := Entry(s.clock + c.timeout, h);
      && (forall j :: Live(t, j) ==> Live(s, j) && t.started[j] == s.started[j] && s.started[j].Host() != h)
      && (forall e :: e in t.heap ==>
            if e.host == h then e == added && t.heap[e] == 1 && h in t.queues && t.queues[h] != []
            else e in s.heap && t.heap[e] == s.heap[e])
      && (forall k :: k in s.queues && k != h ==> k in t.queues && t.queues[k] == s.queues[k])
  {
    var h := s.started[i].Host();
    var added := Entry(s.clock + c.timeout, h);
    assert forall j :: Live(t, j) ==> Live(s, j) && j != i;
    assert forall e :: e in t.heap <==> e in s.heap || (e == added && s.queues[h] != []);
    assert forall e :: e in s.heap ==> e.host != h;
  }

  lemma RunAtMostOneToken(c: Config, s: State, t: State, i: nat)
    requires AtMostOneToken(s) && RunMoves(c, s, t, i)
    ensures AtMostOneToken(t)
  {
    RunTokens(c, s, t, i);
    var h := s.started[i].Host();
    hide RunMoves, Live;
    TokenReturned(s, t, h, Entry(s.clock + c.timeout, h));
  }

  /** Tokens stay single when host h's download has handed its token back to the heap, or retired it. */
  lemma TokenReturned(s: State, t: State, h: string, added: Entry)
    requires AtMostOneToken(s)
    requires forall j :: Live(t, j) ==> Live(s, j) && t.started[j] == s.started[j] && s.started[j].Host() != h
    requires forall e :: e in t.heap ==>
      if e.host == h then e == added && t.heap[e] == 1 && h in t.queues && t.queues[h] != []
      else e in s.heap && t.heap[e] == s.heap[e]
    requires forall k :: k in s.queues && k != h ==> k in t.queues && t.queues[k] == s.queues[k]
    ensures AtMostOneToken(t)
  {
    hide Live;
    assert HeapBacked(t);
    assert OneEntryPerHost(t) by { hide HeapBacked, LiveBacked, OneLivePerHost, HeapApartFromLive; }
    hide HeapBacked, OneEntryPerHost;
    assert LiveBacked(t);
    assert OneLivePerHost(t);
    assert HeapApartFromLive(t);
  }

  lemma RunAtLeastOneToken(c: Config, s: State, t: State, i: nat)
    requires AtLeastOneToken(s) && RunMoves(c, s, t, i)
    ensures AtLeastOneToken(t)
  {
    forall k | k in t.queues ensures InHeap(t, k) || InLive(t, k) {
      assert InHeap(s, k) || InLive(s, k);
      if k == s.started[i].Host() {
        assert Entry(s.clock + c.timeout, k) in t.heap;
      } else {
        TokenKept(s, t, k);
      }
    }
  }

  lemma RunOrdered(c: Config, s: State, t: State, i: nat)
    requires Tokens(s) && Ordered(c, s) && RunMoves(c, s, t, i)
    ensures Ordered(c, t)
  {
    var h := s.started[i].Host();
    var q := s.queues[h];
    assert q + Rest(c, s, i) == q;
    assert OfHost(s.started, h) + Unfold(c.lists, q) == PlanOf(c.lists, c.keys, h);
    assert q == [] ==> OfHost(s.started, h) + Unfold(c.lists, q) == OfHost(s.started, h);
    RunOrderedHeap(c, s, t, i);
    RunOrderedLive(c, s, t, i);
  }

  lemma RunOrderedHeap(c: Config, s: State, t: State, i: nat)
    requires Tokens(s) && OrderedHeap(c, s) && RunMoves(c, s, t, i)
    requires var h := s.started[i].Host();
      OfHost(s.started, h) + Unfold(c.lists, s.queues[h]) == PlanOf(c.lists, c.keys, h)
    ensures OrderedHeap(c, t)
  {
    var h := s.started[i].Host();
    var added := Entry(s.clock + c.timeout, h);
    assert forall e :: e in t.heap ==> e in s.heap || (e == added && s.queues[h] != []);
  }

  lemma RunOrderedLive(c: Config, s: State, t: State, i: nat)
    requires Tokens(s) && OrderedLive(c, s) && RunMoves(c, s, t, i)
    ensures OrderedLive(c, t)
  {
    hide Unfold, OfHost, PlanOf, Rest;
    forall j | Live(t, j)
      ensures Live(s, j) && Rest(c, t, j) == Rest(c, s, j) && s.started[j].Host() != s.started[i].Host()
    {
      assert Live(s, j) && j != i;
      RestSame(c, s, t, j);
    }
  }

  lemma RunPolite(c: Config, s: State, t: State, i: nat)
    requires Shape(c, s) && Tokens(s) && Polite(c, s) && RunMoves(c, s, t, i)
    ensures Shape(c, t) && Polite(c, t)
  {
    var added := Entry(s.clock + c.timeout, s.started[i].Host());
    assert forall e :: e in t.heap ==> e in s.heap || e == added;
  }

  lemma RunPending(s: State, t: State, i: nat)
    requires PendingOk(s) && Pending(s) == [i] + Pending(t) && |s.phase| <= |s.started|
    requires i < |s.phase| && t.started == s.started && |t.phase| == |s.phase| && !t.phase[i].Finished?
    requires forall j :: 0 <= j < |s.phase| && j != i ==> t.phase[j] == s.phase[j]
    ensures PendingOk(t)
  {
    var p, r := Pending(s), Pending(t);
    assert p[0] == i;
    assert forall k :: 0 <= k < |r| ==> r[k] == p[k + 1];
    forall j | Known(t, j) && t.phase[j].Finished? ensures j in r {
      assert j in p;
    }
  }

  lemma RunContents(c: Config, s: State, t: State, i: nat)
    requires Contents(c, s) && RunMoves(c, s, t, i)
    ensures Contents(c, t)
  {
    forall h, k | h in t.queues && 0 <= k < |t.queues[h]| ensures h in s.queues && t.queues[h][k] == s.queues[h][k] {
    }
  }

  lemma RunCounted(c: Config, s: State)
    requires Counted(c, s) && Enabled(c, s, Run) && RunMoves(c, s, Apply(c, s, Run), s.main.batch[0]) && 0 < s.active
    ensures var t := Apply(c, s, Run); Counted(c, t) && AtPoint(c, t) && Pending(s) == [s.main.batch[0]] + Pending(t)
  {
    CountLiveUpdate(s.phase, s.main.batch[0], Executed(s.clock));
  }

  lemma RunDelivered(c: Config, s: State, t: State, i: nat)
    requires Delivered(s) && RunMoves(c, s, t, i)
    ensures Delivered(t)
  {
  }

  lemma PreserveRun(c: Config, s: State)
    requires Inv(c, s) && Enabled(c, s, Run)
    ensures Inv(c, Apply(c, s, Run))
  {
    hide AtMostOneToken, AtLeastOneToken, Shape, Counted, PendingOk, Contents, Ordered, Polite, Delivered, AtPoint;
    var t, i := Apply(c, s, Run), s.main.batch[0];
    RunIsLive(c, s);
    RunHasMoves(c, s);
    RunCounted(c, s);
    RunAtMostOneToken(c, s, t, i);
    RunAtLeastOneToken(c, s, t, i);
    RunOrdered(c, s, t, i);
    RunPolite(c, s, t, i);
    RunPending(s, t, i);
    RunContents(c, s, t, i);
    RunDelivered(c, s, t, i);
  }

  // The invariant over whole runs

  lemma InitHeap(c: Config, s: State)
    requires Init(c, s)
    ensures forall e :: e in s.heap ==> s.heap[e] == 1 && e.due == s.clock && e.host in s.queues
    ensures forall h :: h in s.queues ==> Entry(s.clock, h) in s.heap
  {
    forall e | e in s.heap ensures s.heap[e] == 1 && e.due == s.clock && e.host in s.queues {}
    forall h | h in s.queues ensures Entry(s.clock, h) in s.heap { assert s.heap[Entry(s.clock, h)] == 1; }
  }

  lemma InitQueues(c: Config, s: State)
    requires Init(c, s)
    ensures forall h :: h in s.queues ==> s.queues[h] != []
  {
    forall h | h in s.queues ensures s.queues[h] != [] { QueueOfKnownHost(c.keys, h); }
  }

  lemma InitTokens(c: Config, s: State)
    requires Init(c, s)
    ensures Tokens(s)
  {
    assert s.phase == [];
    hide Init;
    InitHeap(c, s);
    InitQueues(c, s);
    forall h | h in s.queues ensures InHeap(s, h) {
      assert Entry(s.clock, h) in s.heap;
    }
    assert forall i :: !Live(s, i);
  }

  lemma InitPlanOf(c: Config, s: State, h: string)
    requires Init(c, s)
    ensures OfHost(s.started, h) == []
    ensures h in s.queues ==> Unfold(c.lists, s.queues[h]) == PlanOf(c.lists, c.keys, h)
    ensures h !in s.queues ==> PlanOf(c.lists, c.keys, h) == []
  {
    if h in s.queues {
      UnfoldHostQueue(c.lists, c.keys, h);
    } else {
      PlanOfUnknownHost(c.lists, c.keys, h);
    }
  }

  lemma InitOrdered(c: Config, s: State)
    requires Init(c, s)
    ensures Ordered(c, s)
  {
    assert s.phase == [];
    forall h
      ensures OfHost(s.started, h) == []
      ensures h in s.queues ==> Unfold(c.lists, s.queues[h]) == PlanOf(c.lists, c.keys, h)
      ensures h !in s.queues ==> PlanOf(c.lists, c.keys, h) == []
    {
      InitPlanOf(c, s, h);
    }
    hide Init, Unfold, OfHost, PlanOf;
    forall q: seq<Elem> ensures [] + q == q {}
  }

  lemma InitContents(c: Config, s: State)
    requires Init(c, s)
    ensures Contents(c, s)
  {
    forall h, k | h in s.queues && 0 <= k < |s.queues[h]|
      ensures s.queues[h][k].RobotsTxt? && s.queues[h][k].Host() == h {
      HostQueueElems(c.keys, h);
    }
  }

  lemma InitInv(c: Config, s: State)
    requires Init(c, s) && 1 <= c.maxActive
    ensures Inv(c, s)
  {
    InitTokens(c, s);
    InitOrdered(c, s);
    InitContents(c, s);
    hide Tokens, Ordered, Contents;
  }

  lemma {:induction false} QueueOfKnownHost(keys: seq<Robot>, h: string)
    requires exists r :: r in keys && r.host == h
    ensures HostQueue(keys, h) != []
  {
    if keys[|keys| - 1].host != h {
      var r :| r in keys && r.host == h;
      assert r in keys[..|keys| - 1];
      QueueOfKnownHost(keys[..|keys| - 1], h);
    }
  }

  lemma {:induction false} PlanOfUnknownHost(lists: UrlLists, keys: seq<Robot>, h: string)
    requires forall r :: r in keys ==> r.host != h
    ensures PlanOf(lists, keys, h) == []
  {
    if keys != [] {
      PlanOfUnknownHost(lists, keys[..|keys| - 1], h);
      assert keys[|keys| - 1] in keys;
    }
  }

  lemma {:induction false} HostQueueElems(keys: seq<Robot>, h: string)
    ensures forall e :: e in HostQueue(keys, h) ==> e.RobotsTxt? && e.Host() == h
  {
    if keys != [] {
      HostQueueElems(keys[..|keys| - 1], h);
    }
  }

  /** Every step of the main thread and of the outside world keeps the invariant. */
  lemma StepInv(c: Config, s: State, l: Label)
    requires Inv(c, s) && Enabled(c, s, l)
    ensures Inv(c, Apply(c, s, l))
  {
    hide *;
    match l
    case Tick(to) => PreserveTick(c, s, to);
    case Begin(i) => PreserveBegin(c, s, i);
    case Append(i) => PreserveAppend(c, s, i);
    case Push(i) => PreservePush(c, s, i);
    case Guard(top) => PreserveGuard(c, s, top);
    case Pop(top) => PreservePop(c, s, top);
    case Count => PreserveCount(c, s);
    case Again(top) => PreserveAgain(c, s, top);
    case Swap => PreserveSwap(c, s);
    case Run => PreserveRun(c, s);
    case Back => PreserveBack(c, s);
  }

  lemma RunStart(c: Config, states: seq<State>, labels: seq<Label>)
    requires IsRun(c, states, labels)
    ensures |states| == |labels| + 1 && Init(c, states[0])
  {
    hide Init;
  }

  lemma RunStep(c: Config, states: seq<State>, labels: seq<Label>, k: nat)
    requires IsRun(c, states, labels) && k < |labels|
    ensures Enabled(c, states[k], labels[k]) && states[k + 1] == Apply(c, states[k], labels[k])
  {
    hide Enabled, Apply, Init;
  }

  lemma {:induction false} RunInv(c: Config, states: seq<State>, labels: seq<Label>, k: nat)
    requires IsRun(c, states, labels) && 1 <= c.maxActive && k < |states|
    ensures Inv(c, states[k])
  {
    hide *;
    RunStart(c, states, labels);
    if k == 0 {
      InitInv(c, states[0]);
    } else {
      RunInv(c, states, labels, k - 1);
      RunStep(c, states, labels, k - 1);
      StepInv(c, states[k - 1], labels[k - 1]);
    }
  }
}

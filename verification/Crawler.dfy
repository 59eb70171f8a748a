/** The crawl loop over the real containers, running against an arbitrary outside world. Every step it
    takes is recorded as a step of the scheduler's transition system. */
module Crawler {
  import opened Downloads
  import opened DownloadPlan
  import opened Scheduler
  import opened SchedulerInvariant
  import opened SchedulerTheorems
  import opened SchedulerTermination
  import opened Traces
  import Actions = ActionQueue
  import Heap = TimeHeap
  import Queues = DownloadQueues
  import opened RobotsLogic

  /** What has been recorded of a batch: a run of the transition system, step by step. */
  type Trace = Recorded<Config, State, Label>

  ghost predicate IsTrace(t: Trace)
  {
    1 <= t.config.maxActive && IsRun(t.config, t.states, t.labels)
  }

  /** What one batch must come to: every host's plan carried out in order, every callback run, and in
      all one robots.txt per key, each accepted URL as often as dispatched, nothing else. */
  ghost predicate Completed(parse: Parser, urls: seq<UrlElem>, started: seq<Elem>, called: seq<Elem>)
  {
    && (forall h :: OfHost(started, h) == PlanOf(ListsOf(parse, urls), Keys(parse, urls), h))
    && (forall e :: multiset(called)[e] == Expected(parse, urls, e))
    && |started| == |called| == |Keys(parse, urls)| + |Accepted(parse, urls)|
  }

  lemma RunCompletes(parse: Parser, urls: seq<UrlElem>, t: Trace)
    requires t.config.keys == Keys(parse, urls) && t.config.lists == ListsOf(parse, urls)
    requires IsTrace(t) && Now(t).main.Exited?
    ensures var s := Now(t);
      && (forall k :: 0 <= k < |s.delivered| ==> s.delivered[k] < |s.started|)
      && Completed(parse, urls, s.started, DeliveredElems(s))
      && s.active == 0
  {
    var c, n, s := t.config, |t.states| - 1, Now(t);
    BatchIsolation(c, t.states, t.labels, n);
    ExactlyOnce(c, t.states, t.labels, n);
    forall h ensures OfHost(s.started, h) == PlanOf(c.lists, c.keys, h) {
      PerHostOrder(c, t.states, t.labels, n, h);
    }
    hide IsRun;
    forall e ensures multiset(DeliveredElems(s))[e] == Expected(parse, urls, e) {
      BatchIsExact(parse, urls, e);
    }
    BatchSize(parse, urls);
    WorkOfBatch(c.lists, c.keys);
    assert |multiset(s.started)| == |multiset(DeliveredElems(s))| == |multiset(AllElems(c.lists, c.keys))|;
  }

  /** Grouped queues, and one heap entry per queued host, due now. */
  ghost predicate Populated(keys: seq<Robot>, queues: map<string, seq<Elem>>, heap: multiset<Entry>, now: int)
  {
    && Grouped(map[], queues, keys)
    && forall e :: heap[e] == if e.due == now && e.host in queues then 1 else 0
  }

  function Unstarted(queues: map<string, seq<Elem>>, heap: multiset<Entry>, now: int): State
  {
    State(queues, heap, 0, [], Head, now, [], [], [], [], false)
  }

  /** Grouping into empty queues and heaping every host now gives the initial state of a batch. */
  lemma PopulatedIsInit(c: Config, queues: map<string, seq<Elem>>, heap: multiset<Entry>, now: int)
    requires Populated(c.keys, queues, heap, now)
    ensures Init(c, Unstarted(queues, heap, now))
  {
    forall h | h in queues ensures queues[h] == HostQueue(c.keys, h) {
      assert QueueGrouped(map[], queues, c.keys, h);
    }
    forall h ensures h in queues <==> exists r :: r in c.keys && r.host == h {
      assert HasHost(c.keys, h) <==> exists r :: r in c.keys && r.host == h;
    }
  }

  /** The termination measure of the present state. */
  ghost function Budget(t: Trace): int
    requires t.states != []
  {
    var s := Now(t);
    if |s.started| == |s.phase| then Measure(t.config, s) else 0
  }

  /** u goes on from t without adding to the measure, or using it up. */
  ghost predicate Passes(t: Trace, u: Trace) { Extends(t, u) && Budget(u) <= Budget(t) }

  ghost predicate Advances(t: Trace, u: Trace) { Extends(t, u) && Budget(u) < Budget(t) }

  lemma PassesThen(t: Trace, u: Trace, v: Trace)
    requires Passes(t, u) && Passes(u, v)
    ensures Passes(t, v)
  {
    hide Budget;
  }

  /** Of two stretches, one that uses up the measure is enough. */
  lemma AdvancesThen(t: Trace, u: Trace, v: Trace)
    requires (Passes(t, u) && Advances(u, v)) || (Advances(t, u) && Passes(u, v))
    ensures Advances(t, v)
  {
    hide Budget;
  }

  lemma AdvancesIsPasses(t: Trace, u: Trace)
    requires Advances(t, u)
    ensures Passes(t, u) && Extends(t, u) && Budget(u) < Budget(t)
  {
  }

  lemma PassesIsExtends(t: Trace, u: Trace)
    requires Passes(t, u)
    ensures Extends(t, u)
  {
    hide Budget;
  }

  /** What the outside world leaves alone between two states of one batch. */
  predicate Undisturbed(s: State, t: State)
  {
    && t.queues.Keys == s.queues.Keys && t.heap == s.heap && t.active == s.active && t.main == s.main
    && t.started == s.started && t.startAt == s.startAt && |t.phase| == |s.phase| && s.clock <= t.clock
    && forall i :: 0 <= i < |s.phase| && s.phase[i].Executed? ==> t.phase[i] == s.phase[i]
  }

  lemma UndisturbedThen(s: State, t: State, u: State)
    requires Undisturbed(s, t) && Undisturbed(t, u)
    ensures Undisturbed(s, u)
  {
  }

  /** One more step makes a longer run and uses up the measure. */
  lemma OneMoreStep(t: Trace, s: State, l: Label)
    requires IsTrace(t) && Enabled(t.config, Now(t), l) && s == Apply(t.config, Now(t), l)
    ensures IsTrace(Next(t, s, l)) && Passes(t, Next(t, s, l)) && (!l.Tick? ==> Advances(t, Next(t, s, l)))
  {
    hide Enabled, Apply, Measure, Init, Tokens, Counted, PendingOk, Contents, Ordered, Polite, Delivered, AtPoint;
    RunInv(t.config, t.states, t.labels, |t.states| - 1);
    StepMeasure(t.config, Now(t), l);
  }

  lemma TraceInv(t: Trace)
    requires IsTrace(t)
    ensures t.states != [] && Inv(t.config, Now(t)) && |Now(t).started| == |Now(t).phase| && 0 <= Budget(t)
  {
    RunInv(t.config, t.states, t.labels, |t.states| - 1);
    hide IsRun, Tokens, Counted, PendingOk, Contents, Ordered, Polite, Delivered, AtPoint;
    LeftIsNat(t.config, Now(t));
    hide Left, InFuture, Rank;
  }

  lemma BudgetIsNat(t: Trace)
    requires IsTrace(t)
    ensures t.states != [] && 0 <= Budget(t)
  {
    TraceInv(t);
  }

  /** A callback's append finds its host's queue in the map. */
  lemma AppendHasQueue(t: Trace, i: nat)
    requires IsTrace(t) && Enabled(t.config, Now(t), Append(i))
    ensures Now(t).started[i].Host() in Now(t).queues
  {
    TraceInv(t);
    AppendOwner(t.config, Now(t), i);
  }

  /** A running callback has appended no more than its list. */
  lemma AppendsWithinList(t: Trace, i: nat)
    requires IsTrace(t) && Known(Now(t), i) && Now(t).phase[i].Calling?
    ensures Now(t).phase[i].added <= |Urls(t.config.lists, Now(t).started[i])|
  {
    TraceInv(t);
  }

  /** In the plain wait with no action pushed yet, some callback can still move. */
  lemma SomeoneStillCalling(t: Trace) returns (i: nat)
    requires IsTrace(t) && Now(t).main == Waiting(None) && Now(t).actions == []
    ensures Live(Now(t), i) && !Now(t).phase[i].Finished?
  {
    var s := Now(t);
    TraceInv(t);
    hide Tokens, Contents, Ordered, Polite, Delivered, IsRun;
    i := SomeLive(s);
    assert i !in Pending(s);
  }

  /** The earliest entry's host has a queue to pop from. */
  lemma TopHasQueue(t: Trace, top: Entry)
    requires IsTrace(t) && top in Now(t).heap
    ensures Poppable(Now(t), top.host)
  {
    TraceInv(t);
    TopIsPoppable(t.config, Now(t), top);
  }

  /** While popping, the heap has an entry. */
  lemma PoppingHasTop(t: Trace)
    requires IsTrace(t) && Now(t).main.Popping?
    ensures Now(t).heap != multiset{} && !Now(t).fault
  {
    TraceInv(t);
  }

  /** The action at hand finds its download, its host's queue and a positive counter. */
  lemma RunIsSafe(t: Trace)
    requires IsTrace(t) && Now(t).main.Draining? && Now(t).main.batch != []
    ensures var s := Now(t);
      Enabled(t.config, s, Run) && s.started[s.main.batch[0]].Host() in s.queues && 0 < s.active
  {
    var s := Now(t);
    TraceInv(t);
    assert Pending(s)[0] == s.main.batch[0];
    hide IsRun, Contents, Ordered, Polite, Delivered, AtPoint;
    RunIsLive(t.config, s);
  }

  /** What StartEarliest does to the fields is the transition system's pop. */
  lemma StartApplied(c: Config, s: State, t: State, top: Entry)
    requires !s.fault && s.main.Popping? && IsTop(s.heap, top) && Poppable(s, top.host)
    requires var q := s.queues[top.host];
      t == s.(queues := s.queues[top.host := q[..|q| - 1]], heap := s.heap - multiset{top},
              main := Counting(s.main.now, top.due), started := s.started + [q[|q| - 1]],
              startAt := s.startAt + [s.clock], phase := s.phase + [InFlight])
    ensures Enabled(c, s, Pop(top)) && t == Apply(c, s, Pop(top))
  {
  }

  /** And what DownloadFinished does is its finish action. */
  lemma FinishApplied(c: Config, s: State, t: State)
    requires Enabled(c, s, Run) && s.started[s.main.batch[0]].Host() in s.queues && 0 < s.active
    requires var i := s.main.batch[0];
      var h := s.started[i].Host();
      t == s.(queues := if s.queues[h] != [] then s.queues else s.queues - {h},
              heap := if s.queues[h] != [] then s.heap + multiset{Entry(s.clock + c.timeout, h)} else s.heap,
              active := s.active - 1, phase := s.phase[i := Executed(s.clock)], main := Draining(s.main.batch[1..]))
    ensures t == Apply(c, s, Run)
  {
  }

  /** At the start of a stretch nothing has happened. */
  lemma NothingYet(t: Trace)
    requires IsTrace(t)
    ensures t.states != [] && Passes(t, t) && Undisturbed(Now(t), Now(t))
  {
    hide Budget;
  }

  lemma FrontIsTop(h: seq<Entry>)
    requires Heap.IsHeap(h) && h != []
    ensures IsTop(multiset(h), h[0])
  {
    forall e | e in multiset(h) ensures h[0].due <= e.due {
      var i :| 0 <= i < |h| && h[i] == e;
      Heap.FrontIsEarliest(h, i);
    }
  }

  lemma FirstTrace(c: Config, queues: map<string, seq<Elem>>, heap: multiset<Entry>, now: int)
    requires Populated(c.keys, queues, heap, now) && 1 <= c.maxActive
    ensures IsTrace(Recorded(c, [Unstarted(queues, heap, now)], []))
  {
    PopulatedIsInit(c, queues, heap, now);
    hide Init, Populated, Enabled, Apply;
  }

  /** Where the while test and the two if tests send the main thread, judged over the whole vector. */
  predicate Chosen(next: Main, active: int, maxActive: int, entries: seq<Entry>, clock: int)
  {
    match next
    case Waiting(None) => !(active < maxActive) || entries == []
    case Waiting(Some(time)) =>
      active < maxActive && IsEarliest(entries, time) && forall e :: e in entries ==> clock < e.due
    case Popping(now, last) => active < maxActive && IsEarliest(entries, last) && last <= now == clock
    case _ => false
  }

  /** The earliest due time in the vector. */
  predicate IsEarliest(entries: seq<Entry>, time: int)
  {
    (exists e :: e in entries && e.due == time) && forall e :: e in entries ==> time <= e.due
  }

  lemma FrontIsEarliestDue(h: seq<Entry>)
    requires Heap.IsHeap(h) && h != []
    ensures IsEarliest(h, h[0].due)
  {
    assert h[0] in h;
    forall e | e in h ensures h[0].due <= e.due {
      var i :| 0 <= i < |h| && h[i] == e;
      Heap.FrontIsEarliest(h, i);
    }
  }

  /** The choice made from the vector is the system's choice from the heap. */
  lemma ChosenIsGuard(c: Config, s: State, entries: seq<Entry>, next: Main)
    requires !s.fault && s.main.Head? && KeepsGoing(s) && s.heap == multiset(entries)
    requires Chosen(next, s.active, c.maxActive, entries, s.clock)
    requires entries == [] || IsTop(s.heap, entries[0])
    ensures var l := Guard(if entries != [] then entries[0] else Entry(0, ""));
      Enabled(c, s, l) && Apply(c, s, l) == s.(main := next)
  {
    if entries != [] {
      assert entries[0] in multiset(entries);
      forall e | e in entries ensures e in multiset(entries) {}
    }
  }

  /** The locals of crawl() are fields, since completion callbacks reach them through pointers. The
      downloader, its callbacks and the clock are the fields from clock on; started, startAt and phase
      say what each download handed to the downloader is doing. */
  class Crawler {
    const parse: Parser
    const maxActiveDownloads: nat
    const perHostTimeout: int

    var downloadList: Queues.DownloadQueues
    var timeHeap: Heap.TimeHeap
    var finishActions: Actions.ActionQueue<nat>
    var activeDownloads: int

    var clock: int
    var lists: UrlLists
    var started: seq<Elem>
    var startAt: seq<int>
    var phase: seq<Phase>
    var delivered: seq<nat>

    ghost var main: Main
    ghost var trace: Trace

    /** The abstract state the fields stand for. */
    ghost function Abs(): State
      reads this, downloadList, timeHeap, finishActions
    {
      State(downloadList.downloads, multiset(timeHeap.entries), activeDownloads, finishActions.actions, main, clock,
            started, startAt, phase, delivered, false)
    }

    /** The recorded run is a run of the transition system and ends in the present state. */
    ghost predicate Valid()
      reads this, downloadList, timeHeap, finishActions
    {
      && IsTrace(trace) && Now(trace) == Abs() && Configured()
      && timeHeap.Valid() && finishActions.Valid()
    }

    ghost predicate Configured()
      reads this
    {
      && trace.config.lists == lists && trace.config.maxActive == maxActiveDownloads
      && trace.config.timeout == perHostTimeout
    }

    constructor (parse: Parser, maxActiveDownloads: nat, perHostTimeout: int)
      requires 1 <= maxActiveDownloads
      ensures this.parse == parse && this.maxActiveDownloads == maxActiveDownloads
      ensures this.perHostTimeout == perHostTimeout
      ensures activeDownloads == 0
    {
      this.parse := parse;
      this.maxActiveDownloads := maxActiveDownloads;
      this.perHostTimeout := perHostTimeout;
      downloadList := new Queues.DownloadQueues();
      timeHeap := new Heap.TimeHeap();
      finishActions := new Actions.ActionQueue<nat>();
      activeDownloads, clock := 0, 0;
      lists, started, startAt, phase, delivered := map[], [], [], [], [];
      main, trace := Exited, Recorded(Config([], map[], 0, 0), [], []);
    }

    /** Construction as callers see it: a crawler without download slots is refused. */
    static method Create(parse: Parser, maxActiveQueues: nat, perHostTimeout: int) returns (r: Result<Crawler>)
      ensures r.Failure? <==> maxActiveQueues <= 0
      ensures r.Failure? ==> r.error == InvalidMaxActiveDownloads
      ensures r.Success? ==> fresh(r.value) && r.value.activeDownloads == 0 && r.value.parse == parse
      ensures r.Success? ==> r.value.maxActiveDownloads == maxActiveQueues && r.value.perHostTimeout == perHostTimeout
    {
      if maxActiveQueues <= 0 {
        return Failure(InvalidMaxActiveDownloads);
      }
      var crawler := new Crawler(parse, maxActiveQueues, perHostTimeout);
      r := Success(crawler);
    }

    // Recording steps

    ghost method Record(l: Label)
      requires IsTrace(trace) && Configured() && timeHeap.Valid() && finishActions.Valid()
      requires Enabled(trace.config, Now(trace), l) && Abs() == Apply(trace.config, Now(trace), l)
      modifies this`trace
      ensures Valid() && trace == Next(old(trace), Abs(), l)
      ensures Passes(old(trace), trace) && (!l.Tick? ==> Advances(old(trace), trace))
    {
      hide IsTrace, Enabled, Apply, Passes, Advances, Now, Next;
      OneMoreStep(trace, Abs(), l);
      trace := Next(trace, Abs(), l);
      NextIsNow(old(trace), Abs(), l);
    }

    // The outside world

    method Tick(to: int)
      requires Valid() && clock <= to
      modifies this`clock, this`trace
      ensures Valid() && clock == to && Undisturbed(old(Now(trace)), Now(trace)) && Passes(old(trace), trace)
      ensures phase == old(phase) && delivered == old(delivered)
    {
      hide IsTrace, Budget;
      clock := to;
      Record(Label.Tick(to));
    }

    /** Download i's completion callback begins; a page's user callback runs here. */
    method BeginCallback(i: nat)
      requires Valid() && Known(Abs(), i) && phase[i].InFlight?
      modifies this`phase, this`delivered, this`trace
      ensures Valid() && Undisturbed(old(Now(trace)), Now(trace)) && Advances(old(trace), trace)
      ensures delivered == old(delivered) + [i] && phase == old(phase)[i := Calling(0)]
    {
      hide IsTrace, Budget;
      phase := phase[i := Calling(0)];
      delivered := delivered + [i];
      Record(Begin(i));
    }

    /** The robots.txt callback appends the next URL of its list to the host's queue. */
    method AppendUrl(i: nat)
      requires Valid() && Known(Abs(), i) && phase[i].Calling? && phase[i].added < |Urls(lists, started[i])|
      modifies this`phase, this`trace, downloadList
      ensures Valid() && Undisturbed(old(Now(trace)), Now(trace)) && Advances(old(trace), trace)
      ensures var e, k, before := started[i], old(phase)[i].added, old(downloadList.downloads);
        && phase == old(phase)[i := Calling(k + 1)] && e.Host() in before
        && downloadList.downloads == before[e.Host() := before[e.Host()] + [Page(e.robot, Urls(lists, e)[k])]]
    {
      hide IsTrace, Budget;
      AppendHasQueue(trace, i);
      var e, k := started[i], phase[i].added;
      downloadList.AddDownload(e.Host(), Page(e.robot, Urls(lists, e)[k]));
      phase := phase[i := Calling(k + 1)];
      Record(Append(i));
    }

    /** The callback hands the finish action to the main thread. */
    method PushFinish(i: nat)
      requires Valid() && Known(Abs(), i) && phase[i].Calling? && phase[i].added == |Urls(lists, started[i])|
      modifies this`phase, this`trace, finishActions
      ensures Valid() && Undisturbed(old(Now(trace)), Now(trace)) && Advances(old(trace), trace)
      ensures finishActions.actions == old(finishActions.actions) + [i] && phase == old(phase)[i := Finished]
    {
      hide IsTrace, Budget;
      finishActions.Push(i);
      phase := phase[i := Finished];
      Record(Label.Push(i));
    }

    method CallbackStep(i: nat)
      requires Valid() && Live(Abs(), i) && !phase[i].Finished?
      modifies this`phase, this`delivered, this`trace, downloadList, finishActions
      ensures Valid() && Undisturbed(old(Now(trace)), Now(trace)) && Advances(old(trace), trace)
    {
      hide IsTrace, Undisturbed, Advances;
      if phase[i].InFlight? {
        BeginCallback(i);
      } else {
        AppendsWithinList(trace, i);
        if phase[i].added < |Urls(lists, started[i])| {
          AppendUrl(i);
        } else {
          PushFinish(i);
        }
      }
    }

    /** Any number of clock ticks and callback steps, of any downloads in flight. */
    method Outside()
      requires Valid()
      modifies this`clock, this`phase, this`delivered, this`trace, downloadList, finishActions
      ensures Valid() && Undisturbed(old(Now(trace)), Now(trace)) && Passes(old(trace), trace)
    {
      NothingYet(trace);
      hide IsTrace, Undisturbed, Passes, Advances;
      var n: nat :| true;
      while n > 0
        invariant Valid() && Undisturbed(old(Now(trace)), Now(trace)) && Passes(old(trace), trace)
      {
        ghost var before := trace;
        OutsideStep();
        UndisturbedThen(old(Now(trace)), Now(before), Now(trace));
        PassesThen(old(trace), before, trace);
        n := n - 1;
      }
    }

    method OutsideStep()
      requires Valid()
      modifies this`clock, this`phase, this`delivered, this`trace, downloadList, finishActions
      ensures Valid() && Undisturbed(old(Now(trace)), Now(trace)) && Passes(old(trace), trace)
    {
      hide IsTrace, Undisturbed, Passes, Advances;
      var i: nat :| true;
      if i < |phase| && i < |started| && !phase[i].Executed? && !phase[i].Finished? {
        CallbackStep(i);
        AdvancesIsPasses(old(trace), trace);
      } else {
        var to :| clock <= to;
        Tick(to);
      }
    }

    // Waiting for the outside world

    /** While the plain wait goes on, some unfinished download's callback moves. */
    method SomeCallbackMoves()
      requires Valid() && main == Waiting(None) && finishActions.actions == []
      modifies this`phase, this`delivered, this`trace, downloadList, finishActions
      ensures Valid() && Undisturbed(old(Now(trace)), Now(trace)) && Advances(old(trace), trace)
    {
      hide IsTrace, Undisturbed, Advances;
      ghost var someone := SomeoneStillCalling(trace);
      var i: nat :| i < |phase| && i < |started| && !phase[i].Executed? && !phase[i].Finished?;
      CallbackStep(i);
    }

    /** Some callback moves, after and before which anything may happen. */
    method WaitOnce()
      requires Valid() && main == Waiting(None) && finishActions.actions == []
      modifies this`clock, this`phase, this`delivered, this`trace, downloadList, finishActions
      ensures Valid() && Undisturbed(old(Now(trace)), Now(trace)) && Passes(old(trace), trace)
      ensures finishActions.actions == [] ==> Advances(old(trace), trace)
    {
      Outside();
      ghost var before := trace;
      assert Undisturbed(old(Now(trace)), Now(trace));
      hide IsTrace, Passes, Advances;
      if finishActions.actions == [] {
        assert main == Waiting(None);
        hide Undisturbed;
        SomeCallbackMoves();
        UndisturbedThen(old(Now(trace)), Now(before), Now(trace));
        AdvancesThen(old(trace), before, trace);
        AdvancesIsPasses(old(trace), trace);
      }
    }

    /** The plain wait ends once a callback has pushed an action, and it does end. */
    method AwaitAction()
      requires Valid() && main == Waiting(None)
      modifies this`clock, this`phase, this`delivered, this`trace, downloadList, finishActions
      ensures Valid() && Undisturbed(old(Now(trace)), Now(trace)) && Passes(old(trace), trace)
      ensures finishActions.actions != [] && main == Waiting(None)
    {
      Outside();
      assert main == Waiting(None);
      hide IsTrace, Undisturbed, Passes, Advances, Budget;
      BudgetIsNat(trace);
      while finishActions.actions == []
        invariant Valid() && main == Waiting(None)
        invariant Undisturbed(old(Now(trace)), Now(trace)) && Passes(old(trace), trace)
        invariant trace.states != [] && 0 <= Budget(trace)
        decreases finishActions.actions == [], Budget(trace)
      {
        ghost var before := trace;
        WaitOnce();
        UndisturbedThen(old(Now(trace)), Now(before), Now(trace));
        PassesThen(old(trace), before, trace);
        if finishActions.actions == [] { AdvancesIsPasses(before, trace); }
        BudgetIsNat(trace);
      }
    }

    /** The wait with a deadline ends with an action or at the deadline. */
    method AwaitActionUntil(time: int)
      requires Valid() && main == Waiting(Some(time))
      modifies this`clock, this`phase, this`delivered, this`trace, downloadList, finishActions
      ensures Valid() && Undisturbed(old(Now(trace)), Now(trace)) && Passes(old(trace), trace)
      ensures finishActions.actions != [] || time <= clock
      ensures main == Waiting(Some(time))
    {
      Outside();
      assert main == Waiting(Some(time));
      hide IsTrace, Undisturbed, Passes;
      while finishActions.actions == [] && clock < time
        invariant Valid() && main == Waiting(Some(time))
        invariant Undisturbed(old(Now(trace)), Now(trace)) && Passes(old(trace), trace)
        decreases time - clock
      {
        ghost var before := trace;
        TimePasses();
        UndisturbedThen(old(Now(trace)), Now(before), Now(trace));
        PassesThen(old(trace), before, trace);
      }
    }

    /** Anything may happen, and the clock moves. */
    method TimePasses()
      requires Valid()
      modifies this`clock, this`phase, this`delivered, this`trace, downloadList, finishActions
      ensures Valid() && Undisturbed(old(Now(trace)), Now(trace)) && Passes(old(trace), trace)
      ensures old(clock) < clock
    {
      Outside();
      ghost var before := trace;
      assert old(clock) <= clock;
      hide IsTrace, Undisturbed, Passes;
      var pause: nat :| true;
      Tick(clock + 1 + pause);
      UndisturbedThen(old(Now(trace)), Now(before), Now(trace));
      PassesThen(old(trace), before, trace);
    }

    // Finish actions

    /** What DownloadFinishedAction pushes: reschedule the host or drop its queue, free the slot. */
    method DownloadFinished(i: nat)
      requires Valid() && main.Draining? && main.batch != [] && main.batch[0] == i
      modifies this`activeDownloads, this`phase, this`main, this`trace, downloadList, timeHeap
      ensures Valid() && main == Draining(old(main.batch)[1..]) && Advances(old(trace), trace)
      ensures i < |phase| == |old(phase)| && phase == old(phase)[i := Executed(clock)]
      ensures activeDownloads == old(activeDownloads) - 1
    {
      hide IsTrace, Advances, Apply, Enabled;
      FinishDownload(i);
      Record(Run);
    }

    /** Back into the heap while the host has downloads left, out of the map when not. */
    method Release(it: string)
      requires timeHeap.Valid() && it in downloadList.downloads
      modifies downloadList, timeHeap
      ensures timeHeap.Valid()
      ensures downloadList.downloads
           == if old(downloadList.downloads)[it] != [] then old(downloadList.downloads)
             else old(downloadList.downloads) - {it}
      ensures multiset(timeHeap.entries)
           == if old(downloadList.downloads)[it] != []
              then old(multiset(timeHeap.entries)) + multiset{Entry(clock + perHostTimeout, it)}
              else old(multiset(timeHeap.entries))
    {
      if downloadList.downloads[it] != [] {
        timeHeap.Push(it, perHostTimeout, clock);
      } else {
        downloadList.Erase(it);
      }
    }

    method FinishDownload(i: nat)
      requires Valid() && main.Draining? && main.batch != [] && main.batch[0] == i
      modifies this`activeDownloads, this`phase, this`main, downloadList, timeHeap
      ensures timeHeap.Valid() && main == Draining(old(main.batch)[1..])
      ensures Enabled(trace.config, old(Abs()), Run) && Abs() == Apply(trace.config, old(Abs()), Run)
      ensures i < |phase| == |old(phase)| && phase == old(phase)[i := Executed(clock)]
      ensures activeDownloads == old(activeDownloads) - 1
    {
      ghost var s := Abs();
      RunIsSafe(trace);
      assert i < |phase| && i < |started| && started[i].Host() in downloadList.downloads;
      hide IsTrace, Enabled, Apply;
      FinishFields(i);
      FinishApplied(trace.config, s, Abs());
    }

    method FinishFields(i: nat)
      requires timeHeap.Valid() && main.Draining? && main.batch != []
      requires i < |phase| && i < |started| && started[i].Host() in downloadList.downloads
      modifies this`activeDownloads, this`phase, this`main, downloadList, timeHeap
      ensures timeHeap.Valid() && main == Draining(old(main.batch)[1..])
      ensures phase == old(phase)[i := Executed(clock)] && activeDownloads == old(activeDownloads) - 1
      ensures var s, h := old(Abs()), started[i].Host();
        Abs() == s.(queues := if s.queues[h] != [] then s.queues else s.queues - {h},
                    heap := if s.queues[h] != [] then s.heap + multiset{Entry(s.clock + perHostTimeout, h)} else s.heap,
                    active := s.active - 1, phase := s.phase[i := Executed(s.clock)],
                      main := Draining(s.main.batch[1..]))
    {
      Release(started[i].Host());
      activeDownloads := activeDownloads - 1;
      phase := phase[i := Executed(clock)];
      main := Draining(main.batch[1..]);
    }

    /** One action of the batch; callbacks may run before it. */
    method RunAction(i: nat)
      requires Valid() && main.Draining? && main.batch != [] && main.batch[0] == i
      modifies this`activeDownloads, this`clock, this`phase, this`delivered, this`main, this`trace,
               downloadList, timeHeap, finishActions
      ensures Valid() && main == Draining(old(main.batch)[1..]) && Advances(old(trace), trace)
      ensures i < |phase| == |old(phase)| && phase[i].Executed?
      ensures forall k :: 0 <= k < |old(phase)| && old(phase)[k].Executed? ==> phase[k].Executed?
    {
      hide IsTrace, Passes, Advances;
      Outside();
      ghost var before := trace;
      DownloadFinished(i);
      AdvancesThen(old(trace), before, trace);
    }

    /** The batch's actions in order; callbacks may push more meanwhile. */
    method RunActions(toBeExecuted: seq<nat>)
      requires Valid() && main == Draining(toBeExecuted)
      modifies this`activeDownloads, this`clock, this`phase, this`delivered, this`main, this`trace,
               downloadList, timeHeap, finishActions
      ensures Valid() && main == Draining([]) && Passes(old(trace), trace)
      ensures forall i :: i in toBeExecuted ==> i < |phase| && phase[i].Executed?
    {
      NothingYet(trace);
      hide IsTrace, Passes, Advances, Abs;
      for k := 0 to |toBeExecuted|
        invariant Valid() && main == Draining(toBeExecuted[k..]) && Passes(old(trace), trace)
        invariant forall j :: 0 <= j < k ==> toBeExecuted[j] < |phase| && phase[toBeExecuted[j]].Executed?
      {
        ghost var before := trace;
        RunAction(toBeExecuted[k]);
        AdvancesIsPasses(before, trace);
        PassesThen(old(trace), before, trace);
      }
      ghost var executed := trace;
      AfterActions();
      PassesThen(old(trace), executed, trace);
    }

    /** Callbacks may still run when the batch has been executed. */
    method AfterActions()
      requires Valid() && main == Draining([])
      modifies this`clock, this`phase, this`delivered, this`trace, downloadList, finishActions
      ensures Valid() && main == Draining([]) && Passes(old(trace), trace) && |phase| == |old(phase)|
      ensures forall k :: 0 <= k < |phase| && old(phase)[k].Executed? ==> phase[k].Executed?
    {
      hide IsTrace, Passes, Advances;
      Outside();
    }

    /** Past the do-while loop, or at the end of a wait. */
    ghost predicate ReadyToSwap()
      reads this, finishActions
    {
      || main.Flushing?
      || (main.Waiting? && (finishActions.actions != [] || (main.deadline.Some? && main.deadline.value <= clock)))
    }

    /** The pushed actions become the batch to execute. */
    method SwapActions() returns (toBeExecuted: seq<nat>)
      requires Valid() && ReadyToSwap()
      modifies this`main, this`trace, finishActions
      ensures Valid() && main == Draining(toBeExecuted) && Advances(old(trace), trace)
      ensures toBeExecuted == old(finishActions.actions) && finishActions.actions == []
    {
      hide IsTrace, Advances;
      toBeExecuted := finishActions.Swap();
      main := Draining(toBeExecuted);
      Record(Label.Swap);
    }

    ghost method ReturnToHead()
      requires Valid() && main == Draining([])
      modifies this`main, this`trace
      ensures Valid() && main == Head && Advances(old(trace), trace)
    {
      hide IsTrace, Advances;
      main := Head;
      Record(Back);
    }

    /** Swap out the pushed actions, run them all, and return to the loop head. */
    method ExecuteActions()
      requires Valid() && ReadyToSwap()
      modifies this`activeDownloads, this`clock, this`phase, this`delivered, this`main, this`trace,
               downloadList, timeHeap, finishActions
      ensures Valid() && main == Head && Advances(old(trace), trace)
      ensures forall i :: i in old(finishActions.actions) ==> i < |phase| && phase[i].Executed?
    {
      hide IsTrace, Passes, Advances, Abs;
      var toBeExecuted := SwapActions();
      ghost var swapped := trace;
      RunActions(toBeExecuted);
      AdvancesThen(old(trace), swapped, trace);
      ghost var executed := trace;
      ReturnToHead();
      AdvancesIsPasses(executed, trace);
      AdvancesThen(old(trace), executed, trace);
    }

    // Starting downloads

    /** m_downloader->download(timeHeap.pop()): the download is running before the counter moves. */
    method StartEarliest()
      requires Valid() && main.Popping?
      modifies this`started, this`startAt, this`phase, this`main, this`trace, downloadList, timeHeap
      ensures Valid() && main.Counting? && main.now == old(main.now) && Advances(old(trace), trace)
      ensures |started| == |old(started)| + 1
    {
      hide IsTrace, Advances, Apply, Enabled;
      ghost var top := PopEarliest();
      Record(Pop(top));
    }

    method PopEarliest() returns (ghost top: Entry)
      requires Valid() && main.Popping?
      modifies this`started, this`startAt, this`phase, this`main, downloadList, timeHeap
      ensures timeHeap.Valid() && main == Counting(old(main.now), top.due)
      ensures Enabled(trace.config, old(Abs()), Pop(top)) && Abs() == Apply(trace.config, old(Abs()), Pop(top))
      ensures |started| == |old(started)| + 1
    {
      hide IsTrace;
      PoppingHasTop(trace);
      top := timeHeap.entries[0];
      FrontIsTop(timeHeap.entries);
      TopHasQueue(trace, top);
      ghost var s := Abs();
      var r := timeHeap.Pop(downloadList);
      started := started + [r.value];
      startAt := startAt + [clock];
      phase := phase + [InFlight];
      main := Counting(main.now, top.due);
      hide Enabled, Apply;
      StartApplied(trace.config, s, Abs(), top);
    }

    /** ++activeDownloads. */
    method CountStarted()
      requires Valid() && main.Counting?
      modifies this`activeDownloads, this`main, this`trace
      ensures Valid() && main.Testing? && main.now == old(main.now) && Advances(old(trace), trace)
      ensures activeDownloads == old(activeDownloads) + 1
    {
      hide IsTrace, Advances;
      activeDownloads := activeDownloads + 1;
      main := Testing(main.now, main.last);
      Record(Count);
    }

    /** The do-while condition, which looks at the front only: it holds exactly when a slot is free and
        some entry of the whole vector is due at the clock reading. */
    method TestAgain(crtTime: int) returns (again: bool)
      requires Valid() && main.Testing? && main.now == crtTime
      modifies this`main, this`trace
      ensures Valid() && (if again then main.Popping? && main.now == crtTime else main.Flushing?)
      ensures Advances(old(trace), trace)
      ensures again <==> activeDownloads < maxActiveDownloads && exists e :: e in timeHeap.entries && e.due <= crtTime
    {
      hide IsTrace, Advances;
      again := activeDownloads < maxActiveDownloads && timeHeap.entries != [] && timeHeap.entries[0].due <= crtTime;
      if timeHeap.entries != [] {
        FrontIsTop(timeHeap.entries);
        FrontIsEarliestDue(timeHeap.entries);
      }
      main := if again then Popping(main.now, main.last) else Flushing;
      Record(Again(if timeHeap.entries != [] then timeHeap.entries[0] else Entry(0, "")));
    }

    /** download() and the increment; callbacks may run before and in between. */
    method StartAndCount(crtTime: int)
      requires Valid() && main.Popping? && main.now == crtTime
      modifies this`activeDownloads, this`clock, this`started, this`startAt, this`phase, this`delivered,
               this`main, this`trace, downloadList, timeHeap, finishActions
      ensures Valid() && main.Testing? && main.now == crtTime && Advances(old(trace), trace)
    {
      hide IsTrace, Passes, Advances;
      Outside();
      ghost var before := trace;
      StartEarliest();
      AdvancesThen(old(trace), before, trace);
      ghost var running := trace;
      Outside();
      AdvancesThen(old(trace), running, trace);
      ghost var later := trace;
      CountStarted();
      AdvancesIsPasses(later, trace);
      AdvancesThen(old(trace), later, trace);
    }

    /** The body of the do-while loop and its condition. */
    method StartOne(crtTime: int) returns (again: bool)
      requires Valid() && main.Popping? && main.now == crtTime
      modifies this`activeDownloads, this`clock, this`started, this`startAt, this`phase, this`delivered,
               this`main, this`trace, downloadList, timeHeap, finishActions
      ensures Valid() && (if again then main.Popping? && main.now == crtTime else main.Flushing?)
      ensures Advances(old(trace), trace)
      ensures again <==> activeDownloads < maxActiveDownloads && exists e :: e in timeHeap.entries && e.due <= crtTime
    {
      hide IsTrace, Passes, Advances;
      StartAndCount(crtTime);
      ghost var counted := trace;
      Outside();
      AdvancesThen(old(trace), counted, trace);
      ghost var before := trace;
      again := TestAgain(crtTime);
      AdvancesIsPasses(before, trace);
      AdvancesThen(old(trace), before, trace);
    }

    /** The do-while loop: start due hosts while slots are free, judged by one clock reading. */
    method StartDueHosts(crtTime: int)
      requires Valid() && main.Popping? && main.now == crtTime
      modifies this`activeDownloads, this`clock, this`started, this`startAt, this`phase, this`delivered,
               this`main, this`trace, downloadList, timeHeap, finishActions
      ensures Valid() && main.Flushing? && Passes(old(trace), trace)
      ensures !(activeDownloads < maxActiveDownloads && exists e :: e in timeHeap.entries && e.due <= crtTime)
    {
      NothingYet(trace);
      hide IsTrace, Passes, Advances, Budget, Abs;
      BudgetIsNat(trace);
      var again := true;
      while again
        invariant Valid() && (if again then main.Popping? && main.now == crtTime else main.Flushing?)
        invariant again
          || !(activeDownloads < maxActiveDownloads && exists e :: e in timeHeap.entries && e.due <= crtTime)
        invariant Passes(old(trace), trace) && trace.states != [] && 0 <= Budget(trace)
        decreases again, Budget(trace)
      {
        ghost var before := trace;
        again := StartOne(crtTime);
        AdvancesIsPasses(before, trace);
        PassesThen(old(trace), before, trace);
        BudgetIsNat(trace);
      }
    }

    /** The loop, and what the outside world does before the pushed actions are swapped out. */
    method StartUntilSwap(crtTime: int)
      requires Valid() && main.Popping? && main.now == crtTime
      modifies this`activeDownloads, this`clock, this`started, this`startAt, this`phase, this`delivered,
               this`main, this`trace, downloadList, timeHeap, finishActions
      ensures Valid() && main.Flushing? && Passes(old(trace), trace)
    {
      hide IsTrace, Passes, Advances;
      StartDueHosts(crtTime);
      ghost var before := trace;
      Outside();
      PassesThen(old(trace), before, trace);
    }

    // The crawl loop

    ghost method DecideTo(next: Main)
      requires Valid() && main == Head
      requires Chosen(next, activeDownloads, maxActiveDownloads, timeHeap.entries, clock)
      requires downloadList.downloads != map[] || activeDownloads > 0 || timeHeap.entries != []
      modifies this`main, this`trace
      ensures Valid() && main == next && Advances(old(trace), trace)
      ensures |trace.states| == |old(trace).states| + 1 && Now(trace).main == next
    {
      hide IsTrace, Advances, Chosen;
      if timeHeap.entries != [] { FrontIsTop(timeHeap.entries); }
      ChosenIsGuard(trace.config, Abs(), timeHeap.entries, next);
      main := next;
      hide Enabled, Apply;
      Record(Guard(if timeHeap.entries != [] then timeHeap.entries[0] else Entry(0, "")));
    }

    /** The three branches of an iteration, up to the execution of the pushed actions. */
    method WaitOrStart() returns (ghost next: Main)
      requires Valid() && main == Head
      requires downloadList.downloads != map[] || activeDownloads > 0 || timeHeap.entries != []
      modifies this`activeDownloads, this`clock, this`started, this`startAt, this`phase, this`delivered,
               this`main, this`trace, downloadList, timeHeap, finishActions
      ensures Valid() && ReadyToSwap() && Advances(old(trace), trace)
      ensures Chosen(next, old(activeDownloads), maxActiveDownloads, old(timeHeap.entries), old(clock))
      ensures |old(trace).states| < |trace.states| && trace.states[|old(trace).states|].main == next
    {
      hide IsTrace, Passes, Advances, Abs, Undisturbed;
      ghost var decided;
      if !(activeDownloads < maxActiveDownloads) || timeHeap.entries == [] {
        next := Waiting(None);
        DecideTo(Waiting(None));
        decided := trace;
        AwaitAction();
      } else {
        var crtTime := clock;
        var top := timeHeap.TopTime();
        var topTime := top.value;
        FrontIsEarliestDue(timeHeap.entries);
        if crtTime < topTime {
          next := Waiting(Some(topTime));
          DecideTo(Waiting(Some(topTime)));
          decided := trace;
          AwaitActionUntil(topTime);
        } else {
          next := Popping(crtTime, topTime);
          DecideTo(Popping(crtTime, topTime));
          decided := trace;
          StartUntilSwap(crtTime);
        }
      }
      AdvancesThen(old(trace), decided, trace);
      PassesIsExtends(decided, trace);
      StateKept(decided, trace);
    }

    /** One iteration of the inner while loop, once its test has succeeded. Its first recorded state is
        the decision, judged over the whole vector at the clock reading of the iteration. */
    method CrawlStep()
      requires Valid() && main == Head
      requires downloadList.downloads != map[] || activeDownloads > 0 || timeHeap.entries != []
      modifies this`activeDownloads, this`clock, this`started, this`startAt, this`phase, this`delivered,
               this`main, this`trace, downloadList, timeHeap, finishActions
      ensures Valid() && main == Head && Advances(old(trace), trace)
      ensures |old(trace).states| < |trace.states|
      ensures Chosen(trace.states[|old(trace).states|].main, old(activeDownloads), maxActiveDownloads,
                     old(timeHeap.entries), old(clock))
    {
      hide IsTrace, Passes, Advances, Abs, Chosen;
      ghost var next := WaitOrStart();
      ghost var waited := trace;
      ExecuteActions();
      AdvancesIsPasses(waited, trace);
      AdvancesThen(old(trace), waited, trace);
      StateKept(waited, trace);
    }

    /** Fresh containers for a batch: group its URLs and schedule every host now. */
    method Populate(urls: seq<UrlElem>)
      modifies this`downloadList, this`finishActions, this`timeHeap, this`lists
      ensures fresh(downloadList) && fresh(timeHeap) && fresh(finishActions)
      ensures timeHeap.Valid() && finishActions.Valid() && finishActions.actions == []
      ensures lists == ListsOf(parse, urls)
      ensures Populated(Keys(parse, urls), downloadList.downloads, multiset(timeHeap.entries), clock)
    {
      hide Grouped, Keys, ListsOf;
      downloadList := new Queues.DownloadQueues();
      finishActions := new Actions.ActionQueue<nat>();
      lists := PopulateDownloadQueuesWithRobots(downloadList, urls, parse);
      timeHeap := new Heap.TimeHeap.FromQueues(downloadList, clock);
    }

    /** Start recording at the initial state of the batch. */
    method BeginBatch(urls: seq<UrlElem>)
      requires 1 <= maxActiveDownloads && activeDownloads == 0
      requires timeHeap.Valid() && finishActions.Valid() && finishActions.actions == []
      requires Populated(Keys(parse, urls), downloadList.downloads, multiset(timeHeap.entries), clock)
      modifies this`started, this`startAt, this`phase, this`delivered, this`main, this`trace
      ensures Valid() && main == Head
      ensures trace.config == Config(Keys(parse, urls), lists, maxActiveDownloads, perHostTimeout)
    {
      hide Populated, IsTrace, Keys;
      ghost var c := Config(Keys(parse, urls), lists, maxActiveDownloads, perHostTimeout);
      FirstTrace(c, downloadList.downloads, multiset(timeHeap.entries), clock);
      started, startAt, phase, delivered := [], [], [], [];
      main := Head;
      trace := Recorded(c, [Unstarted(downloadList.downloads, multiset(timeHeap.entries), clock)], []);
    }

    /** Anything may happen before an iteration. */
    method Iterate()
      requires Valid() && main == Head
      requires downloadList.downloads != map[] || activeDownloads > 0 || timeHeap.entries != []
      modifies this`activeDownloads, this`clock, this`started, this`startAt, this`phase, this`delivered,
               this`main, this`trace, downloadList, timeHeap, finishActions
      ensures Valid() && main == Head && Advances(old(trace), trace)
    {
      Outside();
      assert main == Head && activeDownloads == old(activeDownloads);
      assert downloadList.downloads.Keys == old(downloadList.downloads).Keys;
      assert multiset(timeHeap.entries) == old(multiset(timeHeap.entries));
      hide IsTrace, Passes, Advances, Abs, Undisturbed;
      ghost var before := trace;
      CrawlStep();
      AdvancesThen(old(trace), before, trace);
    }

    /** The inner while loop. It ends, whatever the outside world does. */
    method RunBatch()
      requires Valid() && main == Head
      modifies this`activeDownloads, this`clock, this`started, this`startAt, this`phase, this`delivered,
               this`main, this`trace, downloadList, timeHeap, finishActions
      ensures Valid() && main == Exited && timeHeap.entries == [] && Advances(old(trace), trace)
    {
      NothingYet(trace);
      hide IsTrace, Passes, Advances, Budget, Abs;
      BudgetIsNat(trace);
      while downloadList.downloads != map[] || activeDownloads > 0 || timeHeap.entries != []
        invariant Valid() && main == Head && Passes(old(trace), trace) && trace.states != [] && 0 <= Budget(trace)
        decreases Budget(trace)
      {
        ghost var before := trace;
        Iterate();
        AdvancesIsPasses(before, trace);
        PassesThen(old(trace), before, trace);
        BudgetIsNat(trace);
      }
      ghost var before := trace;
      Exit();
      AdvancesThen(old(trace), before, trace);
    }

    ghost method Exit()
      requires Valid() && main == Head
      requires downloadList.downloads == map[] && activeDownloads <= 0 && timeHeap.entries == []
      modifies this`main, this`trace
      ensures Valid() && main == Exited && Advances(old(trace), trace)
    {
      hide IsTrace, Advances;
      main := Exited;
      Record(Guard(Entry(0, "")));
    }

    /** One round of the outer loop: the batch is downloaded completely and nothing of it lingers. */
    method CrawlBatch(urls: seq<UrlElem>) returns (order: seq<Elem>, called: seq<Elem>)
      requires 1 <= maxActiveDownloads && activeDownloads == 0
      modifies this
      ensures activeDownloads == 0
      ensures Completed(parse, urls, order, called)
      ensures IsTrace(trace) && Now(trace).main.Exited? && Now(trace).started == order
      ensures trace.config == Config(Keys(parse, urls), ListsOf(parse, urls), maxActiveDownloads, perHostTimeout)
    {
      hide IsTrace, Completed, Keys, ListsOf, Populated;
      Populate(urls);
      BeginBatch(urls);
      ghost var begun := trace;
      RunBatch();
      AdvancesIsPasses(begun, trace);
      RunCompletes(parse, urls, trace);
      order, called := started, Pick(started, delivered);
    }

    /** crawl(), for a controller that lets the dispatcher be asked once for each of these batches. */
    method Crawl(batches: seq<seq<UrlElem>>) returns (orders: seq<seq<Elem>>, calls: seq<seq<Elem>>)
      requires 1 <= maxActiveDownloads && activeDownloads == 0
      modifies this
      ensures activeDownloads == 0 && |orders| == |calls| == |batches|
      ensures forall b :: 0 <= b < |batches| ==> Completed(parse, batches[b], orders[b], calls[b])
    {
      hide Completed;
      orders, calls := [], [];
      for b := 0 to |batches|
        invariant activeDownloads == 0 && |orders| == |calls| == b
        invariant forall k :: 0 <= k < b ==> Completed(parse, batches[k], orders[k], calls[k])
      {
        var order, called := CrawlBatch(batches[b]);
        orders, calls := orders + [order], calls + [called];
      }
    }
  }
}

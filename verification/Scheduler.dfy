/** The crawl scheduler as a transition system: the main thread's loop, interleaved step by step
    with the completion callbacks of any number of downloader threads. */
module Scheduler {
  import opened Downloads
  import opened DownloadPlan

  /** One batch: its robots in order of first appearance, their URL lists, and the crawler's settings. */
  datatype Config = Config(keys: seq<Robot>, lists: UrlLists, maxActive: nat, timeout: int)

  /** Where a started download is: with the downloader, in its callback with so many URLs appended to
      the host's queue, its finish action pushed, or its finish action executed. */
  datatype Phase = InFlight | Calling(added: nat) | Finished | Executed(at: int)

  /** The main thread's program point. The clock reading and the due time of the last pop are the
      do-while loop's; Waiting without a deadline is the plain wait. */
  datatype Main =
    | Head
    | Waiting(deadline: Option<int>)
    | Popping(now: int, last: int)
    | Counting(now: int, last: int)
    | Testing(now: int, last: int)
    | Flushing
    | Draining(batch: seq<nat>)
    | Exited

  /** started, startAt and phase are parallel; a download is named by its index in them, and so is the
      finish action its callback pushes. fault records a use of an erased iterator, a pop from an
      empty queue, or a decrement of a zero counter. */
  datatype State = State(
    queues: map<string, seq<Elem>>,
    heap: multiset<Entry>,
    active: int,
    actions: seq<nat>,
    main: Main,
    clock: int,
    started: seq<Elem>,
    startAt: seq<int>,
    phase: seq<Phase>,
    delivered: seq<nat>,
    fault: bool)

  /** Tick, Begin, Append and Push belong to the outside world; the others are the main thread's. */
  datatype Label =
    | Tick(to: int)
    | Begin(id: nat)
    | Append(id: nat)
    | Push(id: nat)
    | Guard(top: Entry)
    | Pop(top: Entry)
    | Count
    | Again(top: Entry)
    | Swap
    | Run
    | Back
  {
    predicate ByCallback() { Begin? || Append? || Push? }
    predicate ByMain() { !Tick? && !ByCallback() }
  }

  ghost predicate IsTop(heap: multiset<Entry>, e: Entry)
  {
    e in heap && forall f :: f in heap ==> e.due <= f.due
  }

  predicate CanAdd(c: Config, s: State) { s.active < c.maxActive }

  predicate KeepsGoing(s: State)
  {
    s.queues != map[] || s.active > 0 || s.heap != multiset{}
  }

  predicate Known(s: State, i: int)
  {
    0 <= i < |s.phase| && i < |s.started|
  }

  /** The state in which populating the queues and building the heap leave a batch. */
  ghost predicate Init(c: Config, s: State)
  {
    && (forall h :: h in s.queues <==> exists r :: r in c.keys && r.host == h)
    && (forall h :: h in s.queues ==> s.queues[h] == HostQueue(c.keys, h))
    && (forall e :: s.heap[e] == if e.due == s.clock && e.host in s.queues then 1 else 0)
    && s.active == 0 && s.actions == [] && s.main == Head
    && s.started == [] && s.startAt == [] && s.phase == [] && s.delivered == [] && !s.fault
  }

  ghost predicate Enabled(c: Config, s: State, l: Label)
  {
    && !s.fault
    && match l {
         case Tick(to) => s.clock <= to
         case Begin(i) => Known(s, i) && s.phase[i].InFlight?
         case Append(i) => Known(s, i) && s.phase[i].Calling? && s.phase[i].added < |Urls(c.lists, s.started[i])|
         case Push(i) => Known(s, i) && s.phase[i].Calling? && s.phase[i].added == |Urls(c.lists, s.started[i])|
         case Guard(top) => s.main.Head? && (s.heap == multiset{} || IsTop(s.heap, top))
         case Pop(top) => s.main.Popping? && IsTop(s.heap, top)
         case Count => s.main.Counting?
         case Again(top) => s.main.Testing? && (s.heap == multiset{} || IsTop(s.heap, top))
         case Swap =>
           || s.main.Flushing?
           || (s.main.Waiting? && (s.actions != [] || (s.main.deadline.Some? && s.main.deadline.value <= s.clock)))
         case Run => s.main.Draining? && s.main.batch != [] && Known(s, s.main.batch[0])
         case Back => s.main.Draining? && s.main.batch == []
       }
  }

  /** The callback of download i appends the next URL of its list to the host's queue. */
  function AppendNext(c: Config, s: State, i: nat): State
    requires Known(s, i) && s.phase[i].Calling? && s.phase[i].added < |Urls(c.lists, s.started[i])|
  {
    var e := s.started[i];
    var k := s.phase[i].added;
    if e.Host() !in s.queues then s.(fault := true)
    else
      s.(queues := s.queues[e.Host() := s.queues[e.Host()] + [Page(e.robot, Urls(c.lists, e)[k])]],
         phase := s.phase[i := Calling(k + 1)])
  }

  /** The while test and, when the loop goes on, the choice among waiting, waiting until, and starting. */
  function Decide(c: Config, s: State, top: Entry): Main
  {
    if !KeepsGoing(s) then Exited
    else if !CanAdd(c, s) || s.heap == multiset{} then Waiting(None)
    else if s.clock < top.due then Waiting(Some(top.due))
    else Popping(s.clock, top.due)
  }

  /** download(timeHeap.pop()). */
  function StartTop(s: State, top: Entry): State
    requires s.main.Popping?
  {
    var h := top.host;
    if h !in s.queues || s.queues[h] == [] then s.(fault := true)
    else
      var q := s.queues[h];
      s.(queues := s.queues[h := q[..|q| - 1]],
         heap := s.heap - multiset{top},
         main := Counting(s.main.now, top.due),
         started := s.started + [q[|q| - 1]],
         startAt := s.startAt + [s.clock],
         phase := s.phase + [InFlight])
  }

  /** One finish action: reschedule the host or drop its queue, then decrement the counter. */
  function Finish(c: Config, s: State): State
    requires s.main.Draining? && s.main.batch != [] && Known(s, s.main.batch[0])
  {
    var i := s.main.batch[0];
    var h := s.started[i].Host();
    if h !in s.queues || s.active <= 0 then s.(fault := true)
    else
      var t := s.(active := s.active - 1,
                  phase := s.phase[i := Executed(s.clock)],
                  main := Draining(s.main.batch[1..]));
      if s.queues[h] != []
      then t.(heap := s.heap + multiset{Entry(s.clock + c.timeout, h)})
      else t.(queues := s.queues - {h})
  }

  ghost function Apply(c: Config, s: State, l: Label): State
    requires Enabled(c, s, l)
  {
    match l
    case Tick(to) => s.(clock := to)
    case Begin(i) => s.(phase := s.phase[i := Calling(0)], delivered := s.delivered + [i])
    case Append(i) => AppendNext(c, s, i)
    case Push(i) => s.(phase := s.phase[i := Finished], actions := s.actions + [i])
    case Guard(top) => s.(main := Decide(c, s, top))
    case Pop(top) => StartTop(s, top)
    case Count => s.(active := s.active + 1, main := Testing(s.main.now, s.main.last))
    case Again(top) =>
      s.(main := if CanAdd(c, s) && s.heap != multiset{} && top.due <= s.main.now
                 then Popping(s.main.now, s.main.last) else Flushing)
    case Swap => s.(main := Draining(s.actions), actions := [])
    case Run => Finish(c, s)
    case Back => s.(main := Head)
  }

  /** A run: labels[k] takes states[k] to states[k + 1]. */
  ghost predicate IsRun(c: Config, states: seq<State>, labels: seq<Label>)
  {
    && |states| == |labels| + 1
    && Init(c, states[0])
    && forall k :: 0 <= k < |labels| ==>
         Enabled(c, states[k], labels[k]) && states[k + 1] == Apply(c, states[k], labels[k])
  }
}

/** The task pool over real job queues. Every step of a submitter, a worker or the destructor is recorded
    as a step of the pool's transition system. */
module TaskSystem {
  import opened Downloads
  import opened Jobs = JobQueue
  import opened PoolProtocol
  import opened Traces

  // What has been recorded

  /** How many queues there are, and how many tries a scan makes. */
  datatype Pool = Pool(n: nat, tries: nat)

  type Trace = Recorded<Pool, State, Label>

  ghost predicate IsTrace(t: Trace) { IsRun(t.config.n, t.config.tries, t.states, t.labels) }

  /** What a stretch of the run leaves alone: nothing recorded is taken back, call c and worker w are where
      they were, returned workers stay returned and closed queues closed. During destruction no call is open
      and the measure does not grow. A call or worker that does not exist stands for none. */
  ghost predicate Passes(t: Trace, u: Trace, c: int, w: int)
  {
    && Extends(t, u)
    && var s, r := Now(t), Now(u);
       && |r.workers| == |s.workers| && (0 <= w < |s.workers| ==> r.workers[w] == s.workers[w])
       && |s.calls| <= |r.calls| && (0 <= c < |s.calls| ==> r.calls[c] == s.calls[c])
       && (forall i :: 0 <= i < |s.workers| && s.workers[i].Stopped? ==> r.workers[i].Stopped?)
       && |r.done| == |s.done| && (forall q :: 0 <= q < |s.done| && s.done[q] ==> r.done[q])
       && (s.closing ==> r.closing && DrainMeasure(t.config.tries, r) <= DrainMeasure(t.config.tries, s))
  }

  /** And during destruction the measure is used up. */
  ghost predicate Advances(t: Trace, u: Trace, c: int, w: int)
  {
    && Passes(t, u, c, w)
    && (Now(t).closing ==> DrainMeasure(t.config.tries, Now(u)) < DrainMeasure(t.config.tries, Now(t)))
  }

  lemma PassesThen(t: Trace, u: Trace, v: Trace, c: int, w: int)
    requires Passes(t, u, c, w) && Passes(u, v, c, w)
    ensures Passes(t, v, c, w)
    ensures Advances(t, u, c, w) || Advances(u, v, c, w) ==> Advances(t, v, c, w)
  {
    hide DrainMeasure;
  }

  lemma AdvancesIsPasses(t: Trace, u: Trace, c: int, w: int)
    requires Advances(t, u, c, w)
    ensures Passes(t, u, c, w)
    ensures Now(t).closing ==> DrainMeasure(t.config.tries, Now(u)) < DrainMeasure(t.config.tries, Now(t))
  {
  }

  /** Leaving nothing in particular alone is the least one can do. */
  lemma PassesWeaker(t: Trace, u: Trace, c: int, w: int)
    requires Passes(t, u, c, w)
    ensures Passes(t, u, -1, w) && Passes(t, u, c, -1) && Passes(t, u, -1, -1)
    ensures Advances(t, u, c, w) ==> Advances(t, u, -1, w) && Advances(t, u, -1, -1)
  {
    hide DrainMeasure;
  }

  lemma PassesFacts(t: Trace, u: Trace, c: int, w: int)
    requires Passes(t, u, c, w)
    ensures Extends(t, u) && u.states != []
    ensures |Now(u).workers| == |Now(t).workers|
    ensures 0 <= w < |Now(t).workers| ==> Now(u).workers[w] == Now(t).workers[w]
    ensures |Now(t).calls| <= |Now(u).calls| && (0 <= c < |Now(t).calls| ==> Now(u).calls[c] == Now(t).calls[c])
    ensures Now(t).closing ==>
      Now(u).closing && DrainMeasure(t.config.tries, Now(u)) <= DrainMeasure(t.config.tries, Now(t))
  {
    hide DrainMeasure;
  }

  lemma PassesStopped(t: Trace, u: Trace, c: int, w: int, i: nat)
    requires Passes(t, u, c, w) && i < |Now(t).workers| && Now(t).workers[i].Stopped?
    ensures i < |Now(u).workers| && Now(u).workers[i].Stopped?
  {
    hide DrainMeasure;
  }

  /** Whether a step belongs to call c or to worker w. */
  predicate IsOf(l: Label, c: int, w: int)
  {
    match l
    case TryPush(call, _) => call == c
    case PushWait(call) => call == c
    case TryPop(worker, _) => worker == w
    case EndScan(worker) => worker == w
    case Pop(worker) => worker == w
    case Run(worker) => worker == w
    case _ => false
  }

  lemma TraceFacts(t: Trace)
    requires IsTrace(t)
    ensures t.states != [] && Closed(Now(t)) && Sized(Now(t)) && |Now(t).queues| == t.config.n
  {
    hide Closed, ConservedFor;
    RunInv(t.config.n, t.config.tries, t.states, t.labels, |t.states| - 1, Job(0, true));
  }

  lemma OneMoreStep(t: Trace, s: State, l: Label)
    requires IsTrace(t) && t.states != [] && Enabled(t.config.tries, Now(t), l) && s == Apply(t.config.tries, Now(t), l)
    ensures IsTrace(Next(t, s, l)) && Extends(t, Next(t, s, l))
  {
    hide Enabled, Apply, Init;
  }

  lemma StepKeepsOthers(tries: nat, s: State, l: Label, c: int, w: int)
    requires Sized(s) && Enabled(tries, s, l) && !IsOf(l, c, w)
    ensures var r := Apply(tries, s, l);
      && |r.workers| == |s.workers| && (0 <= w < |s.workers| ==> r.workers[w] == s.workers[w])
      && |s.calls| <= |r.calls| && (0 <= c < |s.calls| ==> r.calls[c] == s.calls[c])
      && (forall i :: 0 <= i < |s.workers| && s.workers[i].Stopped? ==> r.workers[i].Stopped?)
      && |r.done| == |s.done| && (forall q :: 0 <= q < |s.done| && s.done[q] ==> r.done[q])
      && (s.closing ==> r.closing)
  {
  }

  /** Every step uses up the measure during destruction, and leaves alone what is not its own. */
  lemma StepAdvances(t: Trace, s: State, l: Label, c: int, w: int)
    requires IsTrace(t) && t.states != [] && Enabled(t.config.tries, Now(t), l)
    requires s == Apply(t.config.tries, Now(t), l) && !IsOf(l, c, w)
    ensures Advances(t, Next(t, s, l), c, w)
  {
    hide Enabled, Apply, Init, Closed, DrainMeasure;
    TraceFacts(t);
    OneMoreStep(t, s, l);
    StepKeepsOthers(t.config.tries, Now(t), l, c, w);
    if Now(t).closing {
      OnlyWorkWhenClosing(t.config.tries, Now(t), l);
      WorkUsesMeasure(t.config.tries, Now(t), l);
    }
  }

  lemma NothingYet(t: Trace, c: int, w: int)
    requires IsTrace(t)
    ensures t.states != [] && Passes(t, t, c, w)
  {
    hide DrainMeasure, Init, Enabled, Apply;
  }

  lemma FirstTrace(n: nat, tries: nat, s: State)
    requires Init(n, s)
    ensures IsTrace(Recorded(Pool(n, tries), [s], []))
  {
    hide Init;
  }

  /** A scanning worker after one try: on to the next, with a job in hand, or with an empty function that
      ends the scan and is overwritten in the pop that follows. */
  function AfterTry(offset: nat, job: Option<Job>): Worker
  {
    if job.None? then Scanning(offset + 1) else if job.value.callable then Holding(job.value) else Popping
  }

  function Lost(job: Option<Job>): seq<Job>
  {
    if job.Some? && !job.value.callable then [job.value] else []
  }

  // The steps, as changes of the fields

  /** A scanning worker's try on queue q. */
  predicate TookFrom(s: State, t: State, w: nat, q: nat, locked: bool, job: Option<Job>)
  {
    && w < |s.workers| && s.workers[w].Scanning? && q < |s.queues|
    && job == (if locked && s.queues[q] != [] then Some(s.queues[q][0]) else None)
    && t == s.(queues := if job.Some? then s.queues[q := s.queues[q][1..]] else s.queues,
               workers := s.workers[w := AfterTry(s.workers[w].offset, job)], dropped := s.dropped + Lost(job))
  }

  lemma TryPopApplied(tries: nat, s: State, w: nat, locked: bool, job: Option<Job>, t: State)
    requires Sized(s) && w < |s.workers| && s.workers[w].Scanning? && s.workers[w].offset < tries
    requires TookFrom(s, t, w, Target(w, s.workers[w].offset, |s.queues|), locked, job)
    ensures Enabled(tries, s, TryPop(w, locked)) && t == Apply(tries, s, TryPop(w, locked))
  {
    assert s.dropped + [] == s.dropped;
  }

  /** pop on queue w, its wait over. */
  predicate Popped(s: State, t: State, w: nat, job: Option<Job>)
  {
    && w < |s.workers| && w < |s.queues|
    && job == (if s.queues[w] != [] then Some(s.queues[w][0]) else None)
    && t == s.(queues := if job.Some? then s.queues[w := s.queues[w][1..]] else s.queues,
               workers := s.workers[w := if job.Some? then Holding(job.value) else Stopped])
  }

  lemma PopApplied(tries: nat, s: State, w: nat, job: Option<Job>, t: State)
    requires Sized(s) && w < |s.workers| && s.workers[w].Popping? && (s.queues[w] != [] || s.done[w])
    requires Popped(s, t, w, job)
    ensures Enabled(tries, s, Pop(w)) && t == Apply(tries, s, Pop(w))
  {
  }

  /** Call c's job at the back of queue q, and the call returned; or, when not pushed, on to the next offset. */
  predicate Pushed(s: State, t: State, c: nat, q: nat, pushed: bool)
  {
    && c < |s.calls| && q < |s.queues| && (!pushed ==> s.calls[c].Trying?)
    && t == s.(queues := if pushed then s.queues[q := s.queues[q] + [s.calls[c].job]] else s.queues,
               calls := s.calls[c := AfterPush(s.calls[c], pushed)])
  }

  function AfterPush(call: Call, pushed: bool): Call
    requires pushed || call.Trying?
  {
    if pushed then Submitted(call.job) else call.(offset := call.offset + 1)
  }

  lemma TryPushApplied(tries: nat, s: State, c: nat, locked: bool, t: State)
    requires Sized(s) && c < |s.calls| && s.calls[c].Trying? && s.calls[c].offset < |s.queues|
    requires Pushed(s, t, c, Target(s.calls[c].index, s.calls[c].offset, |s.queues|), locked)
    ensures Enabled(tries, s, TryPush(c, locked)) && t == Apply(tries, s, TryPush(c, locked))
  {
  }

  lemma PushWaitApplied(tries: nat, s: State, c: nat, t: State)
    requires Sized(s) && c < |s.calls| && s.calls[c].Trying? && s.calls[c].offset == |s.queues|
    requires Pushed(s, t, c, s.calls[c].index % |s.queues|, true)
    ensures Enabled(tries, s, PushWait(c)) && t == Apply(tries, s, PushWait(c))
  {
  }

  /** What destruction promises when all workers have returned. */
  ghost predicate Drained(s: State)
  {
    && AllStopped(s) && (forall q :: 0 <= q < |s.queues| ==> s.queues[q] == [])
    && (forall j: Job :: InQueue(s.ran, j) + InQueue(s.dropped, j) == Calls(s.calls, j))
    && (forall j: Job :: j.callable ==> InQueue(s.ran, j) == Calls(s.calls, j))
  }

  lemma StoppedIsDrained(t: Trace)
    requires IsTrace(t) && t.states != [] && AllStopped(Now(t))
    ensures Drained(Now(t))
  {
    var s := Now(t);
    forall j: Job
      ensures InQueue(s.ran, j) + InQueue(s.dropped, j) == Calls(s.calls, j)
      ensures j.callable ==> InQueue(s.ran, j) == Calls(s.calls, j)
    {
      DrainsExactlyOnce(t.config.n, t.config.tries, t.states, t.labels, |t.states| - 1, j);
    }
    DrainsExactlyOnce(t.config.n, t.config.tries, t.states, t.labels, |t.states| - 1, Job(0, true));
    hide IsRun, InQueue, Calls;
  }

  lemma StoppedIsEmpty(t: Trace, w: nat)
    requires IsTrace(t) && t.states != [] && w < |Now(t).workers| && Now(t).workers[w].Stopped?
    ensures Now(t).closing && w < |Now(t).done| && w < |Now(t).queues| && Now(t).done[w] && Now(t).queues[w] == []
  {
    TraceFacts(t);
  }

  const DEFAULT_THREADS := 2
  const TRIES_PER_QUEUE := 32

  function CalcNrThreads(hardwareConcurrency: nat): (n: nat)
    ensures 0 < n
  {
    if hardwareConcurrency == 0 then DEFAULT_THREADS else hardwareConcurrency
  }

  method MakeQueues(n: nat) returns (qs: seq<JobQueue>)
    ensures |qs| == n && fresh(qs) && forall i :: 0 <= i < n ==> qs[i].jobQueue == [] && !qs[i].done
    ensures forall i, j :: 0 <= i < j < n ==> qs[i] != qs[j]
  {
    qs := [];
    for k := 0 to n
      invariant |qs| == k && fresh(qs) && forall i :: 0 <= i < k ==> qs[i].jobQueue == [] && !qs[i].done
      invariant forall i, j :: 0 <= i < j < k ==> qs[i] != qs[j]
    {
      var q := new JobQueue();
      qs := qs + [q];
    }
  }

  /** The pool. calls and workers hold the local variables of the async_ calls and of the worker threads,
      ran and dropped what became of the jobs taken. */
  class TaskSystem {
    const hwConcurrency: nat
    const tries: nat
    const jobQueues: seq<JobQueue>
    var jobIndex: nat
    var calls: seq<Call>
    var workers: seq<Worker>
    var ran: seq<Job>
    var dropped: seq<Job>
    var closing: bool
    ghost var trace: Trace

    ghost function Contents(): (c: seq<seq<Job>>)
      reads jobQueues
      ensures |c| == |jobQueues| && forall i :: 0 <= i < |c| ==> c[i] == jobQueues[i].jobQueue
    {
      seq(|jobQueues|, i requires 0 <= i < |jobQueues| reads jobQueues => jobQueues[i].jobQueue)
    }

    ghost function Dones(): (d: seq<bool>)
      reads jobQueues
      ensures |d| == |jobQueues| && forall i :: 0 <= i < |d| ==> d[i] == jobQueues[i].done
    {
      seq(|jobQueues|, i requires 0 <= i < |jobQueues| reads jobQueues => jobQueues[i].done)
    }

    ghost predicate Separate()
    {
      0 < hwConcurrency == |jobQueues| && forall i, j :: 0 <= i < j < |jobQueues| ==> jobQueues[i] != jobQueues[j]
    }

    /** The abstract state the fields stand for. */
    ghost function Abs(): State
      reads this, jobQueues
    {
      State(Contents(), Dones(), jobIndex, calls, workers, ran, dropped, closing)
    }

    /** The recorded run is a run of the transition system and ends in the present state. */
    ghost predicate Valid()
      reads this, jobQueues
    {
      && Separate() && IsTrace(trace) && trace.config == Pool(hwConcurrency, tries)
      && trace.states != [] && Now(trace) == Abs()
    }

    /** nrThreads threads, or as many as the hardware has, or two. */
    constructor (nrThreads: nat, hardwareConcurrency: nat)
      ensures Valid() && fresh(jobQueues)
      ensures nrThreads != 0 ==> hwConcurrency == nrThreads
      ensures nrThreads == 0 ==> hwConcurrency == if hardwareConcurrency != 0 then hardwareConcurrency else 2
      ensures tries == hwConcurrency * 32 % 0x1_0000_0000
      ensures !closing && calls == [] && |workers| == hwConcurrency
      ensures forall w :: 0 <= w < |workers| ==> workers[w] == Scanning(0)
    {
      var n := if nrThreads == 0 then CalcNrThreads(hardwareConcurrency) else nrThreads;
      var qs := MakeQueues(n);
      hwConcurrency, jobQueues, tries := n, qs, n * TRIES_PER_QUEUE % UNSIGNED_RANGE;
      jobIndex, calls, ran, dropped, closing := 0, [], [], [], false;
      workers := seq(n, i requires 0 <= i < n => Scanning(0));
      new;
      FirstTrace(n, tries, Abs());
      trace := Recorded(Pool(n, tries), [Abs()], []);
    }

    // The queues, one at a time

    method TryPushAt(q: nat, locked: bool, job: Job) returns (pushed: bool)
      requires Separate() && q < |jobQueues|
      modifies jobQueues
      ensures pushed == locked && Dones() == old(Dones())
      ensures Contents() == if locked then old(Contents())[q := old(Contents())[q] + [job]] else old(Contents())
    {
      pushed := jobQueues[q].TryPush(locked, job);
    }

    method PushAt(q: nat, job: Job)
      requires Separate() && q < |jobQueues|
      modifies jobQueues
      ensures Dones() == old(Dones()) && Contents() == old(Contents())[q := old(Contents())[q] + [job]]
    {
      jobQueues[q].Push(job);
    }

    method TryPopAt(q: nat, locked: bool) returns (job: Option<Job>)
      requires Separate() && q < |jobQueues|
      modifies jobQueues
      ensures Dones() == old(Dones())
      ensures job == if locked && old(Contents())[q] != [] then Some(old(Contents())[q][0]) else None
      ensures Contents() == if job.Some? then old(Contents())[q := old(Contents())[q][1..]] else old(Contents())
    {
      job := jobQueues[q].TryPop(locked);
    }

    method PopAt(q: nat) returns (job: Option<Job>)
      requires Separate() && q < |jobQueues| && (Contents()[q] != [] || Dones()[q])
      modifies jobQueues
      ensures Dones() == old(Dones())
      ensures job == if old(Contents())[q] != [] then Some(old(Contents())[q][0]) else None
      ensures Contents() == if job.Some? then old(Contents())[q := old(Contents())[q][1..]] else old(Contents())
    {
      job := jobQueues[q].Pop();
    }

    method DoneAt(q: nat)
      requires Separate() && q < |jobQueues|
      modifies jobQueues
      ensures Contents() == old(Contents()) && Dones() == old(Dones())[q := true]
    {
      jobQueues[q].Done();
    }

    // Recording steps

    ghost method Record(l: Label)
      requires Separate() && IsTrace(trace) && trace.config == Pool(hwConcurrency, tries) && trace.states != []
      requires Enabled(tries, Now(trace), l) && Abs() == Apply(tries, Now(trace), l)
      modifies this`trace
      ensures Valid() && trace == Next(old(trace), Abs(), l) && Extends(old(trace), trace)
      ensures forall c, w: int :: !IsOf(l, c, w) ==> Advances(old(trace), trace, c, w)
    {
      hide IsTrace, Enabled, Apply, Advances, Extends, Now, Next;
      ghost var before, s := trace, Abs();
      OneMoreStep(before, s, l);
      forall c, w | !IsOf(l, c, w) ensures Advances(before, Next(before, s, l), c, w) {
        StepAdvances(before, s, l, c, w);
      }
      NextIsNow(before, s, l);
      trace := Next(before, s, l);
    }

    // Steps of a submitter

    method SubmitStep(job: Job) returns (c: nat)
      requires Valid() && !closing
      modifies this`calls, this`jobIndex, this`trace
      ensures Valid() && c == |old(calls)| && calls == old(calls) + [Trying(job, old(jobIndex), 0)] && !closing
      ensures trace == Next(old(trace), Abs(), Submit(job))
      ensures forall d, w: int :: Advances(old(trace), trace, d, w)
    {
      hide IsTrace, Advances;
      Size();
      c := |calls|;
      calls := calls + [Trying(job, jobIndex, 0)];
      jobIndex := (jobIndex + 1) % UNSIGNED_RANGE;
      Record(Submit(job));
    }

    /** The present state, field by field. */
    lemma Present()
      requires Valid()
      ensures trace.states != [] && Now(trace).closing == closing && Now(trace).calls == calls
      ensures Now(trace).workers == workers && Now(trace).done == Dones()
    {
      hide IsTrace;
    }

    lemma Size()
      requires Valid()
      ensures Sized(Abs())
    {
      TraceFacts(trace);
    }

    method TryPushStep(c: nat, locked: bool)
      requires Valid() && c < |calls| && calls[c].Trying? && calls[c].offset < hwConcurrency
      modifies this`calls, this`trace, jobQueues
      ensures Valid() && trace == Next(old(trace), Abs(), TryPush(c, locked)) && |calls| == |old(calls)|
      ensures calls[c] == if locked then Submitted(old(calls)[c].job)
        else old(calls)[c].(offset := old(calls)[c].offset + 1)
      ensures Dones() == old(Dones()) && forall i :: 0 <= i < |calls| && i != c ==> calls[i] == old(calls)[i]
      ensures locked ==> var q := Target(old(calls)[c].index, old(calls)[c].offset, hwConcurrency);
        Contents() == old(Contents())[q := old(Contents())[q] + [old(calls)[c].job]]
      ensures forall d, w: int :: d != c ==> Advances(old(trace), trace, d, w)
    {
      Size();
      ghost var s := Abs();
      assert c < |s.calls| && s.calls[c] == calls[c];
      hide IsTrace, Advances, Enabled, Apply, Abs;
      TryPushFields(c, Target(calls[c].index, calls[c].offset, hwConcurrency), locked);
      TryPushApplied(tries, s, c, locked, Abs());
      Record(TryPush(c, locked));
    }

    method TryPushFields(c: nat, q: nat, locked: bool)
      requires Separate() && c < |calls| && calls[c].Trying? && q < |jobQueues|
      modifies this`calls, jobQueues
      ensures Dones() == old(Dones()) && calls == old(calls)[c := AfterPush(old(calls)[c], locked)]
      ensures Pushed(old(Abs()), Abs(), c, q, locked)
      ensures locked ==> Contents() == old(Contents())[q := old(Contents())[q] + [old(calls)[c].job]]
    {
      hide AfterPush, IsTrace, Contents, Dones;
      var pushed := TryPushAt(q, locked, calls[c].job);
      calls := calls[c := AfterPush(calls[c], pushed)];
    }

    method PushWaitStep(c: nat)
      requires Valid() && c < |calls| && calls[c].Trying? && calls[c].offset == hwConcurrency
      modifies this`calls, this`trace, jobQueues
      ensures Valid() && trace == Next(old(trace), Abs(), PushWait(c)) && |calls| == |old(calls)|
      ensures calls[c] == Submitted(old(calls)[c].job)
      ensures Dones() == old(Dones()) && forall i :: 0 <= i < |calls| && i != c ==> calls[i] == old(calls)[i]
      ensures var q := old(calls)[c].index % hwConcurrency;
        Contents() == old(Contents())[q := old(Contents())[q] + [old(calls)[c].job]]
      ensures forall d, w: int :: d != c ==> Advances(old(trace), trace, d, w)
    {
      Size();
      ghost var s := Abs();
      assert c < |s.calls| && s.calls[c] == calls[c];
      hide IsTrace, Advances, Enabled, Apply, Abs;
      PushWaitFields(c);
      PushWaitApplied(tries, s, c, Abs());
      Record(PushWait(c));
    }

    method PushWaitFields(c: nat)
      requires Separate() && c < |calls| && calls[c].Trying?
      modifies this`calls, jobQueues
      ensures Dones() == old(Dones()) && calls == old(calls)[c := Submitted(old(calls)[c].job)]
      ensures Pushed(old(Abs()), Abs(), c, old(calls)[c].index % hwConcurrency, true)
      ensures var q := old(calls)[c].index % hwConcurrency;
        Contents() == old(Contents())[q := old(Contents())[q] + [old(calls)[c].job]]
    {
      PushAt(calls[c].index % hwConcurrency, calls[c].job);
      calls := calls[c := Submitted(calls[c].job)];
    }

    // Steps of the destructor

    method CloseStep()
      requires Valid() && !closing && forall c :: c in calls ==> c.Submitted?
      modifies this`closing, this`trace
      ensures Valid() && closing && calls == old(calls) && trace == Next(old(trace), Abs(), Close)
      ensures forall c, w: int :: Advances(old(trace), trace, c, w)
    {
      hide IsTrace, Advances;
      Size();
      closing := true;
      Record(Close);
    }

    method MarkDoneStep(q: nat)
      requires Valid() && closing && q < hwConcurrency && !jobQueues[q].done
      modifies this`trace, jobQueues
      ensures Valid() && Dones() == old(Dones())[q := true] && Contents() == old(Contents())
      ensures trace == Next(old(trace), Abs(), MarkDone(q))
      ensures forall c, w: int :: Advances(old(trace), trace, c, w)
    {
      hide IsTrace, Advances;
      Size();
      DoneAt(q);
      Record(MarkDone(q));
    }

    // Steps of a worker

    method TryPopStep(w: nat, locked: bool)
      requires Valid() && w < |workers| && workers[w].Scanning? && workers[w].offset < tries
      modifies this`workers, this`dropped, this`trace, jobQueues
      ensures Valid() && trace == Next(old(trace), Abs(), TryPop(w, locked))
      ensures |workers| == |old(workers)| && Dones() == old(Dones())
      ensures workers[w] == Scanning(old(workers)[w].offset + 1) || workers[w].Popping? || workers[w].Holding?
      ensures forall c, x: int :: x != w ==> Advances(old(trace), trace, c, x)
    {
      Size();
      ghost var s := Abs();
      assert w < |s.workers| && s.workers[w].Scanning? && s.workers[w].offset < tries;
      hide IsTrace, Advances, Enabled, Apply, Abs;
      var job := TryPopFields(w, Target(w, workers[w].offset, hwConcurrency), locked);
      TryPopApplied(tries, s, w, locked, job, Abs());
      Record(TryPop(w, locked));
    }

    method TryPopFields(w: nat, q: nat, locked: bool) returns (job: Option<Job>)
      requires Separate() && w < |workers| && workers[w].Scanning? && q < |jobQueues|
      modifies this`workers, this`dropped, jobQueues
      ensures Dones() == old(Dones()) && workers == old(workers)[w := AfterTry(old(workers)[w].offset, job)]
      ensures TookFrom(old(Abs()), Abs(), w, q, locked, job)
    {
      hide AfterTry, Lost, IsTrace, Contents, Dones;
      job := TryPopAt(q, locked);
      workers, dropped := workers[w := AfterTry(workers[w].offset, job)], dropped + Lost(job);
    }

    method EndScanStep(w: nat)
      requires Valid() && w < |workers| && workers[w].Scanning? && workers[w].offset >= tries
      modifies this`workers, this`trace
      ensures Valid() && workers == old(workers)[w := Popping] && trace == Next(old(trace), Abs(), EndScan(w))
      ensures forall c, x: int :: x != w ==> Advances(old(trace), trace, c, x)
    {
      hide IsTrace, Advances;
      Size();
      workers := workers[w := Popping];
      Record(EndScan(w));
    }

    /** pop, when its wait is over. */
    method PopStep(w: nat)
      requires Valid() && w < |workers| && workers[w].Popping?
      requires w < |jobQueues| && (jobQueues[w].jobQueue != [] || jobQueues[w].done)
      modifies this`workers, this`trace, jobQueues
      ensures Valid() && trace == Next(old(trace), Abs(), Pop(w))
      ensures |workers| == |old(workers)| && (workers[w].Stopped? || workers[w].Holding?)
      ensures Dones() == old(Dones())
      ensures forall c, x: int :: x != w ==> Advances(old(trace), trace, c, x)
    {
      Size();
      ghost var s := Abs();
      assert w < |s.workers| && s.workers[w] == workers[w];
      assert s.queues[w] == jobQueues[w].jobQueue && s.done[w] == jobQueues[w].done;
      hide IsTrace, Advances, Enabled, Apply, Abs;
      var job := PopFields(w);
      PopApplied(tries, s, w, job, Abs());
      Record(Pop(w));
    }

    method PopFields(w: nat) returns (job: Option<Job>)
      requires Separate() && w < |workers| && w < |jobQueues| && (jobQueues[w].jobQueue != [] || jobQueues[w].done)
      modifies this`workers, jobQueues
      ensures Dones() == old(Dones())
      ensures workers == old(workers)[w := if job.Some? then Holding(job.value) else Stopped]
      ensures Popped(old(Abs()), Abs(), w, job)
    {
      job := PopAt(w);
      workers := workers[w := if job.Some? then Holding(job.value) else Stopped];
    }

    /** handleExceptions(job). */
    method RunStep(w: nat)
      requires Valid() && w < |workers| && workers[w].Holding?
      modifies this`workers, this`ran, this`trace
      ensures Valid() && workers == old(workers)[w := Scanning(0)] && ran == old(ran) + [old(workers)[w].job]
      ensures trace == Next(old(trace), Abs(), PoolProtocol.Label.Run(w))
      ensures forall c, x: int :: x != w ==> Advances(old(trace), trace, c, x)
    {
      hide IsTrace, Advances;
      Size();
      ran := ran + [workers[w].job];
      workers := workers[w := Scanning(0)];
      Record(PoolProtocol.Label.Run(w));
    }

    // What the others do

    /** Any one step that is not of call c, of worker w or, unless it may act, of the destructor. */
    method OutsideStep(c: int, w: int, destructor: bool)
      requires Valid()
      modifies this`jobIndex, this`calls, this`workers, this`ran, this`dropped, this`closing, this`trace, jobQueues
      ensures Valid() && Passes(old(trace), trace, c, w)
      ensures !destructor ==> closing == old(closing) && Dones() == old(Dones())
    {
      hide IsTrace;
      var i: nat :| true;
      var kind: nat :| true;
      if kind == 0 {
        SubmitOutside(c, w);
      } else if kind == 1 && i < |calls| && i != c {
        CallOutside(i, c, w);
      } else if kind == 2 && destructor {
        DestructorOutside(i, c, w);
      } else if i < |workers| && i != w {
        WorkerOutside(i, c, w);
      } else {
        NothingYet(trace, c, w);
      }
    }

    method SubmitOutside(c: int, w: int)
      requires Valid()
      modifies this`jobIndex, this`calls, this`trace
      ensures Valid() && Passes(old(trace), trace, c, w)
    {
      if closing {
        NothingYet(trace, c, w);
      } else {
        var id: nat :| true;
        var callable: bool :| true;
        hide IsTrace, Advances, Passes;
        var fresh' := SubmitStep(Job(id, callable));
        AdvancesIsPasses(old(trace), trace, c, w);
      }
    }

    method CallOutside(i: nat, c: int, w: int)
      requires Valid() && i < |calls| && i != c
      modifies this`calls, this`trace, jobQueues
      ensures Valid() && Passes(old(trace), trace, c, w) && Dones() == old(Dones())
    {
      hide IsTrace, Advances, Passes, Abs;
      if calls[i].Trying? && calls[i].offset <= hwConcurrency {
        CallStep(i);
        AdvancesIsPasses(old(trace), trace, c, w);
      } else {
        NothingYet(trace, c, w);
      }
    }

    /** The next step of call c. */
    method CallStep(c: nat)
      requires Valid() && c < |calls| && calls[c].Trying? && calls[c].offset <= hwConcurrency
      modifies this`calls, this`trace, jobQueues
      ensures Valid() && Dones() == old(Dones()) && |calls| == |old(calls)|
      ensures calls[c] == Submitted(old(calls)[c].job) || calls[c] == old(calls)[c].(offset := old(calls)[c].offset + 1)
      ensures calls[c].Trying? ==> calls[c].offset <= hwConcurrency
      ensures forall i :: 0 <= i < |calls| && i != c ==> calls[i] == old(calls)[i]
      ensures forall d, w: int :: d != c ==> Advances(old(trace), trace, d, w)
    {
      hide IsTrace, Advances, Abs;
      if calls[c].offset < hwConcurrency {
        var locked: bool :| true;
        TryPushStep(c, locked);
      } else {
        PushWaitStep(c);
      }
    }

    method DestructorOutside(q: nat, c: int, w: int)
      requires Valid()
      modifies this`closing, this`trace, jobQueues
      ensures Valid() && Passes(old(trace), trace, c, w)
    {
      hide IsTrace, Advances, Passes;
      if !closing && forall i :: 0 <= i < |calls| ==> calls[i].Submitted? {
        CloseStep();
        AdvancesIsPasses(old(trace), trace, c, w);
      } else if closing && q < hwConcurrency && !jobQueues[q].done {
        MarkDoneStep(q);
        AdvancesIsPasses(old(trace), trace, c, w);
      } else {
        NothingYet(trace, c, w);
      }
    }

    method WorkerOutside(i: nat, c: int, w: int)
      requires Valid() && i < |workers| && i != w
      modifies this`workers, this`ran, this`dropped, this`trace, jobQueues
      ensures Valid() && Passes(old(trace), trace, c, w) && Dones() == old(Dones())
    {
      hide IsTrace, Advances, Passes;
      var ready := i < |jobQueues| && (jobQueues[i].jobQueue != [] || jobQueues[i].done);
      if workers[i].Stopped? || (workers[i].Popping? && !ready) {
        NothingYet(trace, c, w);
      } else {
        WorkerStep(i);
        AdvancesIsPasses(old(trace), trace, c, w);
      }
    }

    /** The next step of worker w, whose wait, if it is in pop, is over. */
    method WorkerStep(w: nat)
      requires Valid() && w < |workers| && !workers[w].Stopped?
      requires workers[w].Popping? ==> w < |jobQueues| && (jobQueues[w].jobQueue != [] || jobQueues[w].done)
      modifies this`workers, this`ran, this`dropped, this`trace, jobQueues
      ensures Valid() && Dones() == old(Dones()) && |workers| == |old(workers)|
      ensures forall c, x: int :: x != w ==> Advances(old(trace), trace, c, x)
    {
      hide IsTrace, Advances, Abs;
      if workers[w].Scanning? {
        ScanStep(w);
      } else if workers[w].Popping? {
        PopStep(w);
      } else {
        RunStep(w);
      }
    }

    method ScanStep(w: nat)
      requires Valid() && w < |workers| && workers[w].Scanning?
      modifies this`workers, this`dropped, this`trace, jobQueues
      ensures Valid() && Dones() == old(Dones()) && |workers| == |old(workers)|
      ensures forall c, x: int :: x != w ==> Advances(old(trace), trace, c, x)
    {
      hide IsTrace, Advances, Abs;
      if workers[w].offset < tries {
        var locked: bool :| true;
        TryPopStep(w, locked);
      } else {
        EndScanStep(w);
      }
    }

    /** Any number of steps of the others. */
    method Outside(c: int, w: int, destructor: bool)
      requires Valid()
      modifies this`jobIndex, this`calls, this`workers, this`ran, this`dropped, this`closing, this`trace, jobQueues
      ensures Valid() && Passes(old(trace), trace, c, w)
      ensures !destructor ==> closing == old(closing) && Dones() == old(Dones())
    {
      hide IsTrace, Passes, Advances;
      NothingYet(trace, c, w);
      var n: nat :| true;
      while n > 0
        invariant Valid() && Passes(old(trace), trace, c, w)
        invariant !destructor ==> closing == old(closing) && Dones() == old(Dones())
      {
        ghost var before := trace;
        OutsideStep(c, w, destructor);
        PassesThen(old(trace), before, trace, c, w);
        n := n - 1;
      }
    }

    // async_

    /** The call ends with its job accepted in one push: at the first offset whose try-lock succeeded, or at
        the call's first queue, waited for, when all tried have failed. Others' steps come in between. */
    method Async(job: Job) returns (c: nat, ghost tried: nat)
      requires Valid() && !closing
      modifies this`jobIndex, this`calls, this`workers, this`ran, this`dropped, this`closing, this`trace, jobQueues
      ensures Valid() && Passes(old(trace), trace, -1, -1) && c < |calls| && calls[c] == Submitted(job)
      ensures tried <= hwConcurrency && PushedLast(c % 0x1_0000_0000, c, tried, job)
    {
      NextTicket();
      hide IsTrace, Passes, Advances, PushedLast, Abs;
      c := SubmitStep(job);
      AdvancesIsPasses(old(trace), trace, -1, -1);
      ghost var submitted := trace;
      var success;
      success, tried := TryOffsets(c);
      PassesThen(old(trace), submitted, trace, -1, -1);
      if !success {
        ghost var before := trace;
        OutsideCall(c);
        PassesThen(old(trace), before, trace, -1, -1);
        ghost var open := trace;
        PushFirst(c);
        PassesThen(old(trace), open, trace, -1, -1);
      }
    }

    /** The shared counter counts the calls. */
    lemma NextTicket()
      requires Valid()
      ensures jobIndex == |calls| % 0x1_0000_0000
    {
      Tickets(trace.config.n, trace.config.tries, trace.states, trace.labels, |trace.states| - 1);
    }

    /** The loop of async_. */
    method TryOffsets(c: nat) returns (success: bool, ghost tried: nat)
      requires Valid() && c < |calls| && calls[c].Trying? && calls[c].offset == 0
      modifies this`jobIndex, this`calls, this`workers, this`ran, this`dropped, this`closing, this`trace, jobQueues
      ensures Valid() && Passes(old(trace), trace, -1, -1) && c < |calls|
      ensures success ==> calls[c] == Submitted(old(calls)[c].job) && tried < hwConcurrency
                          && PushedLast(old(calls)[c].index, c, tried, old(calls)[c].job)
      ensures !success ==> calls[c] == old(calls)[c].(offset := hwConcurrency) && tried == hwConcurrency
    {
      hide IsTrace, Passes, Advances, PushedLast, Abs;
      NothingYet(trace, -1, -1);
      for offset := 0 to hwConcurrency
        invariant Valid() && Passes(old(trace), trace, -1, -1)
        invariant c < |calls| && calls[c] == old(calls)[c].(offset := offset)
      {
        ghost var start := trace;
        OutsideCall(c);
        PassesThen(old(trace), start, trace, -1, -1);
        ghost var before := trace;
        success := TryOffset(c);
        PassesThen(old(trace), before, trace, -1, -1);
        if success {
          return true, offset;
        }
      }
      success, tried := false, hwConcurrency;
    }

    /** The latest step has put call c's job at the back of a queue: the one at offset tried, or, when all
        offsets have been tried, the call's first one. */
    ghost predicate PushedLast(index: nat, c: nat, tried: nat, job: Job)
      requires 0 < hwConcurrency
      reads this, jobQueues
    {
      var q := if tried < hwConcurrency then Target(index, tried, hwConcurrency) else index % hwConcurrency;
      && |trace.states| > 1
      && var before := trace.states[|trace.states| - 2];
         && c < |before.calls| && before.calls[c] == Trying(job, index, tried)
         && q < |before.queues| && Contents() == before.queues[q := before.queues[q] + [job]]
    }

    lemma PushIsLast(t: Trace, s: State, c: nat, l: Label)
      requires 0 < hwConcurrency && t.states != [] && Now(t) == s && trace == Next(t, Abs(), l)
      requires c < |s.calls| && s.calls[c].Trying?
      requires var call := s.calls[c];
        var q := if call.offset < hwConcurrency then Target(call.index, call.offset, hwConcurrency)
                 else call.index % hwConcurrency;
        q < |s.queues| && Contents() == s.queues[q := s.queues[q] + [call.job]]
      ensures PushedLast(s.calls[c].index, c, s.calls[c].offset, s.calls[c].job)
    {
      BeforeLast(t, Abs(), l);
      hide Next, Now;
    }

    /** One turn of the loop of async_. */
    method TryOffset(c: nat) returns (success: bool)
      requires Valid() && c < |calls| && calls[c].Trying? && calls[c].offset < hwConcurrency
      modifies this`calls, this`trace, jobQueues
      ensures Valid() && Passes(old(trace), trace, -1, -1) && c < |calls|
      ensures calls[c] == if success then Submitted(old(calls)[c].job)
        else old(calls)[c].(offset := old(calls)[c].offset + 1)
      ensures success ==> PushedLast(old(calls)[c].index, c, old(calls)[c].offset, old(calls)[c].job)
    {
      ghost var was := Abs();
      hide IsTrace, Passes, Advances, Next, Now, PushedLast;
      success :| true;
      TryPushStep(c, success);
      AdvancesIsPasses(old(trace), trace, -1, -1);
      if success { PushIsLast(old(trace), was, c, TryPush(c, success)); }
    }

    /** The push after the loop. */
    method PushFirst(c: nat)
      requires Valid() && c < |calls| && calls[c].Trying? && calls[c].offset == hwConcurrency
      modifies this`calls, this`trace, jobQueues
      ensures Valid() && Passes(old(trace), trace, -1, -1) && c < |calls| && calls[c] == Submitted(old(calls)[c].job)
      ensures PushedLast(old(calls)[c].index, c, hwConcurrency, old(calls)[c].job)
    {
      ghost var was := Abs();
      hide IsTrace, Passes, Advances, Next, Now, PushedLast;
      PushWaitStep(c);
      AdvancesIsPasses(old(trace), trace, -1, -1);
      PushIsLast(old(trace), was, c, PushWait(c));
    }

    /** The others act, and call c waits. */
    method OutsideCall(c: nat)
      requires Valid() && c < |calls|
      modifies this`jobIndex, this`calls, this`workers, this`ran, this`dropped, this`closing, this`trace, jobQueues
      ensures Valid() && c < |calls| && calls[c] == old(calls)[c] && Passes(old(trace), trace, -1, -1)
    {
      Present();
      hide IsTrace, Passes, Abs;
      Outside(c, -1, true);
      Present();
      PassesFacts(old(trace), trace, c, -1);
      PassesWeaker(old(trace), trace, c, -1);
    }

    // run

    /** The worker loop of thread w. The destructor, like all other threads, acts in between; it is taken
        to start some day, after as many rounds of this worker as may be. */
    method Run(w: nat)
      requires Valid() && w < |workers| && workers[w] == Scanning(0)
      modifies this`jobIndex, this`calls, this`workers, this`ran, this`dropped, this`closing, this`trace, jobQueues
      ensures Valid() && Passes(old(trace), trace, -1, -1)
      ensures closing && w < |workers| && workers[w].Stopped? && w < |jobQueues|
      ensures jobQueues[w].done && jobQueues[w].jobQueue == []
    {
      hide IsTrace, Passes, Advances, Abs;
      NothingYet(trace, -1, -1);
      var lifetime: nat :| lifetime > 0;
      while !workers[w].Stopped?
        invariant Valid() && Passes(old(trace), trace, -1, -1) && w < |workers|
        invariant workers[w] == Scanning(0) || workers[w].Stopped?
        invariant trace.states != [] && (lifetime == 0 ==> Now(trace).closing)
        decreases lifetime, DrainMeasure(tries, Now(trace))
      {
        ghost var before := trace;
        if lifetime > 0 {
          lifetime := lifetime - 1;
          if lifetime == 0 {
            BeginDestruction(w);
            Present();
          } else {
            NothingYet(trace, -1, w);
          }
        } else {
          NothingYet(trace, -1, w);
        }
        PassesFacts(before, trace, -1, w);
        PassesWeaker(before, trace, -1, w);
        PassesThen(old(trace), before, trace, -1, -1);
        ghost var open := trace;
        Round(w);
        AdvancesIsPasses(open, trace, -1, -1);
        PassesFacts(open, trace, -1, -1);
        PassesThen(old(trace), open, trace, -1, -1);
      }
      OwnQueueEmpty(w);
    }

    lemma OwnQueueEmpty(w: nat)
      requires Valid() && w < |workers| && workers[w].Stopped?
      ensures closing && w < |jobQueues| && jobQueues[w].done && jobQueues[w].jobQueue == []
    {
      StoppedIsEmpty(trace, w);
      hide IsTrace;
      assert Dones()[w] == jobQueues[w].done && Contents()[w] == jobQueues[w].jobQueue;
    }

    /** One round: the scan, pop on the own queue when the scan brought nothing to call, and the job. */
    method Round(w: nat)
      requires Valid() && w < |workers| && workers[w] == Scanning(0)
      modifies this`jobIndex, this`calls, this`workers, this`ran, this`dropped, this`closing, this`trace, jobQueues
      ensures Valid() && Advances(old(trace), trace, -1, -1) && w < |workers|
      ensures workers[w] == Scanning(0) || workers[w].Stopped?
    {
      hide IsTrace, Passes, Advances, Abs;
      Scan(w);
      ghost var scanned := trace;
      AdvancesIsPasses(old(trace), trace, -1, -1);
      NothingYet(trace, -1, -1);
      if workers[w].Popping? {
        PopOwn(w);
        PassesThen(old(trace), scanned, trace, -1, -1);
        if workers[w].Stopped? {
          return;
        }
      }
      ghost var held := trace;
      RunHeld(w);
      PassesThen(old(trace), held, trace, -1, -1);
    }

    /** The for loop of run: it ends with a job in hand, with an empty function overwritten in the pop that
        follows, or with nothing. */
    method Scan(w: nat)
      requires Valid() && w < |workers| && workers[w] == Scanning(0)
      modifies this`jobIndex, this`calls, this`workers, this`ran, this`dropped, this`closing, this`trace, jobQueues
      ensures Valid() && Advances(old(trace), trace, -1, -1) && w < |workers|
      ensures workers[w].Popping? || workers[w].Holding?
    {
      hide IsTrace, Passes, Advances, Abs;
      NothingYet(trace, -1, -1);
      var offset := 0;
      while offset < tries && workers[w].Scanning?
        invariant Valid() && w < |workers| && offset <= tries
        invariant workers[w] == Scanning(offset) || workers[w].Popping? || workers[w].Holding?
        invariant Passes(old(trace), trace, -1, -1)
        invariant !workers[w].Scanning? ==> Advances(old(trace), trace, -1, -1)
        decreases tries - offset, workers[w].Scanning?
      {
        ghost var start := trace;
        OutsideWorker(w);
        PassesThen(old(trace), start, trace, -1, -1);
        ghost var before := trace;
        var locked: bool :| true;
        TryPopStep(w, locked);
        AdvancesIsPasses(before, trace, -1, -1);
        PassesThen(old(trace), before, trace, -1, -1);
        offset := offset + 1;
      }
      if workers[w].Scanning? {
        ghost var start := trace;
        OutsideWorker(w);
        PassesThen(old(trace), start, trace, -1, -1);
        ghost var before := trace;
        EndScanStep(w);
        AdvancesIsPasses(before, trace, -1, -1);
        PassesThen(old(trace), before, trace, -1, -1);
      }
    }

    /** pop on the worker's own queue: it waits for a job or for the queue to be closed. */
    method PopOwn(w: nat)
      requires Valid() && w < |workers| && workers[w].Popping?
      modifies this`jobIndex, this`calls, this`workers, this`ran, this`dropped, this`closing, this`trace, jobQueues
      ensures Valid() && Passes(old(trace), trace, -1, -1) && w < |workers|
      ensures workers[w].Stopped? || workers[w].Holding?
    {
      hide IsTrace, Passes, Advances, Abs;
      AwaitJob(w);
      ghost var ready := trace;
      PopStep(w);
      AdvancesIsPasses(ready, trace, -1, -1);
      PassesThen(old(trace), ready, trace, -1, -1);
    }

    method RunHeld(w: nat)
      requires Valid() && w < |workers| && workers[w].Holding?
      modifies this`jobIndex, this`calls, this`workers, this`ran, this`dropped, this`closing, this`trace, jobQueues
      ensures Valid() && Passes(old(trace), trace, -1, -1) && w < |workers| && workers[w] == Scanning(0)
    {
      hide IsTrace, Passes, Advances, Abs;
      OutsideWorker(w);
      ghost var before := trace;
      RunStep(w);
      AdvancesIsPasses(before, trace, -1, -1);
      PassesThen(old(trace), before, trace, -1, -1);
    }

    /** The others act, and worker w waits. */
    method OutsideWorker(w: nat)
      requires Valid() && w < |workers|
      modifies this`jobIndex, this`calls, this`workers, this`ran, this`dropped, this`closing, this`trace, jobQueues
      ensures Valid() && w < |workers| && workers[w] == old(workers)[w] && Passes(old(trace), trace, -1, -1)
    {
      Present();
      hide IsTrace, Passes, Abs;
      Outside(-1, w, true);
      Present();
      PassesFacts(old(trace), trace, -1, w);
      PassesWeaker(old(trace), trace, -1, w);
    }

    /** The wait in pop ends with a job, or at the latest when the destructor closes the queue. */
    method AwaitJob(w: nat)
      requires Valid() && w < |workers| && workers[w].Popping?
      modifies this`jobIndex, this`calls, this`workers, this`ran, this`dropped, this`closing, this`trace, jobQueues
      ensures Valid() && Passes(old(trace), trace, -1, -1) && w < |workers| && workers[w].Popping?
      ensures w < |jobQueues| && (jobQueues[w].jobQueue != [] || jobQueues[w].done)
    {
      Size();
      assert w < |jobQueues|;
      hide IsTrace, Passes, Advances, Abs;
      OutsideWorker(w);
      if jobQueues[w].jobQueue == [] && !jobQueues[w].done {
        ghost var before := trace;
        BeginDestruction(w);
        PassesFacts(before, trace, -1, w);
        PassesWeaker(before, trace, -1, w);
        PassesThen(old(trace), before, trace, -1, -1);
        ghost var closed := trace;
        CloseOwn(w);
        PassesThen(old(trace), closed, trace, -1, -1);
      }
    }

    method CloseOwn(w: nat)
      requires Valid() && closing && w < |workers| && w < |jobQueues|
      modifies this`trace, jobQueues
      ensures Valid() && Passes(old(trace), trace, -1, -1) && jobQueues[w].done
    {
      NothingYet(trace, -1, -1);
      hide IsTrace, Passes, Advances;
      if !jobQueues[w].done {
        MarkDoneStep(w);
        AdvancesIsPasses(old(trace), trace, -1, -1);
        assert Dones()[w];
      }
    }

    // Destruction

    /** The open async_ calls return and the destructor starts. */
    method BeginDestruction(w: int)
      requires Valid()
      modifies this`calls, this`closing, this`trace, jobQueues
      ensures Valid() && closing && Passes(old(trace), trace, -1, w)
    {
      hide IsTrace, Passes, Advances, Abs;
      NothingYet(trace, -1, w);
      if !closing {
        FinishCalls(w);
        ghost var before := trace;
        CloseStep();
        AdvancesIsPasses(before, trace, -1, w);
        PassesThen(old(trace), before, trace, -1, w);
      }
    }

    method FinishCalls(w: int)
      requires Valid() && !closing
      modifies this`calls, this`trace, jobQueues
      ensures Valid() && !closing && (forall c :: c in calls ==> c.Submitted?) && Passes(old(trace), trace, -1, w)
    {
      hide IsTrace, Passes, Advances, Abs;
      NothingYet(trace, -1, w);
      for i := 0 to |calls|
        invariant Valid() && |calls| == |old(calls)| && Passes(old(trace), trace, -1, w)
        invariant forall c :: 0 <= c < i ==> calls[c].Submitted?
      {
        ghost var before := trace;
        FinishCall(i, w);
        PassesThen(old(trace), before, trace, -1, w);
      }
    }

    method FinishCall(i: nat, w: int)
      requires Valid() && i < |calls|
      modifies this`calls, this`trace, jobQueues
      ensures Valid() && |calls| == |old(calls)| && calls[i].Submitted? && Passes(old(trace), trace, -1, w)
      ensures forall c :: 0 <= c < |calls| && c != i ==> calls[c] == old(calls)[c]
    {
      OffsetsFit(i);
      hide IsTrace, Passes, Advances, Abs;
      NothingYet(trace, -1, w);
      while calls[i].Trying?
        invariant Valid() && |calls| == |old(calls)| && Passes(old(trace), trace, -1, w)
        invariant forall c :: 0 <= c < |calls| && c != i ==> calls[c] == old(calls)[c]
        invariant calls[i].Trying? ==> calls[i].offset <= hwConcurrency
        decreases calls[i].Trying?, if calls[i].Trying? then hwConcurrency - calls[i].offset else 0
      {
        ghost var before := trace;
        CallStep(i);
        AdvancesIsPasses(before, trace, -1, w);
        PassesThen(old(trace), before, trace, -1, w);
      }
    }

    lemma OffsetsFit(i: nat)
      requires Valid() && i < |calls|
      ensures calls[i].Trying? ==> calls[i].offset <= hwConcurrency
    {
      TraceFacts(trace);
      assert calls[i] in calls;
    }

    /** Destruction, which the caller starts when every async_ call has returned: the queues are closed one
        after the other, then the threads are joined. It ends, and then every queue is empty, every job with
        something to call has been run exactly as often as it was submitted, and the others run or dropped. */
    method Destroy()
      requires Valid() && !closing && forall c :: c in calls ==> c.Submitted?
      modifies this`jobIndex, this`calls, this`workers, this`ran, this`dropped, this`closing, this`trace, jobQueues
      ensures Valid() && Passes(old(trace), trace, -1, -1) && Drained(Abs())
    {
      hide IsTrace, Passes, Advances, Abs, Drained;
      CloseStep();
      AdvancesIsPasses(old(trace), trace, -1, -1);
      ghost var closed := trace;
      ReleaseQueues();
      PassesThen(old(trace), closed, trace, -1, -1);
      ghost var released := trace;
      JoinThreads();
      PassesThen(old(trace), released, trace, -1, -1);
    }

    method ReleaseQueues()
      requires Valid() && closing
      modifies this`jobIndex, this`calls, this`workers, this`ran, this`dropped, this`closing, this`trace, jobQueues
      ensures Valid() && closing && Passes(old(trace), trace, -1, -1) && AllDone()
    {
      hide IsTrace, Passes, Advances, Abs;
      NothingYet(trace, -1, -1);
      for q := 0 to hwConcurrency
        invariant Valid() && closing && Passes(old(trace), trace, -1, -1)
        invariant forall i :: 0 <= i < q ==> Dones()[i]
      {
        ghost var before := trace;
        Outside(-1, -1, false);
        PassesThen(old(trace), before, trace, -1, -1);
        ghost var open := trace;
        CloseQueue(q);
        PassesThen(old(trace), open, trace, -1, -1);
      }
      forall q | 0 <= q < |jobQueues| ensures jobQueues[q].done { assert Dones()[q]; }
    }

    method CloseQueue(q: nat)
      requires Valid() && closing && q < hwConcurrency
      modifies this`trace, jobQueues
      ensures Valid() && Passes(old(trace), trace, -1, -1) && Dones() == old(Dones())[q := true]
    {
      NothingYet(trace, -1, -1);
      hide IsTrace, Passes, Advances;
      if jobQueues[q].done {
        assert Dones() == Dones()[q := true];
      } else {
        MarkDoneStep(q);
        AdvancesIsPasses(old(trace), trace, -1, -1);
      }
    }

    method JoinThreads()
      requires Valid() && closing && AllDone()
      modifies this`jobIndex, this`calls, this`workers, this`ran, this`dropped, this`closing, this`trace, jobQueues
      ensures Valid() && Passes(old(trace), trace, -1, -1) && Drained(Abs())
    {
      hide IsTrace, Passes, Advances, Drained, Abs, AllDone;
      NothingYet(trace, -1, -1);
      for w := 0 to |workers|
        invariant Valid() && closing && Passes(old(trace), trace, -1, -1) && |workers| == |old(workers)| && AllDone()
        invariant forall i :: 0 <= i < w ==> workers[i].Stopped?
      {
        ghost var before := trace;
        Join(w);
        PassesThen(old(trace), before, trace, -1, -1);
      }
      AllHaveStopped();
    }

    /** All queues are closed. */
    ghost predicate AllDone()
      reads jobQueues
    {
      forall q :: 0 <= q < |jobQueues| ==> jobQueues[q].done
    }

    lemma AllHaveStopped()
      requires Valid() && forall i :: 0 <= i < |workers| ==> workers[i].Stopped?
      ensures Drained(Abs())
    {
      hide IsTrace, Drained;
      StoppedIsDrained(trace);
    }

    /** Joining a thread: it goes on until it has returned. */
    method Join(w: nat)
      requires Valid() && closing && w < |workers| && AllDone()
      modifies this`jobIndex, this`calls, this`workers, this`ran, this`dropped, this`closing, this`trace, jobQueues
      ensures Valid() && closing && Passes(old(trace), trace, -1, -1) && |workers| == |old(workers)| && AllDone()
      ensures workers[w].Stopped? && forall i :: 0 <= i < |workers| && old(workers)[i].Stopped? ==> workers[i].Stopped?
    {
      hide IsTrace, Passes, Advances, Abs, AllDone;
      NothingYet(trace, -1, -1);
      Present();
      while !workers[w].Stopped?
        invariant Valid() && closing && trace.states != [] && Now(trace).closing && Passes(old(trace), trace, -1, -1)
        invariant |workers| == |old(workers)| && AllDone()
        invariant forall i :: 0 <= i < |workers| && old(workers)[i].Stopped? ==> workers[i].Stopped?
        decreases DrainMeasure(tries, Now(trace))
      {
        ghost var before := trace;
        JoinStep(w);
        AdvancesIsPasses(before, trace, -1, -1);
        PassesThen(old(trace), before, trace, -1, -1);
      }
    }

    method JoinStep(w: nat)
      requires Valid() && closing && w < |workers| && !workers[w].Stopped? && AllDone()
      modifies this`jobIndex, this`calls, this`workers, this`ran, this`dropped, this`closing, this`trace, jobQueues
      ensures Valid() && closing && trace.states != [] && Now(trace).closing && Advances(old(trace), trace, -1, -1)
      ensures |workers| == |old(workers)| && AllDone()
      ensures forall i :: 0 <= i < |workers| && old(workers)[i].Stopped? ==> workers[i].Stopped?
    {
      Size();
      Present();
      assert w < |jobQueues|;
      hide IsTrace, Passes, Advances, Abs;
      Outside(-1, w, false);
      Present();
      ghost var before := trace;
      PassesFacts(old(trace), before, -1, w);
      PassesWeaker(old(trace), before, -1, w);
      assert workers[w] == old(workers)[w] && Dones() == old(Dones()) && old(Dones())[w] && Dones()[w];
      WorkerStep(w);
      AdvancesIsPasses(before, trace, -1, -1);
      PassesThen(old(trace), before, trace, -1, -1);
      AdvancesIsPasses(old(trace), trace, -1, -1);
      PassesFacts(old(trace), trace, -1, -1);
      Present();
      forall i | 0 <= i < |workers| && old(workers)[i].Stopped? ensures workers[i].Stopped? {
        PassesStopped(old(trace), trace, -1, -1, i);
      }
      forall q | 0 <= q < |jobQueues| ensures jobQueues[q].done { assert old(Dones())[q] && Dones()[q]; }
    }
  }
}

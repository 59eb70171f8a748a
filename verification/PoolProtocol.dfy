/** The work-stealing pool as a transition system: any number of submitters, workers and failing
    try-locks, up to and including destruction. */
module PoolProtocol {
  import opened Jobs = JobQueue

  const UNSIGNED_RANGE := 0x1_0000_0000

  /** The queue tried at an offset: unsigned addition wraps before the remainder is taken. */
  function Target(index: nat, offset: nat, n: nat): (t: nat)
    requires 0 < n
    ensures t < n
  {
    (index + offset) % UNSIGNED_RANGE % n
  }

  // Which queue an offset names

  lemma AtLeastOnce(d: int, n: nat)
    requires 1 <= d
    ensures n <= d * n
  {
  }

  lemma OneRemainder(q: int, m: nat, k: int, r: nat, n: nat)
    requires m < n && r < n && q * n + m == k * n + r
    ensures m == r
  {
    assert (q - k) * n == r - m && (k - q) * n == m - r;
    if k < q { AtLeastOnce(q - k, n); }
    if q < k { AtLeastOnce(k - q, n); }
  }

  lemma RemainderIs(x: nat, k: nat, r: nat, n: nat)
    requires r < n && x == k * n + r
    ensures x % n == r
  {
    OneRemainder(x / n, x % n, k, r, n);
  }

  lemma RemainderAdd(x: nat, a: nat, n: nat)
    requires a <= n && 0 < n
    ensures (x + a) % n == if x % n + a < n then x % n + a else x % n + a - n
  {
    var q := x / n;
    if x % n + a < n {
      RemainderIs(x + a, q, x % n + a, n);
    } else {
      assert (q + 1) * n == q * n + n;
      RemainderIs(x + a, q + 1, x % n + a - n, n);
    }
  }

  /** The next offset names the next queue, and the first queue comes after the last. */
  lemma TargetNext(index: nat, a: nat, n: nat)
    requires 0 < n && index + a + 1 < 0x1_0000_0000
    ensures Target(index, 0, n) == index % n
    ensures Target(index, a + 1, n) == if Target(index, a, n) + 1 == n then 0 else Target(index, a, n) + 1
  {
    assert index % 0x1_0000_0000 == index && (index + a) % 0x1_0000_0000 == index + a;
    assert (index + (a + 1)) % 0x1_0000_0000 == index + a + 1;
    var t := (index + a) % n;
    RemainderAdd(index + a, 1, n);
    assert index + (a + 1) == (index + a) + 1;
  }

  /** A scan goes round the queues again and again. */
  lemma TargetRepeats(index: nat, a: nat, n: nat)
    requires 0 < n && index + a + n < 0x1_0000_0000
    ensures Target(index, a + n, n) == Target(index, a, n)
  {
    NoWrap(index + a);
    NoWrap(index + (a + n));
    RemainderAdd(index + a, n, n);
  }

  lemma NoWrap(x: nat)
    requires x < 0x1_0000_0000
    ensures x % 0x1_0000_0000 == x
  {
  }

  lemma RemainderShifts(y: nat, range: nat, n: nat)
    requires 0 < n && range % n == 0
    ensures (y + range) % n == y % n
  {
    var q, k, r := y / n, range / n, y % n;
    assert (q + k) * n == q * n + k * n;
    RemainderIs(y + range, q + k, r, n);
  }

  /** The offsets do not wrap around, or the number of queues divides the range. */
  predicate FitsRange(index: nat, n: nat)
    requires 0 < n
  {
    index + n <= 0x1_0000_0000 || 0x1_0000_0000 % n == 0
  }

  /** Then the wrap-around does not show. */
  lemma TargetIs(index: nat, a: nat, n: nat)
    requires index < 0x1_0000_0000 && a < n < 0x1_0000_0000 && FitsRange(index, n)
    ensures Target(index, a, n) == (index + a) % n
  {
    if 0x1_0000_0000 <= index + a {
      RemainderShifts(index + a - 0x1_0000_0000, 0x1_0000_0000, n);
    }
  }

  /** The offsets below the number of queues name every queue, each at one offset only. */
  ghost predicate NamesEachOnce(index: nat, n: nat)
    requires 0 < n
  {
    forall q :: 0 <= q < n ==> NamedOnce(index, n, q)
  }

  ghost predicate NamedOnce(index: nat, n: nat, q: nat)
    requires 0 < n
  {
    exists a :: NamesOnlyAt(index, n, q, a)
  }

  ghost predicate NamesOnlyAt(index: nat, n: nat, q: nat, a: int)
    requires 0 < n
  {
    0 <= a < n && forall b :: 0 <= b < n ==> (Target(index, b, n) == q <==> b == a)
  }

  lemma NamedOnlyAt(index: nat, n: nat, q: nat)
    requires q < n < 0x1_0000_0000 && index < 0x1_0000_0000 && FitsRange(index, n)
    ensures var i := index % n; NamesOnlyAt(index, n, q, if i <= q then q - i else q + n - i)
  {
    var i := index % n;
    forall b | 0 <= b < n ensures Target(index, b, n) == if i + b < n then i + b else i + b - n {
      TargetIs(index, b, n);
      RemainderAdd(index, b, n);
    }
  }

  /** Behind the wrap-around the same queue is named again, unless the number of queues divides the range. */
  lemma NamedTwice(index: nat, n: nat) returns (a: nat, b: nat)
    requires 0 < n < 0x1_0000_0000 && index < 0x1_0000_0000
    requires 0x1_0000_0000 < index + n && 0x1_0000_0000 % n != 0
    ensures a < b < n && Target(index, a, n) == Target(index, b, n)
  {
    var range := 0x1_0000_0000;
    var w, r := index + n - range, range % n;
    var x := if w < r then w - 1 else r - 1;
    a, b := range - r + x - index, range - index + x;
    RemainderIs(range - r + x, range / n, x, n);
    RemainderIs(x, 0, x, n);
  }

  lemma NamedTwiceIsNotOnce(index: nat, n: nat, a: nat, b: nat)
    requires a < b < n && Target(index, a, n) == Target(index, b, n)
    ensures !NamedOnce(index, n, Target(index, a, n))
  {
    hide Target;
    forall c | NamesOnlyAt(index, n, Target(index, a, n), c) ensures false {
      assert false;
    }
  }

  /** A call, or a worker's scan, comes to every queue exactly once unless the wrap-around shows. */
  lemma EachOnceIff(index: nat, n: nat)
    requires 0 < n < 0x1_0000_0000 && index < 0x1_0000_0000
    ensures NamesEachOnce(index, n) <==> FitsRange(index, n)
  {
    if FitsRange(index, n) {
      forall q | 0 <= q < n ensures NamedOnce(index, n, q) { NamedOnlyAt(index, n, q); }
    } else {
      var a, b := NamedTwice(index, n);
      hide FitsRange, Target;
      NamedTwiceIsNotOnce(index, n, a, b);
      assert !NamedOnce(index, n, Target(index, a, n));
    }
  }

  /** Where it shows: with three queues the last ticket comes to the first queue twice, to the third never. */
  lemma LastTicketOfThree()
    ensures Target(0xFFFF_FFFF, 0, 3) == 0 && Target(0xFFFF_FFFF, 1, 3) == 0 && Target(0xFFFF_FFFF, 2, 3) == 1
  {
  }

  /** An async_ call: still looking for a queue, or done. index is its ticket from the shared counter. */
  datatype Call = Trying(job: Job, index: nat, offset: nat) | Submitted(job: Job)

  /** A worker: at some try of its scan, in pop on its own queue, about to run a job, or returned. */
  datatype Worker = Scanning(offset: nat) | Popping | Holding(job: Job) | Stopped

  datatype State = State(
    queues: seq<seq<Job>>,
    done: seq<bool>,
    jobIndex: nat,
    calls: seq<Call>,
    workers: seq<Worker>,
    ran: seq<Job>,
    dropped: seq<Job>,
    closing: bool)

  /** locked says whether the try-lock of that step succeeds. */
  datatype Label =
    | Submit(job: Job)
    | TryPush(call: nat, locked: bool)
    | PushWait(call: nat)
    | Close
    | MarkDone(queue: nat)
    | TryPop(worker: nat, locked: bool)
    | EndScan(worker: nat)
    | Pop(worker: nat)
    | Run(worker: nat)
  {
    predicate BySubmitter() { Submit? || TryPush? || PushWait? }
    predicate ByWorker() { TryPop? || EndScan? || Pop? || Run? }
  }

  ghost predicate Init(n: nat, s: State)
  {
    && 0 < n == |s.queues| == |s.done| == |s.workers| && s.jobIndex == 0
    && (forall i :: 0 <= i < n ==> s.queues[i] == [] && !s.done[i] && s.workers[i] == Scanning(0))
    && s.calls == [] && s.ran == [] && s.dropped == [] && !s.closing
  }

  predicate Sized(s: State) { 0 < |s.queues| == |s.done| == |s.workers| }

  /** Destruction starts only when every async_ call has returned, and none comes after it. */
  ghost predicate Enabled(tries: nat, s: State, l: Label)
  {
    Sized(s) && match l
    case Submit(_) => !s.closing
    case TryPush(c, _) => c < |s.calls| && s.calls[c].Trying? && s.calls[c].offset < |s.queues|
    case PushWait(c) => c < |s.calls| && s.calls[c].Trying? && s.calls[c].offset == |s.queues|
    case Close => !s.closing && forall c :: c in s.calls ==> c.Submitted?
    case MarkDone(q) => s.closing && q < |s.done| && !s.done[q]
    case TryPop(w, _) => w < |s.workers| && s.workers[w].Scanning? && s.workers[w].offset < tries
    case EndScan(w) => w < |s.workers| && s.workers[w].Scanning? && s.workers[w].offset >= tries
    case Pop(w) => w < |s.workers| && s.workers[w].Popping? && (s.queues[w] != [] || s.done[w])
    case Run(w) => w < |s.workers| && s.workers[w].Holding?
  }

  function PushTo(s: State, c: nat, q: nat): State
    requires c < |s.calls| && q < |s.queues|
  {
    s.(queues := s.queues[q := s.queues[q] + [s.calls[c].job]], calls := s.calls[c := Submitted(s.calls[c].job)])
  }

  /** Worker w takes the front of queue q. The scan breaks with an empty function in hand, too, and
      then overwrites it in pop: such a job is dropped. */
  function TakeFrom(s: State, w: nat, q: nat, scanning: bool): State
    requires w < |s.workers| && q < |s.queues| && s.queues[q] != []
  {
    var job := s.queues[q][0];
    var t := s.(queues := s.queues[q := s.queues[q][1..]]);
    if job.callable || !scanning then t.(workers := s.workers[w := Holding(job)])
    else t.(workers := s.workers[w := Popping], dropped := s.dropped + [job])
  }

  ghost function Apply(tries: nat, s: State, l: Label): State
    requires Enabled(tries, s, l)
  {
    match l
    case Submit(job) =>
      s.(calls := s.calls + [Trying(job, s.jobIndex, 0)], jobIndex := (s.jobIndex + 1) % UNSIGNED_RANGE)
    case TryPush(c, locked) =>
      if locked then PushTo(s, c, Target(s.calls[c].index, s.calls[c].offset, |s.queues|))
      else s.(calls := s.calls[c := s.calls[c].(offset := s.calls[c].offset + 1)])
    case PushWait(c) => PushTo(s, c, s.calls[c].index % |s.queues|)
    case Close => s.(closing := true)
    case MarkDone(q) => s.(done := s.done[q := true])
    case TryPop(w, locked) =>
      var q := Target(w, s.workers[w].offset, |s.queues|);
      if locked && s.queues[q] != [] then TakeFrom(s, w, q, true)
      else s.(workers := s.workers[w := Scanning(s.workers[w].offset + 1)])
    case EndScan(w) => s.(workers := s.workers[w := Popping])
    case Pop(w) => if s.queues[w] == [] then s.(workers := s.workers[w := Stopped]) else TakeFrom(s, w, w, false)
    case Run(w) => s.(workers := s.workers[w := Scanning(0)], ran := s.ran + [s.workers[w].job])
  }

  ghost predicate IsRun(n: nat, tries: nat, states: seq<State>, labels: seq<Label>)
  {
    && |states| == |labels| + 1 && Init(n, states[0])
    && forall k :: 0 <= k < |labels| ==>
         Enabled(tries, states[k], labels[k]) && states[k + 1] == Apply(tries, states[k], labels[k])
  }

  predicate AllStopped(s: State)
  {
    forall w :: 0 <= w < |s.workers| ==> s.workers[w].Stopped?
  }

  // Where the jobs are: how many copies of a job each place holds

  function InQueue(q: seq<Job>, j: Job): nat { multiset(q)[j] }

  function InQueues(queues: seq<seq<Job>>, j: Job): nat
  {
    if queues == [] then 0 else InQueues(queues[..|queues| - 1], j) + InQueue(queues[|queues| - 1], j)
  }

  function HeldBy(w: Worker, j: Job): nat { if w == Holding(j) then 1 else 0 }

  function Held(workers: seq<Worker>, j: Job): nat
  {
    if workers == [] then 0 else Held(workers[..|workers| - 1], j) + HeldBy(workers[|workers| - 1], j)
  }

  function AcceptedBy(c: Call, j: Job): nat { if c == Submitted(j) then 1 else 0 }

  /** async_ calls for j that have returned. */
  function Accepted(calls: seq<Call>, j: Job): nat
  {
    if calls == [] then 0 else Accepted(calls[..|calls| - 1], j) + AcceptedBy(calls[|calls| - 1], j)
  }

  /** All async_ calls ever made for j. */
  function Calls(calls: seq<Call>, j: Job): nat
  {
    if calls == [] then 0 else Calls(calls[..|calls| - 1], j) + if calls[|calls| - 1].job == j then 1 else 0
  }

  lemma {:induction false} InQueuesUpdate(queues: seq<seq<Job>>, i: nat, q: seq<Job>, j: Job)
    requires i < |queues|
    ensures InQueues(queues[i := q], j) + InQueue(queues[i], j) == InQueues(queues, j) + InQueue(q, j)
  {
    var n, u := |queues| - 1, queues[i := q];
    if i == n {
      assert u[..n] == queues[..n];
    } else {
      assert u[..n] == queues[..n][i := q];
      InQueuesUpdate(queues[..n], i, q, j);
    }
  }

  lemma {:induction false} HeldUpdate(workers: seq<Worker>, i: nat, w: Worker, j: Job)
    requires i < |workers|
    ensures Held(workers[i := w], j) + HeldBy(workers[i], j) == Held(workers, j) + HeldBy(w, j)
  {
    var n, u := |workers| - 1, workers[i := w];
    if i == n {
      assert u[..n] == workers[..n];
    } else {
      assert u[..n] == workers[..n][i := w];
      HeldUpdate(workers[..n], i, w, j);
    }
  }

  lemma {:induction false} CallUpdate(calls: seq<Call>, i: nat, c: Call, j: Job)
    requires i < |calls| && calls[i].Trying? && c.job == calls[i].job
    ensures Accepted(calls[i := c], j) == Accepted(calls, j) + AcceptedBy(c, j)
    ensures Calls(calls[i := c], j) == Calls(calls, j)
  {
    var n, u := |calls| - 1, calls[i := c];
    if i == n {
      assert u[..n] == calls[..n];
    } else {
      assert u[..n] == calls[..n][i := c];
      CallUpdate(calls[..n], i, c, j);
    }
  }

  lemma QueueFront(q: seq<Job>, j: Job)
    requires q != []
    ensures InQueue(q, j) == InQueue(q[1..], j) + if q[0] == j then 1 else 0
  {
    assert q == [q[0]] + q[1..];
  }

  /** Every copy of j that was accepted is in a queue, in a worker's hand, run, or dropped; never
      twice, never gone. */
  ghost predicate ConservedFor(s: State, j: Job)
  {
    Accepted(s.calls, j) == InQueues(s.queues, j) + Held(s.workers, j) + InQueue(s.ran, j) + InQueue(s.dropped, j)
  }

  lemma TakeConserves(s: State, w: nat, q: nat, scanning: bool, j: Job)
    requires w < |s.workers| && q < |s.queues| && s.queues[q] != [] && !s.workers[w].Holding? && ConservedFor(s, j)
    ensures ConservedFor(TakeFrom(s, w, q, scanning), j)
  {
    hide InQueues, Held, Accepted;
    QueueFront(s.queues[q], j);
    InQueuesUpdate(s.queues, q, s.queues[q][1..], j);
    HeldUpdate(s.workers, w, TakeFrom(s, w, q, scanning).workers[w], j);
  }

  lemma PushConserves(s: State, c: nat, q: nat, j: Job)
    requires c < |s.calls| && q < |s.queues| && s.calls[c].Trying? && ConservedFor(s, j)
    ensures ConservedFor(PushTo(s, c, q), j)
  {
    hide InQueues, Held, Accepted, Calls;
    CallUpdate(s.calls, c, Submitted(s.calls[c].job), j);
    InQueuesUpdate(s.queues, q, s.queues[q] + [s.calls[c].job], j);
  }

  /** A worker that neither takes nor runs anything changes no job's place. */
  lemma WorkerConserves(s: State, w: nat, after: Worker, j: Job)
    requires w < |s.workers| && !s.workers[w].Holding? && !after.Holding? && ConservedFor(s, j)
    ensures ConservedFor(s.(workers := s.workers[w := after]), j)
  {
    hide InQueues, Held, Accepted;
    HeldUpdate(s.workers, w, after, j);
  }

  lemma RunConserves(s: State, w: nat, j: Job)
    requires w < |s.workers| && s.workers[w].Holding? && ConservedFor(s, j)
    ensures ConservedFor(s.(workers := s.workers[w := Scanning(0)], ran := s.ran + [s.workers[w].job]), j)
  {
    hide InQueues, Held, Accepted;
    HeldUpdate(s.workers, w, Scanning(0), j);
  }

  lemma SubmitterConserves(tries: nat, s: State, l: Label, j: Job)
    requires ConservedFor(s, j) && Enabled(tries, s, l) && l.BySubmitter()
    ensures ConservedFor(Apply(tries, s, l), j)
  {
    hide InQueues, Held, InQueue;
    match l
    case Submit(job) =>
      assert (s.calls + [Trying(job, s.jobIndex, 0)])[..|s.calls|] == s.calls;
    case TryPush(c, locked) =>
      hide Accepted, Calls;
      if locked {
        PushConserves(s, c, Target(s.calls[c].index, s.calls[c].offset, |s.queues|), j);
      } else {
        CallUpdate(s.calls, c, s.calls[c].(offset := s.calls[c].offset + 1), j);
      }
    case PushWait(c) =>
      hide Accepted, Calls;
      PushConserves(s, c, s.calls[c].index % |s.queues|, j);
  }

  lemma StepConserves(tries: nat, s: State, l: Label, j: Job)
    requires ConservedFor(s, j) && Enabled(tries, s, l)
    ensures ConservedFor(Apply(tries, s, l), j)
  {
    if l.BySubmitter() {
      SubmitterConserves(tries, s, l, j);
    } else {
      hide InQueues, Held, InQueue, Accepted, Target;
      match l
      case Close =>
      case MarkDone(q) =>
      case TryPop(w, locked) =>
        var q := Target(w, s.workers[w].offset, |s.queues|);
        if locked && s.queues[q] != [] {
          TakeConserves(s, w, q, true, j);
        } else {
          WorkerConserves(s, w, Scanning(s.workers[w].offset + 1), j);
        }
      case EndScan(w) => WorkerConserves(s, w, Popping, j);
      case Pop(w) =>
        if s.queues[w] == [] {
          WorkerConserves(s, w, Stopped, j);
        } else {
          TakeConserves(s, w, w, false, j);
        }
      case Run(w) => RunConserves(s, w, j);
    }
  }

  ghost predicate Closed(s: State)
  {
    && (s.closing ==> forall c :: c in s.calls ==> c.Submitted?)
    && (forall q :: 0 <= q < |s.done| && s.done[q] ==> s.closing)
    && (forall w :: 0 <= w < |s.workers| && w < |s.done| && w < |s.queues| && s.workers[w].Stopped? ==>
      s.done[w] && s.queues[w] == [])
    && (forall j :: j in s.dropped ==> !j.callable)
    && (forall c :: c in s.calls && c.Trying? ==> c.offset <= |s.queues|)
  }

  lemma SubmitterCloses(tries: nat, s: State, l: Label)
    requires Closed(s) && Enabled(tries, s, l) && l.BySubmitter()
    ensures Closed(Apply(tries, s, l))
  {
    var t := Apply(tries, s, l);
    assert !s.closing by {
      if !l.Submit? { assert s.calls[l.call] in s.calls; }
    }
    forall c | c in t.calls && c.Trying? ensures c.offset <= |t.queues| {
      var k :| 0 <= k < |t.calls| && t.calls[k] == c;
      if k < |s.calls| { assert s.calls[k] in s.calls; }
    }
  }

  lemma DestructorCloses(tries: nat, s: State, l: Label)
    requires Closed(s) && Enabled(tries, s, l) && (l.Close? || l.MarkDone?)
    ensures Closed(Apply(tries, s, l))
  {
  }

  lemma TakeCloses(s: State, w: nat, q: nat, scanning: bool)
    requires Closed(s) && Sized(s) && w < |s.workers| && q < |s.queues| && s.queues[q] != []
    requires !s.workers[w].Stopped?
    ensures Closed(TakeFrom(s, w, q, scanning))
  {
  }

  lemma WorkerCloses(tries: nat, s: State, l: Label)
    requires Closed(s) && Enabled(tries, s, l) && !l.BySubmitter() && !l.Close? && !l.MarkDone?
    ensures Closed(Apply(tries, s, l))
  {
    match l
    case TryPop(w, locked) =>
      var q := Target(w, s.workers[w].offset, |s.queues|);
      if locked && s.queues[q] != [] { TakeCloses(s, w, q, true); }
    case Pop(w) => if s.queues[w] != [] { TakeCloses(s, w, w, false); }
    case _ =>
  }

  lemma StepSized(tries: nat, s: State, l: Label)
    requires Enabled(tries, s, l)
    ensures Sized(Apply(tries, s, l)) && |Apply(tries, s, l).queues| == |s.queues|
  {
  }

  lemma StepCloses(tries: nat, s: State, l: Label)
    requires Closed(s) && Enabled(tries, s, l)
    ensures Closed(Apply(tries, s, l)) && Sized(Apply(tries, s, l)) && |Apply(tries, s, l).queues| == |s.queues|
  {
    hide *;
    StepSized(tries, s, l);
    if l.BySubmitter() {
      SubmitterCloses(tries, s, l);
    } else if l.Close? || l.MarkDone? {
      DestructorCloses(tries, s, l);
    } else {
      WorkerCloses(tries, s, l);
    }
  }

  lemma {:induction false} RunInv(n: nat, tries: nat, states: seq<State>, labels: seq<Label>, k: nat, j: Job)
    requires IsRun(n, tries, states, labels) && k < |states|
    ensures ConservedFor(states[k], j) && Closed(states[k]) && Sized(states[k]) && |states[k].queues| == n
  {
    if k == 0 {
      NothingQueued(states[0].queues, j);
      NothingHeld(states[0].workers, j);
    } else {
      hide ConservedFor, Closed, Enabled, Apply, Init;
      RunInv(n, tries, states, labels, k - 1, j);
      StepConserves(tries, states[k - 1], labels[k - 1], j);
      StepCloses(tries, states[k - 1], labels[k - 1]);
    }
  }

  /** Calls get consecutive tickets, modulo the range. */
  lemma {:induction false} Tickets(n: nat, tries: nat, states: seq<State>, labels: seq<Label>, k: nat)
    requires IsRun(n, tries, states, labels) && k < |states|
    ensures var s := states[k];
      && s.jobIndex == |s.calls| % 0x1_0000_0000
      && forall c :: 0 <= c < |s.calls| && s.calls[c].Trying? ==> s.calls[c].index == c % 0x1_0000_0000
  {
    if k > 0 {
      Tickets(n, tries, states, labels, k - 1);
      TicketsStep(tries, states[k - 1], labels[k - 1]);
    }
  }

  lemma TicketsStep(tries: nat, s: State, l: Label)
    requires Enabled(tries, s, l) && s.jobIndex == |s.calls| % 0x1_0000_0000
    requires forall c :: 0 <= c < |s.calls| && s.calls[c].Trying? ==> s.calls[c].index == c % 0x1_0000_0000
    ensures var t := Apply(tries, s, l);
      && t.jobIndex == |t.calls| % 0x1_0000_0000
      && forall c :: 0 <= c < |t.calls| && t.calls[c].Trying? ==> t.calls[c].index == c % 0x1_0000_0000
  {
    if l.Submit? {
      var n := |s.calls|;
      assert (n + 1) % 0x1_0000_0000 == (n % 0x1_0000_0000 + 1) % 0x1_0000_0000;
    } else {
      CallsKept(tries, s, l);
      hide Apply, Enabled;
    }
  }

  lemma CallsKept(tries: nat, s: State, l: Label)
    requires Enabled(tries, s, l) && !l.Submit?
    ensures var t := Apply(tries, s, l);
      && t.jobIndex == s.jobIndex && |t.calls| == |s.calls|
      && forall c :: 0 <= c < |t.calls| && t.calls[c].Trying? ==>
           s.calls[c].Trying? && t.calls[c].index == s.calls[c].index
  {
    hide Target;
  }

  lemma {:induction false} NothingQueued(queues: seq<seq<Job>>, j: Job)
    requires forall i :: 0 <= i < |queues| ==> queues[i] == []
    ensures InQueues(queues, j) == 0
  {
    if queues != [] { NothingQueued(queues[..|queues| - 1], j); }
  }

  lemma {:induction false} NothingHeld(workers: seq<Worker>, j: Job)
    requires forall i :: 0 <= i < |workers| ==> !workers[i].Holding?
    ensures Held(workers, j) == 0
  {
    if workers != [] { NothingHeld(workers[..|workers| - 1], j); }
  }

  lemma {:induction false} AllAccepted(calls: seq<Call>, j: Job)
    requires forall c :: c in calls ==> c.Submitted?
    ensures Accepted(calls, j) == Calls(calls, j)
  {
    if calls != [] {
      assert calls[|calls| - 1] in calls;
      AllAccepted(calls[..|calls| - 1], j);
    }
  }

  /** No worker can take a step. */
  ghost predicate WorkersRest(tries: nat, s: State)
  {
    forall l: Label :: l.ByWorker() ==> !Enabled(tries, s, l)
  }

  /** A worker that can take no step has returned, or is in pop with its queue empty and open. */
  lemma RestingWorker(tries: nat, s: State, w: nat)
    requires Sized(s) && Closed(s) && WorkersRest(tries, s) && w < |s.workers|
    ensures (s.workers[w].Stopped? || (s.workers[w].Popping? && !s.done[w])) && s.queues[w] == []
  {
    assert !Enabled(tries, s, TryPop(w, true)) && !Enabled(tries, s, EndScan(w));
    assert !Enabled(tries, s, Pop(w)) && !Enabled(tries, s, Run(w));
  }

  /** In a living pool as in a destroyed one: when every call has returned and no worker can take a step, the
      queues are empty and every job with something to call has been run exactly as often as submitted. */
  lemma RestIsDrained(n: nat, tries: nat, states: seq<State>, labels: seq<Label>, k: nat, j: Job)
    requires IsRun(n, tries, states, labels) && k < |states|
    requires WorkersRest(tries, states[k]) && forall c :: c in states[k].calls ==> c.Submitted?
    ensures forall q :: 0 <= q < |states[k].queues| ==> states[k].queues[q] == []
    ensures InQueue(states[k].ran, j) + InQueue(states[k].dropped, j) == Calls(states[k].calls, j)
    ensures j.callable ==> InQueue(states[k].ran, j) == Calls(states[k].calls, j)
  {
    var s := states[k];
    RunInv(n, tries, states, labels, k, j);
    hide IsRun, WorkersRest;
    forall w | 0 <= w < |s.workers| ensures s.queues[w] == [] && !s.workers[w].Holding? {
      RestingWorker(tries, s, w);
    }
    NothingQueued(s.queues, j);
    NothingHeld(s.workers, j);
    AllAccepted(s.calls, j);
    assert j.callable ==> j !in s.dropped;
  }

  /** When all workers have returned, every queue is empty and every submitted job with something to
      call has been run exactly as often as it was submitted, whatever was stolen and whichever
      try-locks failed. An empty function has been run or dropped. */
  lemma DrainsExactlyOnce(n: nat, tries: nat, states: seq<State>, labels: seq<Label>, k: nat, j: Job)
    requires IsRun(n, tries, states, labels) && k < |states|
    requires AllStopped(states[k])
    ensures forall q :: 0 <= q < |states[k].queues| ==> states[k].queues[q] == []
    ensures InQueue(states[k].ran, j) + InQueue(states[k].dropped, j) == Calls(states[k].calls, j)
    ensures j.callable ==> InQueue(states[k].ran, j) == Calls(states[k].calls, j)
  {
    RunInv(n, tries, states, labels, k, j);
    hide IsRun;
    assert states[k].workers[0].Stopped? && states[k].done[0];
    RestIsDrained(n, tries, states, labels, k, j);
  }

  /** A pool of one worker after k steps of such a run. */
  function DropState(job: Job, k: nat): State
  {
    if k == 0 then State([[]], [false], 0, [], [Scanning(0)], [], [], false)
    else if k == 1 then State([[]], [false], 1, [Trying(job, 0, 0)], [Scanning(0)], [], [], false)
    else if k == 2 then State([[job]], [false], 1, [Submitted(job)], [Scanning(0)], [], [], false)
    else if k == 3 then State([[]], [false], 1, [Submitted(job)], [Popping], [], [job], false)
    else if k == 4 then State([[]], [false], 1, [Submitted(job)], [Popping], [], [job], true)
    else if k == 5 then State([[]], [true], 1, [Submitted(job)], [Popping], [], [job], true)
    else State([[]], [true], 1, [Submitted(job)], [Stopped], [], [job], true)
  }

  function DropLabel(job: Job, k: nat): Label
  {
    if k == 0 then Submit(job)
    else if k == 1 then TryPush(0, true)
    else if k == 2 then TryPop(0, true)
    else if k == 3 then Close
    else if k == 4 then MarkDone(0)
    else Pop(0)
  }

  lemma DropPush(job: Job)
    ensures Enabled(32, DropState(job, 1), TryPush(0, true))
    ensures DropState(job, 2) == Apply(32, DropState(job, 1), TryPush(0, true))
  {
    assert [] + [job] == [job] && [[]][0 := [job]] == [[job]];
  }

  lemma DropTake(job: Job)
    requires !job.callable
    ensures Enabled(32, DropState(job, 2), TryPop(0, true))
    ensures DropState(job, 3) == Apply(32, DropState(job, 2), TryPop(0, true))
  {
    assert [job][1..] == [] && [[job]][0 := []] == [[]];
  }

  lemma DropOther(job: Job, k: nat)
    requires k < 6 && k != 1 && k != 2
    ensures var s, l := DropState(job, k), DropLabel(job, k);
      Enabled(32, s, l) && DropState(job, k + 1) == Apply(32, s, l)
  {
  }

  lemma DropStep(job: Job, k: nat)
    requires !job.callable && k < 6
    ensures var s, l := DropState(job, k), DropLabel(job, k);
      Enabled(32, s, l) && DropState(job, k + 1) == Apply(32, s, l)
  {
    hide Enabled, Apply, DropState;
    if k == 1 {
      DropPush(job);
    } else if k == 2 {
      DropTake(job);
    } else {
      DropOther(job, k);
    }
  }

  /** An empty function reaches the pool, is taken by a scan, and is never run: exactly once needs
      something to call. */
  lemma EmptyFunctionIsDropped(job: Job) returns (states: seq<State>, labels: seq<Label>)
    requires !job.callable
    ensures IsRun(1, 32, states, labels) && AllStopped(states[|labels|])
    ensures states[|labels|].calls == [Submitted(job)]
    ensures states[|labels|].ran == [] && states[|labels|].dropped == [job]
  {
    states := seq(7, k requires 0 <= k < 7 => DropState(job, k));
    labels := seq(6, k requires 0 <= k < 6 => DropLabel(job, k));
    assert Init(1, DropState(job, 0));
    assert AllStopped(DropState(job, 6)) && DropState(job, 6).dropped == [job];
    hide Enabled, Apply, DropLabel;
    forall k | 0 <= k < |labels|
      ensures Enabled(32, states[k], labels[k]) && states[k + 1] == Apply(32, states[k], labels[k])
    {
      DropStep(job, k);
    }
  }

  /** In every run that ends with all workers returned, j is run exactly as often as it was submitted. */
  ghost predicate AlwaysExactlyOnce(j: Job)
  {
    forall n: nat, tries: nat, states: seq<State>, labels: seq<Label> ::
      IsRun(n, tries, states, labels) && AllStopped(states[|labels|]) ==>
        InQueue(states[|labels|].ran, j) == Calls(states[|labels|].calls, j)
  }

  /** Exactly once, in all runs, is what the pool gives precisely to the jobs that hold a callable. */
  lemma ExactlyOnceIffCallable(j: Job)
    ensures AlwaysExactlyOnce(j) <==> j.callable
  {
    if j.callable {
      forall n: nat, tries: nat, states: seq<State>, labels: seq<Label>
        | IsRun(n, tries, states, labels) && AllStopped(states[|labels|])
        ensures InQueue(states[|labels|].ran, j) == Calls(states[|labels|].calls, j)
      {
        DrainsExactlyOnce(n, tries, states, labels, |labels|, j);
      }
    } else {
      var states, labels := EmptyFunctionIsDropped(j);
      assert Calls([Submitted(j)], j) == 1;
    }
  }

  // The workers' work ends

  function Queued(queues: seq<seq<Job>>): nat
  {
    if queues == [] then 0 else Queued(queues[..|queues| - 1]) + |queues[|queues| - 1]|
  }

  /** How far a worker is from returning, apart from jobs it may still take. */
  function WorkerRank(tries: nat, w: Worker): nat
  {
    match w
    case Scanning(offset) => if offset < tries then 3 + tries - offset else 3
    case Popping => 2
    case Holding(_) => 4 + tries
    case Stopped => 0
  }

  function Ranks(tries: nat, workers: seq<Worker>): nat
  {
    if workers == [] then 0 else Ranks(tries, workers[..|workers| - 1]) + WorkerRank(tries, workers[|workers| - 1])
  }

  function OpenQueues(done: seq<bool>): nat
  {
    if done == [] then 0 else OpenQueues(done[..|done| - 1]) + if done[|done| - 1] then 0 else 1
  }

  function DrainMeasure(tries: nat, s: State): nat
  {
    Queued(s.queues) * (tries + 5) + Ranks(tries, s.workers) + OpenQueues(s.done)
  }

  lemma {:induction false} QueuedUpdate(queues: seq<seq<Job>>, i: nat, q: seq<Job>)
    requires i < |queues|
    ensures Queued(queues[i := q]) + |queues[i]| == Queued(queues) + |q|
  {
    var n, u := |queues| - 1, queues[i := q];
    if i == n {
      assert u[..n] == queues[..n];
    } else {
      assert u[..n] == queues[..n][i := q];
      QueuedUpdate(queues[..n], i, q);
    }
  }

  lemma {:induction false} RanksUpdate(tries: nat, workers: seq<Worker>, i: nat, w: Worker)
    requires i < |workers|
    ensures Ranks(tries, workers[i := w]) + WorkerRank(tries, workers[i])
      == Ranks(tries, workers) + WorkerRank(tries, w)
  {
    var n, u := |workers| - 1, workers[i := w];
    if i == n {
      assert u[..n] == workers[..n];
    } else {
      assert u[..n] == workers[..n][i := w];
      RanksUpdate(tries, workers[..n], i, w);
    }
  }

  lemma {:induction false} OpenQueuesUpdate(done: seq<bool>, i: nat)
    requires i < |done| && !done[i]
    ensures OpenQueues(done[i := true]) + 1 == OpenQueues(done)
  {
    var n, u := |done| - 1, done[i := true];
    if i == n {
      assert u[..n] == done[..n];
    } else {
      assert u[..n] == done[..n][i := true];
      OpenQueuesUpdate(done[..n], i);
    }
  }

  lemma TakeUsesMeasure(tries: nat, s: State, w: nat, q: nat, scanning: bool)
    requires w < |s.workers| && q < |s.queues| && s.queues[q] != []
    requires s.workers[w].Popping? || (s.workers[w].Scanning? && s.workers[w].offset < tries)
    ensures DrainMeasure(tries, TakeFrom(s, w, q, scanning)) < DrainMeasure(tries, s)
  {
    hide Queued, Ranks, OpenQueues;
    var t := TakeFrom(s, w, q, scanning);
    QueuedUpdate(s.queues, q, s.queues[q][1..]);
    RanksUpdate(tries, s.workers, w, t.workers[w]);
    assert Queued(t.queues) * (tries + 5) + (tries + 5) == Queued(s.queues) * (tries + 5);
    assert Ranks(tries, t.workers) < Ranks(tries, s.workers) + tries + 5;
  }

  lemma WorkerUsesMeasure(tries: nat, s: State, t: State, w: nat)
    requires w < |s.workers| && |t.workers| == |s.workers| && t.workers == s.workers[w := t.workers[w]]
    requires t.queues == s.queues && t.done == s.done
    requires WorkerRank(tries, t.workers[w]) < WorkerRank(tries, s.workers[w])
    ensures DrainMeasure(tries, t) < DrainMeasure(tries, s)
  {
    RanksUpdate(tries, s.workers, w, t.workers[w]);
  }

  /** Every step of closing a queue or of a worker uses up the measure, in a living pool as in one that is
      being destroyed. */
  lemma WorkUsesMeasure(tries: nat, s: State, l: Label)
    requires Enabled(tries, s, l) && (l.MarkDone? || l.ByWorker())
    ensures DrainMeasure(tries, Apply(tries, s, l)) < DrainMeasure(tries, s)
  {
    var t := Apply(tries, s, l);
    hide DrainMeasure, Target;
    match l
    case MarkDone(q) =>
      OpenQueuesUpdate(s.done, q);
      MarkUsesMeasure(tries, s, q);
    case TryPop(w, locked) =>
      var q := Target(w, s.workers[w].offset, |s.queues|);
      if locked && s.queues[q] != [] {
        TakeUsesMeasure(tries, s, w, q, true);
      } else {
        WorkerUsesMeasure(tries, s, t, w);
      }
    case EndScan(w) => WorkerUsesMeasure(tries, s, t, w);
    case Pop(w) =>
      if s.queues[w] == [] { WorkerUsesMeasure(tries, s, t, w); } else { TakeUsesMeasure(tries, s, w, w, false); }
    case Run(w) => WorkerUsesMeasure(tries, s, t, w);
  }

  lemma MarkUsesMeasure(tries: nat, s: State, q: nat)
    requires q < |s.done| && !s.done[q]
    ensures DrainMeasure(tries, s.(done := s.done[q := true])) < DrainMeasure(tries, s)
  {
    OpenQueuesUpdate(s.done, q);
  }

  /** While no call comes in or is carried on, the workers can take at most this many steps. */
  lemma {:induction false} WorkIsBounded(n: nat, tries: nat, states: seq<State>, labels: seq<Label>, a: nat, b: nat)
    requires IsRun(n, tries, states, labels) && a <= b < |states|
    requires forall k :: a <= k < b ==> labels[k].MarkDone? || labels[k].ByWorker()
    ensures (b - a) + DrainMeasure(tries, states[b]) <= DrainMeasure(tries, states[a])
  {
    if a < b {
      hide DrainMeasure, Init, Apply;
      WorkIsBounded(n, tries, states, labels, a, b - 1);
      WorkUsesMeasure(tries, states[b - 1], labels[b - 1]);
    }
  }

  // Destruction ends

  lemma SubmitterIsOpen(tries: nat, s: State, l: Label)
    requires Enabled(tries, s, l) && l.BySubmitter()
    ensures !s.closing || exists c :: c in s.calls && !c.Submitted?
  {
    if !l.Submit? {
      assert s.calls[l.call] in s.calls;
    }
  }

  /** A submitter's step needs an open call, and once destruction has started there are none. */
  lemma OnlyWorkWhenClosing(tries: nat, s: State, l: Label)
    requires Closed(s) && s.closing && Enabled(tries, s, l)
    ensures l.MarkDone? || l.ByWorker()
  {
    if l.BySubmitter() {
      SubmitterIsOpen(tries, s, l);
      assert false;
    }
  }

  lemma {:induction false} ClosingStays(n: nat, tries: nat, states: seq<State>, labels: seq<Label>, a: nat, b: nat)
    requires IsRun(n, tries, states, labels) && a <= b < |states| && states[a].closing
    ensures states[b].closing
  {
    if a < b { ClosingStays(n, tries, states, labels, a, b - 1); }
  }

  /** Destruction takes at most this many steps, whatever was queued, stolen or missed. */
  lemma DestructionEnds(n: nat, tries: nat, states: seq<State>, labels: seq<Label>, a: nat, b: nat)
    requires IsRun(n, tries, states, labels) && a <= b < |states| && states[a].closing
    ensures states[b].closing && (b - a) + DrainMeasure(tries, states[b]) <= DrainMeasure(tries, states[a])
  {
    hide DrainMeasure, ConservedFor, Closed, Init, Enabled, Apply;
    ClosingStays(n, tries, states, labels, a, b);
    forall k | a <= k < b ensures labels[k].MarkDone? || labels[k].ByWorker() {
      ClosingStays(n, tries, states, labels, a, k);
      RunInv(n, tries, states, labels, k, Job(0, true));
      OnlyWorkWhenClosing(tries, states[k], labels[k]);
    }
    WorkIsBounded(n, tries, states, labels, a, b);
  }

  /** And it never gets stuck: until every worker has returned, some queue can be closed or some worker can move. */
  lemma DestructionProgresses(n: nat, tries: nat, states: seq<State>, labels: seq<Label>, k: nat) returns (l: Label)
    requires IsRun(n, tries, states, labels) && k < |states| && states[k].closing
    requires exists w :: 0 <= w < |states[k].workers| && !states[k].workers[w].Stopped?
    ensures Enabled(tries, states[k], l) && !l.BySubmitter()
  {
    var s := states[k];
    RunInv(n, tries, states, labels, k, Job(0, true));
    var w :| 0 <= w < |s.workers| && !s.workers[w].Stopped?;
    l := match s.workers[w]
         case Scanning(offset) => if offset < tries then TryPop(w, true) else EndScan(w)
         case Popping => if s.done[w] then Pop(w) else MarkDone(w)
         case Holding(_) => Run(w)
         case Stopped => Close;
  }
}

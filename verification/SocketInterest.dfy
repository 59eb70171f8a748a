/** Recorded socket interest against outstanding asynchronous operations, with libcurl calling back
    while an event is being reported to it. */
module SocketInterest {

  const POLL_NONE := 0
  const POLL_IN := 1
  const POLL_OUT := 2
  const POLL_INOUT := 3
  const CSELECT_ERR := 4

  datatype Direction = Read | Write

  function Code(d: Direction): int { if d.Read? then POLL_IN else POLL_OUT }

  predicate Includes(action: int, d: Direction) { action == Code(d) || action == POLL_INOUT }

  /** The codes of libcurl: 1 is reading, 2 writing, 3 both. */
  predicate Wants(action: int, d: Direction)
  {
    if d.Read? then action == 1 || action == 3 else action == 2 || action == 3
  }

  lemma IncludesIsWants(action: int, d: Direction)
    ensures Includes(action, d) <==> Wants(action, d)
  {
  }

  /** An open socket: which opening of its descriptor it is, and the interest recorded for it. */
  datatype Socket = Socket(opening: nat, interest: int)

  /** An asynchronous wait: handlers know only the descriptor, the opening says whose it was. */
  datatype Op = Op(fd: int, opening: nat, dir: Direction)

  /** failed holds the directions in which a socket's own wait ended in an error while wanted, since the
      interest last began to include that direction. */
  datatype State = State(
    sockets: map<int, Socket>,
    outstanding: multiset<Op>,
    openings: nat,
    failed: set<(nat, Direction)>)

  /** What libcurl may do to the table while it is called: report interest, open or close a socket. */
  datatype Callback = SetInterest(fd: int, action: int) | OpenFd(fd: int) | CloseFd(fd: int)

  function Added(s: State, fd: int, d: Direction): State
    requires fd in s.sockets
  {
    s.(outstanding := s.outstanding + multiset{Op(fd, s.sockets[fd].opening, d)})
  }

  /** A wait is added when the interest begins to include a direction; a past failure is then over. */
  function Begun(s: State, fd: int, d: Direction, action: int): State
    requires fd in s.sockets
  {
    if Includes(action, d) && !Includes(s.sockets[fd].interest, d)
    then Added(s, fd, d).(failed := s.failed - {(s.sockets[fd].opening, d)})
    else s
  }

  function AddSocketActionsSpec(s: State, fd: int, action: int): State
  {
    if fd !in s.sockets then s
    else
      var t := Begun(Begun(s, fd, Read, action), fd, Write, action);
      t.(sockets := t.sockets[fd := t.sockets[fd].(interest := action)])
  }

  /** The operating system hands out no descriptor that is open, and libcurl closes only open sockets. */
  predicate Allowed(s: State, c: Callback)
  {
    match c
    case SetInterest(_, _) => true
    case OpenFd(fd) => fd !in s.sockets
    case CloseFd(fd) => fd in s.sockets
  }

  function ApplyCallback(s: State, c: Callback): State
    requires Allowed(s, c)
  {
    match c
    case SetInterest(fd, action) => AddSocketActionsSpec(s, fd, action)
    case OpenFd(fd) => s.(sockets := s.sockets[fd := Socket(s.openings, POLL_NONE)], openings := s.openings + 1)
    case CloseFd(fd) => s.(sockets := s.sockets - {fd})
  }

  predicate AllowedAll(s: State, script: seq<Callback>)
    decreases |script|
  {
    script == [] || (Allowed(s, script[0]) && AllowedAll(ApplyCallback(s, script[0]), script[1..]))
  }

  function RunScript(s: State, script: seq<Callback>): State
    requires AllowedAll(s, script)
    decreases |script|
  {
    if script == [] then s else RunScript(ApplyCallback(s, script[0]), script[1..])
  }

  /** The event is passed to libcurl only if it is still wanted. */
  predicate Wanted(s: State, op: Op)
  {
    op.fd in s.sockets && Includes(s.sockets[op.fd].interest, op.dir)
  }

  /** The table as libcurl finds it when the completion of op is reported. */
  function Reported(s: State, op: Op, error: bool): State
  {
    var t := s.(outstanding := s.outstanding - multiset{op});
    if error && Wanted(s, op) && s.sockets[op.fd].opening == op.opening
    then t.(failed := t.failed + {(op.opening, op.dir)}) else t
  }

  /** One handler invocation: the completion of op, with what libcurl does meanwhile. */
  function Handled(s: State, op: Op, error: bool, script: seq<Callback>): State
    requires Wanted(s, op) ==> AllowedAll(Reported(s, op, error), script)
  {
    var r := Reported(s, op, error);
    if !Wanted(s, op) then r
    else
      var t := RunScript(r, script);
      if !error && Wanted(t, op) then Added(t, op.fd, op.dir) else t
  }

  class SocketTable {
    var sockets: map<int, Socket>
    var outstanding: multiset<Op>
    var openings: nat
    ghost var failed: set<(nat, Direction)>

    ghost function View(): State
      reads this
    {
      State(sockets, outstanding, openings, failed)
    }

    constructor ()
      ensures View() == State(map[], multiset{}, 0, {})
    {
      sockets, outstanding, openings, failed := map[], multiset{}, 0, {};
    }

    method OpenSocket(fd: int)
      requires fd !in sockets
      modifies this
      ensures View() == ApplyCallback(old(View()), OpenFd(fd))
      ensures fd in sockets && sockets[fd] == Socket(old(openings), 0) && old(openings) < openings
      ensures sockets.Keys == old(sockets).Keys + {fd}
      ensures forall gd :: gd in old(sockets) ==> sockets[gd] == old(sockets)[gd]
      ensures outstanding == old(outstanding) && failed == old(failed)
    {
      sockets := sockets[fd := Socket(openings, POLL_NONE)];
      openings := openings + 1;
    }

    method CloseSocket(fd: int)
      requires fd in sockets
      modifies this
      ensures View() == ApplyCallback(old(View()), CloseFd(fd))
      ensures sockets.Keys == old(sockets).Keys - {fd}
      ensures forall gd :: gd in sockets ==> sockets[gd] == old(sockets)[gd]
      ensures outstanding == old(outstanding) && failed == old(failed)
    {
      sockets := sockets - {fd};
    }

    method AddRead(fd: int)
      requires fd in sockets
      modifies this
      ensures View() == Added(old(View()), fd, Read)
    {
      outstanding := outstanding + multiset{Op(fd, sockets[fd].opening, Read)};
    }

    method AddWrite(fd: int)
      requires fd in sockets
      modifies this
      ensures View() == Added(old(View()), fd, Write)
    {
      outstanding := outstanding + multiset{Op(fd, sockets[fd].opening, Write)};
    }

    method AddSocketActions(fd: int, curAction: int)
      modifies this
      ensures View() == AddSocketActionsSpec(old(View()), fd, curAction)
      ensures fd !in old(sockets) ==> View() == old(View())
      ensures fd in old(sockets) ==> sockets == old(sockets)[fd := Socket(old(sockets)[fd].opening, curAction)]
      ensures forall op ::
        outstanding[op] == old(outstanding)[op] + if Begins(old(sockets), fd, curAction, op) then 1 else 0
    {
      forall op { InterestBegins(View(), fd, curAction, op); }
      if fd !in sockets {
        return;
      }
      hide Begun;
      BeginReading(fd, curAction);
      BeginWriting(fd, curAction);
      sockets := sockets[fd := sockets[fd].(interest := curAction)];
    }

    /** addRead, when the interest begins to include reading. */
    method BeginReading(fd: int, curAction: int)
      requires fd in sockets
      modifies this
      ensures sockets == old(sockets) && View() == Begun(old(View()), fd, Read, curAction)
    {
      var prev := sockets[fd].interest;
      if (curAction == POLL_IN || curAction == POLL_INOUT) && !(prev == POLL_IN || prev == POLL_INOUT) {
        AddRead(fd);
        failed := failed - {(sockets[fd].opening, Read)};
      }
    }

    /** addWrite, when the interest begins to include writing. */
    method BeginWriting(fd: int, curAction: int)
      requires fd in sockets
      modifies this
      ensures sockets == old(sockets) && View() == Begun(old(View()), fd, Write, curAction)
    {
      var prev := sockets[fd].interest;
      if (curAction == POLL_OUT || curAction == POLL_INOUT) && !(prev == POLL_OUT || prev == POLL_INOUT) {
        AddWrite(fd);
        failed := failed - {(sockets[fd].opening, Write)};
      }
    }

    /** curl_multi_socket_action and the clean-up of finished transfers: any admissible callbacks. */
    method CurlSocketAction(script: seq<Callback>)
      requires AllowedAll(View(), script)
      modifies this
      ensures View() == RunScript(old(View()), script)
    {
      var k := 0;
      while k < |script|
        invariant 0 <= k <= |script|
        invariant AllowedAll(View(), script[k..])
        invariant RunScript(View(), script[k..]) == RunScript(old(View()), script)
      {
        assert script[k..][1..] == script[k + 1..];
        match script[k] {
          case SetInterest(fd, action) => AddSocketActions(fd, action);
          case OpenFd(fd) => OpenSocket(fd);
          case CloseFd(fd) => CloseSocket(fd);
        }
        k := k + 1;
      }
    }

    /** doSocketAction, entered because the outstanding wait op completed. */
    method DoSocketAction(op: Op, error: bool, script: seq<Callback>)
      requires op in outstanding
      requires Wanted(View(), op) ==> AllowedAll(Reported(View(), op, error), script)
      modifies this
      ensures View() == Handled(old(View()), op, error, script)
    {
      hide AllowedAll, RunScript, Added;
      outstanding := outstanding - multiset{op};
      var action := Code(op.dir);
      if op.fd !in sockets {
        return;
      }
      if sockets[op.fd].interest == action || sockets[op.fd].interest == POLL_INOUT {
        if error {
          action := CSELECT_ERR;
          Failed(op);
        }
        assert View() == Reported(old(View()), op, error);
        hide Reported;
        CurlSocketAction(script);
        KeepWatching(op, action);
      }
    }

    /** Records that a socket's own wait has failed. */
    ghost method Failed(op: Op)
      requires op.fd in sockets
      modifies this`failed
      ensures failed == if sockets[op.fd].opening == op.opening then old(failed) + {(op.opening, op.dir)}
        else old(failed)
    {
      if sockets[op.fd].opening == op.opening {
        failed := failed + {(op.opening, op.dir)};
      }
    }

    /** Keep on watching, unless the socket was closed or its interest changed meanwhile. */
    method KeepWatching(op: Op, action: int)
      requires action == Code(op.dir) || action == CSELECT_ERR
      modifies this
      ensures View() == if action == Code(op.dir) && Wanted(old(View()), op)
                        then Added(old(View()), op.fd, op.dir) else old(View())
    {
      if op.fd in sockets && (sockets[op.fd].interest == action || sockets[op.fd].interest == POLL_INOUT) {
        if action == POLL_IN {
          AddRead(op.fd);
        } else if action == POLL_OUT {
          AddWrite(op.fd);
        }
      }
    }
  }

  /** A wait that reported interest begins: the socket's own, for a direction not included so far. */
  predicate Begins(sockets: map<int, Socket>, fd: int, action: int, op: Op)
  {
    && fd in sockets && op.fd == fd && op.opening == sockets[fd].opening
    && Wants(action, op.dir) && !Wants(sockets[fd].interest, op.dir)
  }

  /** Reported interest adds one wait for each direction that it begins to include, and no other wait. */
  lemma InterestBegins(s: State, fd: int, action: int, op: Op)
    ensures AddSocketActionsSpec(s, fd, action).outstanding[op]
         == s.outstanding[op] + if Begins(s.sockets, fd, action, op) then 1 else 0
  {
    if fd in s.sockets {
      var mid := Begun(s, fd, Read, action);
      assert mid.sockets == s.sockets;
    }
  }

  // No lost wake-up

  /** A wanted direction has an outstanding wait of the socket's own, unless its own wait has failed. */
  predicate ArmedAt(s: State, fd: int, d: Direction)
    requires fd in s.sockets
  {
    Includes(s.sockets[fd].interest, d) && (s.sockets[fd].opening, d) !in s.failed ==>
      Op(fd, s.sockets[fd].opening, d) in s.outstanding
  }

  /** An opening names one socket: no two descriptors share one, and later ones are new. */
  ghost predicate Distinct(s: State)
  {
    && (forall fd :: fd in s.sockets ==> s.sockets[fd].opening < s.openings)
    && (forall f :: f in s.failed ==> f.0 < s.openings)
    && (forall fd, gd :: fd in s.sockets && gd in s.sockets && s.sockets[fd].opening == s.sockets[gd].opening ==>
      fd == gd)
  }

  /** The opening, if its socket is still open at all, is at descriptor fd. */
  ghost predicate OnlyAt(s: State, opening: int, fd: int)
  {
    && opening < s.openings
    && forall gd :: gd in s.sockets && s.sockets[gd].opening == opening ==> gd == fd
  }

  /** Outstanding waits were made on the descriptor their opening has or had. */
  ghost predicate WaitsKnown(s: State)
  {
    forall op :: op in s.outstanding ==> OnlyAt(s, op.opening, op.fd)
  }

  /** Every direction of every socket is armed, except perhaps d of the socket with that opening. */
  ghost predicate ArmedExcept(s: State, opening: int, d: Direction)
  {
    forall fd, e :: fd in s.sockets && (s.sockets[fd].opening != opening || e != d) ==> ArmedAt(s, fd, e)
  }

  ghost predicate Armed(s: State)
  {
    forall fd, e :: fd in s.sockets ==> ArmedAt(s, fd, e)
  }

  /** Reporting interest: waits only join, failures are only forgiven where a wait has just joined. */
  lemma InterestKeepsArmed(s: State, fd: int, action: int, e: Direction)
    requires fd in s.sockets
    ensures var t := AddSocketActionsSpec(s, fd, action);
      && t.sockets == s.sockets[fd := s.sockets[fd].(interest := action)] && t.openings == s.openings
      && s.outstanding <= t.outstanding
      && (forall f :: f in t.failed ==> f in s.failed)
      && (forall f :: f in s.failed && f.0 != s.sockets[fd].opening ==> f in t.failed)
      && (ArmedAt(s, fd, e) ==> ArmedAt(t, fd, e))
  {
    var mid := Begun(s, fd, Read, action);
    assert mid.sockets == s.sockets && mid.openings == s.openings;
  }

  lemma InterestKeepsDistinct(s: State, fd: int, action: int)
    requires Distinct(s) && fd in s.sockets
    ensures Distinct(AddSocketActionsSpec(s, fd, action))
  {
    InterestKeepsArmed(s, fd, action, Read);
    hide AddSocketActionsSpec;
  }

  lemma SetInterestKeeps(s: State, fd: int, action: int, opening: int, d: Direction)
    requires Distinct(s) && ArmedExcept(s, opening, d) && fd in s.sockets
    ensures Distinct(AddSocketActionsSpec(s, fd, action))
    ensures ArmedExcept(AddSocketActionsSpec(s, fd, action), opening, d)
  {
    var t := AddSocketActionsSpec(s, fd, action);
    InterestKeepsDistinct(s, fd, action);
    forall gd, e | gd in t.sockets && (t.sockets[gd].opening != opening || e != d) ensures ArmedAt(t, gd, e) {
      hide AddSocketActionsSpec, ArmedAt;
      InterestKeepsArmed(s, fd, action, e);
      assert ArmedAt(s, gd, e);
      if gd != fd { OtherStaysArmed(s, t, fd, gd, e); }
    }
  }

  /** Another socket's waits and failures are untouched. */
  lemma OtherStaysArmed(s: State, t: State, fd: int, gd: int, e: Direction)
    requires gd in s.sockets && gd in t.sockets && t.sockets[gd] == s.sockets[gd] && ArmedAt(s, gd, e)
    requires fd in s.sockets && s.sockets[fd].opening != s.sockets[gd].opening && s.outstanding <= t.outstanding
    requires forall f :: f in s.failed && f.0 != s.sockets[fd].opening ==> f in t.failed
    ensures ArmedAt(t, gd, e)
  {
  }

  lemma CallbackKeeps(s: State, c: Callback, opening: int, d: Direction)
    requires Distinct(s) && ArmedExcept(s, opening, d) && Allowed(s, c)
    ensures Distinct(ApplyCallback(s, c)) && ArmedExcept(ApplyCallback(s, c), opening, d)
    ensures s.openings <= ApplyCallback(s, c).openings
  {
    if c.SetInterest? && c.fd in s.sockets {
      SetInterestKeeps(s, c.fd, c.action, opening, d);
    } else {
      var t := ApplyCallback(s, c);
      forall fd, e | fd in t.sockets && (t.sockets[fd].opening != opening || e != d) ensures ArmedAt(t, fd, e) {
        assert fd in s.sockets && s.sockets[fd] == t.sockets[fd] ==> ArmedAt(s, fd, e);
      }
    }
  }

  lemma CallbackKeepsWaits(s: State, c: Callback)
    requires Distinct(s) && WaitsKnown(s) && Allowed(s, c)
    ensures WaitsKnown(ApplyCallback(s, c))
    ensures forall opening, fd :: OnlyAt(s, opening, fd) ==> OnlyAt(ApplyCallback(s, c), opening, fd)
  {
    var t := ApplyCallback(s, c);
    if c.SetInterest? && c.fd in s.sockets {
      InterestKeepsArmed(s, c.fd, c.action, Read);
      InterestAddsOwn(s, c.fd, c.action);
      hide AddSocketActionsSpec;
    }
    assert forall opening, fd :: OnlyAt(s, opening, fd) ==> OnlyAt(t, opening, fd);
    hide Distinct, AddSocketActionsSpec;
    forall op | op in t.outstanding ensures OnlyAt(t, op.opening, op.fd) {
      assert op in s.outstanding ==> OnlyAt(s, op.opening, op.fd);
    }
  }

  /** Reporting interest adds only the socket's own waits. */
  lemma InterestAddsOwn(s: State, fd: int, action: int)
    requires fd in s.sockets
    ensures forall op :: op in AddSocketActionsSpec(s, fd, action).outstanding ==>
      op in s.outstanding || (op.fd == fd && op.opening == s.sockets[fd].opening)
  {
    var mid := Begun(s, fd, Read, action);
    assert mid.sockets == s.sockets;
  }

  lemma {:induction false} ScriptKeeps(s: State, script: seq<Callback>, opening: int, d: Direction)
    requires Distinct(s) && WaitsKnown(s) && ArmedExcept(s, opening, d) && AllowedAll(s, script)
    ensures Distinct(RunScript(s, script)) && WaitsKnown(RunScript(s, script))
    ensures ArmedExcept(RunScript(s, script), opening, d)
    ensures forall o, fd :: OnlyAt(s, o, fd) ==> OnlyAt(RunScript(s, script), o, fd)
    decreases |script|
  {
    if script != [] {
      hide Distinct, WaitsKnown, ArmedExcept, OnlyAt;
      CallbackKeeps(s, script[0], opening, d);
      CallbackKeepsWaits(s, script[0]);
      ScriptKeeps(ApplyCallback(s, script[0]), script[1..], opening, d);
    }
  }

  lemma ReportedKeeps(s: State, op: Op, error: bool)
    requires Distinct(s) && WaitsKnown(s) && Armed(s) && op in s.outstanding
    ensures var r := Reported(s, op, error);
      && Distinct(r) && WaitsKnown(r) && OnlyAt(r, op.opening, op.fd)
      && ArmedExcept(r, op.opening, op.dir)
      && (error || !Wanted(s, op) || s.sockets[op.fd].opening != op.opening ==> Armed(r))
  {
    var r := Reported(s, op, error);
    assert OnlyAt(s, op.opening, op.fd);
    forall o | o in r.outstanding ensures OnlyAt(r, o.opening, o.fd) {
      assert OnlyAt(s, o.opening, o.fd);
    }
    forall fd, e | fd in r.sockets && (r.sockets[fd].opening != op.opening || e != op.dir) ensures ArmedAt(r, fd, e) {
      assert ArmedAt(s, fd, e);
    }
    if error || !Wanted(s, op) || s.sockets[op.fd].opening != op.opening {
      forall fd, e | fd in r.sockets ensures ArmedAt(r, fd, e) {
        assert ArmedAt(s, fd, e);
      }
    }
  }

  /** The table between handler invocations. */
  ghost predicate Good(s: State) { Distinct(s) && WaitsKnown(s) && Armed(s) }

  lemma AddedKeeps(t: State, op: Op)
    requires Distinct(t) && WaitsKnown(t) && ArmedExcept(t, op.opening, op.dir) && OnlyAt(t, op.opening, op.fd)
    requires op.fd in t.sockets
    ensures Good(Added(t, op.fd, op.dir))
  {
    var u := Added(t, op.fd, op.dir);
    forall fd, e | fd in u.sockets ensures ArmedAt(u, fd, e) {
      assert t.sockets[fd].opening != op.opening || e != op.dir ==> ArmedAt(t, fd, e);
    }
    forall o | o in u.outstanding ensures OnlyAt(u, o.opening, o.fd) {
      assert o in t.outstanding ==> OnlyAt(t, o.opening, o.fd);
    }
  }

  /** A completion, whatever it carries and whatever libcurl does meanwhile, leaves every socket armed. */
  lemma HandlerKeepsArmed(s: State, op: Op, error: bool, script: seq<Callback>)
    requires Good(s) && op in s.outstanding
    requires Wanted(s, op) ==> AllowedAll(Reported(s, op, error), script)
    ensures Good(Handled(s, op, error, script))
  {
    var r := Reported(s, op, error);
    ReportedKeeps(s, op, error);
    if Wanted(s, op) {
      var t := RunScript(r, script);
      if error || s.sockets[op.fd].opening != op.opening {
        ScriptKeeps(r, script, -1, Read);
        assert Good(t);
        if !error && Wanted(t, op) { AddedKeeps(t, op); }
      } else {
        ScriptKeeps(r, script, op.opening, op.dir);
        if Wanted(t, op) { AddedKeeps(t, op); }
      }
    }
  }

  /** Handler invocations: a completion, or a timer or new download that calls libcurl without one. */
  datatype Event = Completed(op: Op, error: bool, script: seq<Callback>) | Other(script: seq<Callback>)

  predicate Possible(s: State, e: Event)
  {
    match e
    case Completed(op, error, script) =>
      op in s.outstanding && (Wanted(s, op) ==> AllowedAll(Reported(s, op, error), script))
    case Other(script) => AllowedAll(s, script)
  }

  function After(s: State, e: Event): State
    requires Possible(s, e)
  {
    match e
    case Completed(op, error, script) => Handled(s, op, error, script)
    case Other(script) => RunScript(s, script)
  }

  ghost predicate IsRun(states: seq<State>, events: seq<Event>)
  {
    && |states| == |events| + 1 && states[0] == State(map[], multiset{}, 0, {})
    && forall k :: 0 <= k < |events| ==> Possible(states[k], events[k]) && states[k + 1] == After(states[k], events[k])
  }

  /** No lost wake-up: between handler invocations every socket whose interest includes a direction has
      an outstanding wait of its own for it, through interest changes, closes, re-opened descriptors and
      stale completions, unless one of its own wanted waits ended in an error. */
  lemma {:induction false} NoLostWakeUp(states: seq<State>, events: seq<Event>, k: nat)
    requires IsRun(states, events) && k < |states|
    ensures Good(states[k])
    ensures forall fd, d: Direction :: fd in states[k].sockets && Wants(states[k].sockets[fd].interest, d) ==>
              || Op(fd, states[k].sockets[fd].opening, d) in states[k].outstanding
              || (states[k].sockets[fd].opening, d) in states[k].failed
  {
    if k > 0 {
      NoLostWakeUp(states, events, k - 1);
      match events[k - 1]
      case Completed(op, error, script) => HandlerKeepsArmed(states[k - 1], op, error, script);
      case Other(script) => ScriptKeeps(states[k - 1], script, -1, Read);
    }
    forall fd, d: Direction | fd in states[k].sockets && Wants(states[k].sockets[fd].interest, d)
      ensures Op(fd, states[k].sockets[fd].opening, d) in states[k].outstanding
              || (states[k].sockets[fd].opening, d) in states[k].failed
    {
      assert ArmedAt(states[k], fd, d);
    }
  }

  lemma {:induction false} ScriptNeverFails(s: State, script: seq<Callback>)
    requires AllowedAll(s, script)
    ensures RunScript(s, script).failed <= s.failed
    decreases |script|
  {
    if script != [] {
      ScriptNeverFails(ApplyCallback(s, script[0]), script[1..]);
    }
  }

  /** The exception is narrow: a direction becomes failed only in the handler of an errored completion
      of that very socket's own wait, at a time when its interest includes the direction. */
  lemma FailsOnlyByOwnError(s: State, e: Event, f: (nat, Direction))
    requires Possible(s, e) && f in After(s, e).failed && f !in s.failed
    ensures e.Completed? && e.error && f == (e.op.opening, e.op.dir)
    ensures Wanted(s, e.op) && s.sockets[e.op.fd].opening == e.op.opening
  {
    if e.Other? {
      ScriptNeverFails(s, e.script);
    } else if Wanted(s, e.op) {
      ScriptNeverFails(Reported(s, e.op, e.error), e.script);
    }
  }

  /** An opening is new: no socket and no outstanding wait has it. */
  lemma OpeningIsNew(states: seq<State>, events: seq<Event>, k: nat, fd: int)
    requires IsRun(states, events) && k < |states| && fd !in states[k].sockets
    ensures var s, t := states[k], ApplyCallback(states[k], OpenFd(fd));
      && fd in t.sockets && (forall gd :: gd in s.sockets ==> s.sockets[gd].opening != t.sockets[fd].opening)
      && (forall op :: op in t.outstanding ==> op.opening != t.sockets[fd].opening)
  {
    NoLostWakeUp(states, events, k);
    hide IsRun;
    forall op | op in states[k].outstanding ensures op.opening != states[k].openings {
      assert OnlyAt(states[k], op.opening, op.fd);
    }
  }

  /** libcurl's callbacks take effect one after the other, the last one on what those before it have left. */
  lemma {:induction false} ScriptLast(s: State, script: seq<Callback>, c: Callback)
    requires AllowedAll(s, script) && Allowed(RunScript(s, script), c)
    ensures AllowedAll(s, script + [c]) && RunScript(s, script + [c]) == ApplyCallback(RunScript(s, script), c)
    decreases |script|
  {
    if script == [] {
      assert script + [c] == [c];
    } else {
      assert (script + [c])[1..] == script[1..] + [c] && (script + [c])[0] == script[0];
      ScriptLast(ApplyCallback(s, script[0]), script[1..], c);
    }
  }

  /** A completion that is not wanted ends its wait and does nothing else. */
  lemma UnwantedIsDropped(s: State, op: Op, error: bool, script: seq<Callback>)
    requires !(op.fd in s.sockets && Wants(s.sockets[op.fd].interest, op.dir))
    ensures Handled(s, op, error, script) == s.(outstanding := s.outstanding - multiset{op})
  {
  }

  /** After a wanted one the sockets are as libcurl's callbacks have left them. */
  lemma CallbacksTakeEffect(s: State, op: Op, error: bool, script: seq<Callback>)
    requires op.fd in s.sockets && Wants(s.sockets[op.fd].interest, op.dir)
    requires AllowedAll(Reported(s, op, error), script)
    ensures Handled(s, op, error, script).sockets == RunScript(Reported(s, op, error), script).sockets
    ensures Reported(s, op, error).sockets == s.sockets
  {
  }

  predicate LeavesAlone(script: seq<Callback>, fd: int)
  {
    forall c :: c in script ==> c.fd != fd
  }

  lemma {:induction false} ScriptLeavesAlone(s: State, script: seq<Callback>, op: Op)
    requires AllowedAll(s, script) && LeavesAlone(script, op.fd) && op.fd in s.sockets
    ensures op.fd in RunScript(s, script).sockets && RunScript(s, script).sockets[op.fd] == s.sockets[op.fd]
    ensures RunScript(s, script).outstanding[op] == s.outstanding[op]
    decreases |script|
  {
    if script != [] {
      assert script[0] in script;
      assert forall c :: c in script[1..] ==> c in script;
      var t := ApplyCallback(s, script[0]);
      assert t.outstanding[op] == s.outstanding[op];
      ScriptLeavesAlone(t, script[1..], op);
    }
  }

  /** Why the exception is there: a wanted wait of the socket's own completes while libcurl leaves the
      socket alone. The direction is then still waited for exactly when the completion carried no error
      or another wait for it was outstanding. */
  lemma StillWaitingIff(s: State, op: Op, error: bool, script: seq<Callback>)
    requires op in s.outstanding && op.fd in s.sockets && Wants(s.sockets[op.fd].interest, op.dir)
    requires s.sockets[op.fd].opening == op.opening
    requires AllowedAll(Reported(s, op, error), script) && LeavesAlone(script, op.fd)
    ensures var t := Handled(s, op, error, script);
      && op.fd in t.sockets && t.sockets[op.fd] == s.sockets[op.fd]
      && t.outstanding[op] == s.outstanding[op] - (if error then 1 else 0)
      && (op in t.outstanding <==> !error || s.outstanding[op] > 1)
  {
    ScriptLeavesAlone(Reported(s, op, error), script, op);
  }
}

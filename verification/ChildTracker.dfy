/**
 The main loop's table of child processes: timeouts that kill, and the dispatch of deaths.

 The state holds the main loop's own data and the part of the kernel it depends on: which
 children run, which have died and are not reaped yet, and whether SIGCHLD is pending.
 */
module ChildTracker {
  import opened Common

  datatype Exit = Exited(code: nat) | Signaled(signo: nat)

  /** A tracked process. `uid` tells apart children that got the same pid one after the other. */
  datatype Child = Child(uid: nat, pid: int, timer: nat, timedOut: bool, data: nat)

  datatype Event = Killed(uid: nat, pid: int) | Called(uid: nat, exit: Exit, timedOut: bool)

  datatype State = State(
    table: map<int, Child>,
    timers: map<nat, int>,
    nextTimer: nat,
    nextUid: nat,
    running: set<int>,
    dead: map<int, Exit>,
    trigger: bool,
    log: seq<Event>)

  const INIT := State(map[], map[], 1, 0, {}, map[], false, [])

  predicate Unreaped(s: State, pid: int) {
    pid in s.running || pid in s.dead
  }

  function Abs(n: int): (r: nat) {
    if n < 0 then -n else n
  }

  // ----- The steps -----

  /** A process `|pid|` was forked and is tracked; a negative number asks for its process group. */
  function AddChild(s: State, pid: int, timeout: nat, data: nat): (r: State) {
    var timer := if timeout == 0 then 0 else s.nextTimer;
    s.(table := s.table[Abs(pid) := Child(s.nextUid, pid, timer, false, data)],
       timers := if timeout == 0 then s.timers else s.timers[timer := pid],
       nextTimer := if timeout == 0 then s.nextTimer else s.nextTimer + 1,
       nextUid := s.nextUid + 1,
       running := s.running + {Abs(pid)})
  }

  function KernelExit(s: State, pid: int, exit: Exit): (r: State) {
    s.(running := s.running - {pid}, dead := s.dead[pid := exit], trigger := true)
  }

  /** A timer runs out: the first time its child is killed, the second time given up on. */
  function TimerFires(s: State, timer: nat): (r: State)
    requires timer in s.timers
  {
    var pid := s.timers[timer];
    var s1 := s.(timers := s.timers - {timer});
    if pid !in s.table then s1
    else
      var p := s.table[pid].(timer := 0);
      if p.timedOut then s1.(table := s.table[pid := p])
      else
        var q := p.(timedOut := true);
        var s2 := s1.(log := s.log + [Killed(q.uid, q.pid)]);
        if !Unreaped(s, Abs(q.pid)) then s2.(table := s.table[pid := q])
        else
          s2.(table := s.table[pid := q.(timer := s.nextTimer)],
              timers := s1.timers[s.nextTimer := pid],
              nextTimer := s.nextTimer + 1)
  }

  /** What happens to a tracked child that was reaped. */
  function Finish(s: State, pid: int, exit: Exit): (r: State)
    requires pid in s.table
  {
    var p := s.table[pid];
    s.(timers := s.timers - {p.timer},
       table := s.table - {pid},
       log := s.log + [Called(p.uid, exit, p.timedOut)])
  }

  /** The pids one dispatch gets from the kernel: it stops at a tracked one, or when none is left. */
  ghost predicate WaitOrder(s: State, order: seq<int>) {
    && (forall i :: 0 <= i < |order| ==> order[i] in s.dead)
    && (forall i, j :: 0 <= i < j < |order| ==> order[i] != order[j])
    && (forall i :: 0 <= i < |order| - 1 ==> order[i] !in s.table)
    && ((order != [] && order[|order| - 1] in s.table) || (forall pid :: pid in s.dead ==> pid in order))
  }

  function Reaped(s: State, pids: seq<int>): (r: State) {
    s.(dead := s.dead - (set p | p in pids), trigger := false)
  }

  /** All pids of the order are reaped; the callback runs for the last one if it is tracked. */
  function Dispatch(s: State, order: seq<int>): (r: (State, Option<(Child, Exit)>))
    requires WaitOrder(s, order)
  {
    if order == [] || order[|order| - 1] !in s.table then (Reaped(s, order), None)
    else
      var pid := order[|order| - 1];
      (Finish(Reaped(s, order), pid, s.dead[pid]), Some((s.table[pid], s.dead[pid])))
  }

  // ----- The main loop as it runs -----

  class Mainloop {
    var table: map<int, Child>
    var timers: map<nat, int>
    var nextTimer: nat
    var nextUid: nat
    var running: set<int>
    var dead: map<int, Exit>
    var trigger: bool
    var log: seq<Event>

    ghost function View(): (s: State)
      reads this
    {
      State(table, timers, nextTimer, nextUid, running, dead, trigger, log)
    }

    constructor ()
      ensures View() == INIT
    {
      table, timers, nextTimer, nextUid := map[], map[], 1, 0;
      running, dead, trigger, log := {}, map[], false, [];
    }

    method Add(pid: int, timeout: nat, data: nat)
      modifies this
      ensures View() == AddChild(old(View()), pid, timeout, data)
    {
      var p := Child(nextUid, pid, 0, false, data);
      nextUid := nextUid + 1;
      running := running + {Abs(pid)};
      if timeout != 0 {
        p := p.(timer := nextTimer);
        timers := timers[nextTimer := pid];
        nextTimer := nextTimer + 1;
      }
      table := table[Abs(pid) := p];
    }

    method TimeoutCallback(timer: nat)
      requires timer in timers
      modifies this
      ensures View() == TimerFires(old(View()), timer)
    {
      var pid := timers[timer];
      timers := timers - {timer};
      if pid !in table {
        return;
      }
      var p := table[pid];
      table := table[pid := p.(timer := 0)];
      if p.timedOut {
        return;
      }
      table := table[pid := table[pid].(timedOut := true)];
      log := log + [Killed(p.uid, p.pid)];
      if Abs(p.pid) !in running && Abs(p.pid) !in dead {
        return;
      }
      timers := timers[nextTimer := pid];
      table := table[pid := table[pid].(timer := nextTimer)];
      nextTimer := nextTimer + 1;
    }

    method RunCallback(pid: int, exit: Exit) returns (p: Child)
      requires pid in table
      modifies this
      ensures View() == Finish(old(View()), pid, exit)
      ensures p == old(table[pid])
    {
      p := table[pid];
      timers := timers - {p.timer};
      log := log + [Called(p.uid, exit, p.timedOut)];
      table := table - {pid};
    }

    /** The kernel hands over some dead child. */
    method Wait() returns (pid: int, exit: Exit)
      requires exists p :: p in dead
      modifies this`dead
      ensures pid in old(dead) && exit == old(dead)[pid]
      ensures dead == old(dead) - {pid}
    {
      pid :| pid in dead;
      exit := dead[pid];
      dead := dead - {pid};
    }

    /** Waits for dead children until a tracked one is found or none is left. */
    method WaitForTracked() returns (found: Option<(int, Exit)>, ghost order: seq<int>)
      modifies this`dead
      ensures View() == Reaped(old(View()), order).(trigger := trigger)
      ensures WaitOrder(old(View()), order)
      ensures found.Some? <==> order != [] && order[|order| - 1] in table
      ensures found.Some? ==> found.value == (order[|order| - 1], old(dead)[order[|order| - 1]])
    {
      ghost var start := View();
      order := [];
      while exists pid :: pid in dead
        invariant View() == Reaped(start, order).(trigger := trigger)
        invariant WaitedFor(start, order)
        decreases dead.Keys
      {
        var pid, exit := Wait();
        ReapedOneMore(start, order, pid);
        order := order + [pid];
        if pid in table {
          return Some((pid, exit)), order;
        }
      }
      NoneLeft(start, order);
      found := None;
    }

    method DeathDispatch() returns (done: Option<(Child, Exit)>)
      modifies this
      ensures exists order :: WaitOrder(old(View()), order) && (View(), done) == Dispatch(old(View()), order)
    {
      trigger := false;
      var found, order := WaitForTracked();
      assert WaitOrder(old(View()), order);
      done := None;
      if found.Some? {
        var p := RunCallback(found.value.0, found.value.1);
        done := Some((p, found.value.1));
      }
    }
  }

  /** A dispatch got these pids so far, none of them tracked. */
  ghost predicate WaitedFor(s: State, order: seq<int>) {
    && (forall i :: 0 <= i < |order| ==> order[i] in s.dead && order[i] !in s.table)
    && (forall i, j :: 0 <= i < j < |order| ==> order[i] != order[j])
  }

  lemma NoneLeft(s: State, order: seq<int>)
    requires WaitedFor(s, order) && forall pid :: pid !in Reaped(s, order).dead
    ensures WaitOrder(s, order) && (order == [] || order[|order| - 1] !in s.table)
  {
    forall pid | pid in s.dead
      ensures pid in order
    {
      assert pid !in Reaped(s, order).dead;
    }
  }

  lemma ReapedOneMore(s: State, order: seq<int>, pid: int)
    requires WaitedFor(s, order) && pid in Reaped(s, order).dead
    ensures Reaped(s, order + [pid]) == Reaped(s, order).(dead := Reaped(s, order).dead - {pid})
    ensures pid in s.table ==> WaitOrder(s, order + [pid])
    ensures pid !in s.table ==> WaitedFor(s, order + [pid])
  {
  }

  // ----- What every step keeps -----

  function Kills(log: seq<Event>, uid: nat): (n: nat) {
    if log == [] then 0
    else Kills(log[..|log| - 1], uid) + if log[|log| - 1].Killed? && log[|log| - 1].uid == uid then 1 else 0
  }

  function Calls(log: seq<Event>, uid: nat): (n: nat) {
    if log == [] then 0
    else Calls(log[..|log| - 1], uid) + if log[|log| - 1].Called? && log[|log| - 1].uid == uid then 1 else 0
  }

  lemma CountOneMore(log: seq<Event>, e: Event, uid: nat)
    ensures Kills(log + [e], uid) == Kills(log, uid) + if e.Killed? && e.uid == uid then 1 else 0
    ensures Calls(log + [e], uid) == Calls(log, uid) + if e.Called? && e.uid == uid then 1 else 0
  {
  }

  /**
   Table and kernel agree: what is tracked is not reaped. The entry of a process knows its
   pending timer. A group never times out.
   */
  ghost predicate EntryOk(s: State, k: int)
    requires k in s.table
  {
    var p := s.table[k];
    && k > 0 && Abs(p.pid) == k && Unreaped(s, k)
    && p.uid < s.nextUid && p.timer < s.nextTimer
    && (p.timer in s.timers ==> s.timers[p.timer] == p.pid)
    && (if p.pid < 0 then !p.timedOut else p.timer == 0 || p.timer in s.timers)
  }

  /** A pending timer belongs to a live entry. */
  ghost predicate TimerOk(s: State, t: nat)
    requires t in s.timers
  {
    0 < t < s.nextTimer && TimerOf(s, t, Abs(s.timers[t]))
  }

  ghost predicate TimerOf(s: State, t: nat, k: int)
    requires t in s.timers
  {
    k in s.table && s.table[k].timer == t && s.table[k].pid == s.timers[t]
  }

  ghost predicate TableInv(s: State) {
    && s.nextTimer > 0
    && (forall k :: k in s.table ==> EntryOk(s, k))
    && (forall t :: t in s.timers ==> TimerOk(s, t))
    && (forall k :: k in s.running ==> k !in s.dead)
  }

  /** The live entries have uids of their own. */
  ghost predicate UidInv(s: State) {
    forall k, m :: k in s.table && m in s.table && s.table[k].uid == s.table[m].uid ==> k == m
  }

  ghost predicate Live(s: State, uid: nat) {
    exists k :: k in s.table && s.table[k].uid == uid
  }

  /** A live child was not called back and was killed exactly if it timed out; a gone one was called back once. */
  ghost predicate LogInv(s: State) {
    && (forall uid: nat :: uid >= s.nextUid ==> Kills(s.log, uid) == 0 && Calls(s.log, uid) == 0)
    && (forall k :: k in s.table ==>
          Calls(s.log, s.table[k].uid) == 0 && Kills(s.log, s.table[k].uid) == if s.table[k].timedOut then 1 else 0)
    && (forall uid: nat :: uid < s.nextUid && !Live(s, uid) ==> Calls(s.log, uid) == 1 && Kills(s.log, uid) <= 1)
    && (forall i :: 0 <= i < |s.log| && s.log[i].Called? && s.log[i].timedOut ==> Kills(s.log[..i], s.log[i].uid) == 1)
  }

  ghost predicate Inv(s: State) {
    TableInv(s) && UidInv(s) && LogInv(s)
  }

  lemma AddKeepsTable(s: State, pid: int, timeout: nat, data: nat)
    requires TableInv(s) && UidInv(s) && pid != 0 && !Unreaped(s, Abs(pid))
    ensures Abs(pid) !in s.table
    ensures TableInv(AddChild(s, pid, timeout, data)) && UidInv(AddChild(s, pid, timeout, data))
  {
    var r := AddChild(s, pid, timeout, data);
    assert Abs(pid) in s.table ==> EntryOk(s, Abs(pid));
    forall k | k in r.table
      ensures EntryOk(r, k)
    {
      assert k in s.table ==> EntryOk(s, k);
    }
    forall t | t in r.timers
      ensures TimerOk(r, t)
    {
      assert t in s.timers ==> TimerOk(s, t);
    }
  }

  lemma AddKeeps(s: State, pid: int, timeout: nat, data: nat)
    requires Inv(s) && pid != 0 && !Unreaped(s, Abs(pid))
    ensures Inv(AddChild(s, pid, timeout, data))
  {
    AddKeepsTable(s, pid, timeout, data);
    var r := AddChild(s, pid, timeout, data);
    assert r.table[Abs(pid)].uid == s.nextUid && Live(r, s.nextUid);
    forall uid: nat | Live(s, uid)
      ensures Live(r, uid)
    {
      var k :| k in s.table && s.table[k].uid == uid;
      assert k in r.table && r.table[k].uid == uid;
    }
  }

  lemma ExitKeeps(s: State, pid: int, exit: Exit)
    requires Inv(s) && pid in s.running
    ensures Inv(KernelExit(s, pid, exit))
  {
  }

  /** The timer of a group finds nothing; any other finds its entry, and a process not yet reaped. */
  lemma TimerFinds(s: State, timer: nat)
    requires TableInv(s) && timer in s.timers
    ensures s.timers[timer] in s.table <==> s.timers[timer] > 0
    ensures TimerOf(s, timer, Abs(s.timers[timer])) && Unreaped(s, Abs(s.timers[timer]))
  {
  }

  lemma TimerKeepsEntry(s: State, timer: nat, k: int)
    requires TableInv(s) && timer in s.timers && k in s.table
    ensures k in TimerFires(s, timer).table && EntryOk(TimerFires(s, timer), k)
  {
    assert EntryOk(s, k) && TimerOk(s, timer);
  }

  lemma TimerKeepsTimer(s: State, timer: nat, t: nat)
    requires TableInv(s) && timer in s.timers && t in TimerFires(s, timer).timers
    ensures TimerOk(TimerFires(s, timer), t)
  {
    assert TimerOk(s, timer) && (t in s.timers ==> TimerOk(s, t));
  }

  lemma TimerKeepsTable(s: State, timer: nat)
    requires Inv(s) && timer in s.timers
    ensures TableInv(TimerFires(s, timer)) && UidInv(TimerFires(s, timer))
  {
    var r := TimerFires(s, timer);
    forall k | k in r.table
      ensures EntryOk(r, k)
    {
      TimerKeepsEntry(s, timer, k);
    }
    forall t | t in r.timers
      ensures TimerOk(r, t)
    {
      TimerKeepsTimer(s, timer, t);
    }
  }

  /** Steps that log nothing and leave the children as they are. */
  lemma LogKept(s: State, r: State)
    requires LogInv(s) && r.log == s.log && r.nextUid == s.nextUid && r.table.Keys == s.table.Keys
    requires forall k :: k in s.table ==> r.table[k].uid == s.table[k].uid && r.table[k].timedOut == s.table[k].timedOut
    ensures LogInv(r)
  {
    SameLive(s, r);
  }

  lemma KillIsLogged(s: State, r: State, k: int)
    requires Inv(s) && k in s.table && !s.table[k].timedOut
    requires r.log == s.log + [Killed(s.table[k].uid, s.table[k].pid)] && r.nextUid == s.nextUid
    requires r.table.Keys == s.table.Keys && r.table[k].uid == s.table[k].uid && r.table[k].timedOut
    requires forall m :: m in s.table && m != k ==> r.table[m] == s.table[m]
    ensures LogInv(r)
  {
    assert EntryOk(s, k);
    SameLive(s, r);
    LogGrows(s, r, Killed(s.table[k].uid, s.table[k].pid));
  }

  lemma TimerKeeps(s: State, timer: nat)
    requires Inv(s) && timer in s.timers
    ensures Inv(TimerFires(s, timer))
  {
    TimerKeepsTable(s, timer);
    TimerFinds(s, timer);
    var pid, r := s.timers[timer], TimerFires(s, timer);
    if pid < 0 || s.table[pid].timedOut {
      LogKept(s, r);
    } else {
      KillIsLogged(s, r, pid);
    }
  }

  lemma SameLive(s: State, r: State)
    requires forall k :: k in r.table <==> k in s.table
    requires forall k :: k in s.table ==> r.table[k].uid == s.table[k].uid
    ensures forall uid :: Live(r, uid) <==> Live(s, uid)
  {
  }

  lemma LogGrows(s: State, r: State, e: Event)
    requires LogInv(s) && r.log == s.log + [e] && r.nextUid == s.nextUid && e.uid < s.nextUid
    requires e.Called? && e.timedOut ==> Kills(s.log, e.uid) == 1
    ensures forall uid: nat :: Kills(r.log, uid) == Kills(s.log, uid) + if e.Killed? && e.uid == uid then 1 else 0
    ensures forall uid: nat :: Calls(r.log, uid) == Calls(s.log, uid) + if e.Called? && e.uid == uid then 1 else 0
    ensures forall i :: 0 <= i < |r.log| && r.log[i].Called? && r.log[i].timedOut ==>
              Kills(r.log[..i], r.log[i].uid) == 1
  {
    forall uid: nat
      ensures Kills(r.log, uid) == Kills(s.log, uid) + if e.Killed? && e.uid == uid then 1 else 0
      ensures Calls(r.log, uid) == Calls(s.log, uid) + if e.Called? && e.uid == uid then 1 else 0
    {
      CountOneMore(s.log, e, uid);
    }
    forall i | 0 <= i < |r.log| && r.log[i].Called? && r.log[i].timedOut
      ensures Kills(r.log[..i], r.log[i].uid) == 1
    {
      assert r.log[..i] == s.log[..i];
    }
  }

  lemma ReapedKeeps(s: State, order: seq<int>)
    requires Inv(s) && forall i :: 0 <= i < |order| ==> order[i] !in s.table
    ensures Inv(Reaped(s, order))
  {
    var r := Reaped(s, order);
    forall k | k in r.table
      ensures EntryOk(r, k)
    {
      assert EntryOk(s, k);
    }
    forall t | t in r.timers
      ensures TimerOk(r, t)
    {
      assert TimerOk(s, t);
    }
    LogKept(s, r);
  }

  lemma FinishKeepsTable(s: State, order: seq<int>, pid: int, exit: Exit)
    requires TableInv(s) && UidInv(s) && pid in s.table
    requires forall k :: k in order && k in s.table ==> k == pid
    ensures TableInv(Finish(Reaped(s, order), pid, exit)) && UidInv(Finish(Reaped(s, order), pid, exit))
  {
    var r := Finish(Reaped(s, order), pid, exit);
    assert EntryOk(s, pid);
    forall k | k in r.table
      ensures EntryOk(r, k)
    {
      assert EntryOk(s, k);
    }
    forall t | t in r.timers
      ensures TimerOk(r, t)
    {
      assert TimerOk(s, t);
    }
  }

  lemma FinishKeeps(s: State, order: seq<int>, pid: int, exit: Exit)
    requires Inv(s) && pid in s.table
    requires forall k :: k in order && k in s.table ==> k == pid
    ensures Inv(Finish(Reaped(s, order), pid, exit))
  {
    FinishKeepsTable(s, order, pid, exit);
    assert EntryOk(s, pid);
    var p := s.table[pid];
    var r := Finish(Reaped(s, order), pid, exit);
    LogGrows(s, r, Called(p.uid, exit, p.timedOut));
    forall uid: nat
      ensures Live(r, uid) <==> Live(s, uid) && uid != p.uid
    {
      if Live(s, uid) && uid != p.uid {
        var k :| k in s.table && s.table[k].uid == uid;
        assert k in r.table && r.table[k].uid == uid;
      }
    }
  }

  lemma DispatchKeeps(s: State, order: seq<int>)
    requires Inv(s) && WaitOrder(s, order)
    ensures Inv(Dispatch(s, order).0)
  {
    if order == [] || order[|order| - 1] !in s.table {
      ReapedKeeps(s, order);
    } else {
      FinishKeeps(s, order, order[|order| - 1], s.dead[order[|order| - 1]]);
    }
  }

  // ----- Every run -----

  datatype Move =
    | Add(pid: int, timeout: nat, data: nat)
    | Spawn(pid: int)
    | Exits(pid: int, exit: Exit)
    | Fires(timer: nat)
    | Dispatches(order: seq<int>)

  /** What may happen next. Processes get pids that no unreaped child has; a group is added by a negative one. */
  ghost predicate Enabled(s: State, m: Move) {
    match m
    case Add(pid, _, _) => pid != 0 && !Unreaped(s, Abs(pid))
    case Spawn(pid) => pid > 0 && !Unreaped(s, pid)
    case Exits(pid, _) => pid in s.running
    case Fires(t) => t in s.timers
    case Dispatches(order) => s.trigger && WaitOrder(s, order)
  }

  ghost function Step(s: State, m: Move): (r: State)
    requires Enabled(s, m)
  {
    match m
    case Add(pid, timeout, data) => AddChild(s, pid, timeout, data)
    case Spawn(pid) => s.(running := s.running + {pid})
    case Exits(pid, exit) => KernelExit(s, pid, exit)
    case Fires(t) => TimerFires(s, t)
    case Dispatches(order) => Dispatch(s, order).0
  }

  /** The run starts idle and each state leads to the next by an enabled move. */
  ghost predicate Run(states: seq<State>, moves: seq<Move>) {
    && |states| == |moves| + 1
    && states[0] == INIT
    && forall i :: 0 <= i < |moves| ==> Enabled(states[i], moves[i]) && states[i + 1] == Step(states[i], moves[i])
  }

  lemma StepKeeps(s: State, m: Move)
    requires Inv(s) && Enabled(s, m)
    ensures Inv(Step(s, m))
  {
    match m
    case Add(pid, timeout, data) => AddKeeps(s, pid, timeout, data);
    case Spawn(pid) => SameLive(s, Step(s, m));
    case Exits(pid, exit) => ExitKeeps(s, pid, exit);
    case Fires(t) => TimerKeeps(s, t);
    case Dispatches(order) => DispatchKeeps(s, order);
  }

  lemma {:induction false} RunKeeps(states: seq<State>, moves: seq<Move>, i: nat)
    requires Run(states, moves) && i < |states|
    ensures Inv(states[i])
  {
    if i > 0 {
      RunKeeps(states, moves, i - 1);
      StepKeeps(states[i - 1], moves[i - 1]);
    }
  }

  /**
   In every state of every run: a tracked child gets at most one SIGKILL and at most one
   callback, exactly one once it has left the table; a callback that reports a timeout comes
   after the SIGKILL; every pending timer belongs to one live entry.
   */
  lemma ChildrenAreHandledOnce(states: seq<State>, moves: seq<Move>, i: nat, uid: nat)
    requires Run(states, moves) && i < |states|
    ensures var s := states[i];
      && Kills(s.log, uid) <= 1 && Calls(s.log, uid) <= 1
      && (uid < s.nextUid ==> (Calls(s.log, uid) == 1 <==> !Live(s, uid)))
      && (forall j :: 0 <= j < |s.log| && s.log[j].Called? && s.log[j].timedOut ==>
            Kills(s.log[..j], s.log[j].uid) == 1)
      && (forall t :: t in s.timers ==> TimerOf(s, t, Abs(s.timers[t])))
  {
    RunKeeps(states, moves, i);
    var s := states[i];
    if uid < s.nextUid && Live(s, uid) {
      var k :| k in s.table && s.table[k].uid == uid;
    }
  }

  /** In every run, a step that sends SIGKILL sends it to a process that is not reaped. */
  lemma KillsHitUnreaped(states: seq<State>, moves: seq<Move>, i: nat, e: Event)
    requires Run(states, moves) && i < |moves|
    requires states[i + 1].log == states[i].log + [e] && e.Killed?
    ensures Unreaped(states[i], e.pid) && e.pid > 0
  {
    RunKeeps(states, moves, i);
    assert Step(states[i], moves[i]).log[|states[i].log|] == e;
    if moves[i].Fires? {
      TimerFinds(states[i], moves[i].timer);
    }
  }

  /**
   In every run: once a timer of a child has run out, the child has been sent one SIGKILL if it
   was added by its own pid. Added as a process group, by its negated pid, it has been sent
   none: the timer looks the negated pid up in a table keyed by the pid itself.
   */
  lemma TimeoutNeedsOwnPid(states: seq<State>, moves: seq<Move>, i: nat)
    requires Run(states, moves) && i < |moves| && moves[i].Fires?
    ensures var s, t := states[i], moves[i].timer;
      && TimerOf(s, t, Abs(s.timers[t]))
      && Kills(states[i + 1].log, s.table[Abs(s.timers[t])].uid) == if s.timers[t] > 0 then 1 else 0
  {
    var s, t := states[i], moves[i].timer;
    RunKeeps(states, moves, i);
    RunKeeps(states, moves, i + 1);
    TimerFinds(s, t);
    var k := Abs(s.timers[t]);
    assert k in states[i + 1].table && states[i + 1].table[k].uid == s.table[k].uid;
  }

  // ----- What a timeout does -----

  /** The entry of a process added with this timeout: its timer is pending until its SIGKILL is sent. */
  ghost predicate Armed(p: Child, timers: map<nat, int>, timeout: nat) {
    if timeout == 0 then p.timer == 0 && !p.timedOut
    else p.pid > 0 && !p.timedOut ==> p.timer in timers && timers[p.timer] == p.pid
  }

  /** The step leaves the child's entry armed; `uid` tells which child. */
  lemma ArmedStep(s: State, m: Move, k: int, timeout: nat)
    requires TableInv(s) && Enabled(s, m) && k in s.table && Armed(s.table[k], s.timers, timeout)
    requires k in Step(s, m).table && Step(s, m).table[k].uid == s.table[k].uid && s.table[k].uid < s.nextUid
    ensures Armed(Step(s, m).table[k], Step(s, m).timers, timeout)
    ensures Step(s, m).table[k].pid == s.table[k].pid && Step(s, m).table[k].data == s.table[k].data
  {
    assert EntryOk(s, k);
    match m
    case Fires(t) => ArmedTimer(s, t, k, timeout);
    case Dispatches(order) =>
      if order != [] && order[|order| - 1] in s.table {
        assert EntryOk(s, order[|order| - 1]);
      }
    case _ =>
  }

  lemma ArmedTimer(s: State, t: nat, k: int, timeout: nat)
    requires TableInv(s) && t in s.timers && k in s.table && Armed(s.table[k], s.timers, timeout)
    ensures var r := TimerFires(s, t); k in r.table && Armed(r.table[k], r.timers, timeout)
    ensures TimerFires(s, t).table[k].pid == s.table[k].pid && TimerFires(s, t).table[k].data == s.table[k].data
  {
    assert EntryOk(s, k) && TimerOk(s, t);
    TimerFinds(s, t);
  }

  /** Keys of live entries do not change hands: the entry of a child stays under its pid. */
  lemma StaysInPlace(s: State, m: Move, k: int)
    requires TableInv(s) && UidInv(s) && Enabled(s, m)
    requires k in Step(s, m).table && Step(s, m).table[k].uid < s.nextUid
    ensures k in s.table && s.table[k].uid == Step(s, m).table[k].uid
  {
    if m.Fires? {
      TimerFinds(s, m.timer);
    }
  }

  ghost predicate ArmedAs(s: State, k: int, timeout: nat, pid: int, data: nat)
    requires k in s.table
  {
    Armed(s.table[k], s.timers, timeout) && s.table[k].pid == pid && s.table[k].data == data
  }

  /** The child is known, and if it is in the table its entry is armed. */
  ghost predicate ArmedFor(s: State, uid: nat, timeout: nat, pid: int, data: nat) {
    uid < s.nextUid && forall k :: k in s.table && s.table[k].uid == uid ==> ArmedAs(s, k, timeout, pid, data)
  }

  lemma ArmedForStep(s: State, m: Move, uid: nat, timeout: nat, pid: int, data: nat)
    requires Inv(s) && Enabled(s, m) && ArmedFor(s, uid, timeout, pid, data)
    ensures ArmedFor(Step(s, m), uid, timeout, pid, data)
  {
    var r := Step(s, m);
    forall k | k in r.table && r.table[k].uid == uid
      ensures ArmedAs(r, k, timeout, pid, data)
    {
      StaysInPlace(s, m, k);
      ArmedStep(s, m, k, timeout);
    }
  }

  lemma AddArms(s: State, pid: int, timeout: nat, data: nat)
    requires TableInv(s)
    ensures ArmedFor(AddChild(s, pid, timeout, data), s.nextUid, timeout, pid, data)
  {
    assert forall k :: k in s.table ==> EntryOk(s, k);
  }

  lemma {:induction false} StaysArmed(states: seq<State>, moves: seq<Move>, i: nat, j: nat)
    requires Run(states, moves) && i < j < |states| && moves[i].Add?
    ensures ArmedFor(states[j], states[i].nextUid, moves[i].timeout, moves[i].pid, moves[i].data)
  {
    RunKeeps(states, moves, j - 1);
    if i + 1 < j {
      StaysArmed(states, moves, i, j - 1);
      ArmedForStep(states[j - 1], moves[j - 1], states[i].nextUid, moves[i].timeout, moves[i].pid, moves[i].data);
    } else {
      AddArms(states[i], moves[i].pid, moves[i].timeout, moves[i].data);
    }
  }

  /**
   In every run: a process added with a timeout has its first timer pending until it is sent its
   SIGKILL, as long as it is in the table; without a timeout it has no timer and is sent none.
   */
  lemma TimeoutIsArmed(states: seq<State>, moves: seq<Move>, i: nat, j: nat, k: int)
    requires Run(states, moves) && i < j < |states| && moves[i].Add?
    requires k in states[j].table && states[j].table[k].uid == states[i].nextUid
    ensures states[j].table[k].pid == moves[i].pid && states[j].table[k].data == moves[i].data
    ensures var s, kills := states[j], Kills(states[j].log, states[i].nextUid);
      && (moves[i].timeout > 0 && moves[i].pid > 0 ==> s.table[k].timer in s.timers || kills == 1)
      && (moves[i].timeout == 0 ==> kills == 0 && forall t :: t in s.timers ==> Abs(s.timers[t]) != k)
  {
    StaysArmed(states, moves, i, j);
    assert ArmedAs(states[j], k, moves[i].timeout, moves[i].pid, moves[i].data);
    RunKeeps(states, moves, j);
    assert EntryOk(states[j], k);
    assert forall t :: t in states[j].timers ==> TimerOk(states[j], t);
  }

  /**
   In every run: the first timer of a process to run out leaves a second one pending, and the
   second leaves none.
   */
  lemma TimeoutRearmsOnce(states: seq<State>, moves: seq<Move>, i: nat)
    requires Run(states, moves) && i < |moves| && moves[i].Fires? && states[i].timers[moves[i].timer] > 0
    ensures var pid := states[i].timers[moves[i].timer];
      && pid in states[i].table && pid in states[i + 1].table && moves[i].timer !in states[i + 1].timers
      && states[i + 1].table[pid].timedOut
      && (states[i + 1].table[pid].timer in states[i + 1].timers <==> !states[i].table[pid].timedOut)
  {
    RunKeeps(states, moves, i);
    TimerFinds(states[i], moves[i].timer);
    var pid := states[i].timers[moves[i].timer];
    assert TimerOk(states[i], moves[i].timer) && EntryOk(states[i], pid);
    assert 0 in states[i].timers ==> TimerOk(states[i], 0);
  }

  ghost predicate IsGroup(s: State, uid: nat) {
    && Kills(s.log, uid) == 0
    && (forall k :: k in s.table && s.table[k].uid == uid ==> s.table[k].pid < 0)
  }

  lemma GroupTimer(s: State, timer: nat, uid: nat)
    requires TableInv(s) && timer in s.timers && IsGroup(s, uid)
    ensures IsGroup(TimerFires(s, timer), uid)
  {
    TimerFinds(s, timer);
    if s.timers[timer] > 0 {
      var p, r := s.table[s.timers[timer]], TimerFires(s, timer);
      assert p.uid != uid;
      CountOneMore(s.log, Killed(p.uid, p.pid), uid);
      assert r.log == s.log || r.log == s.log + [Killed(p.uid, p.pid)];
    }
  }

  lemma GroupDispatch(s: State, order: seq<int>, uid: nat)
    requires WaitOrder(s, order) && IsGroup(s, uid)
    ensures IsGroup(Dispatch(s, order).0, uid)
  {
    var (_, done) := Dispatch(s, order);
    if done.Some? {
      var (p, exit) := done.value;
      CountOneMore(s.log, Called(p.uid, exit, p.timedOut), uid);
    }
  }

  lemma GroupStep(s: State, m: Move, uid: nat)
    requires Inv(s) && Enabled(s, m) && uid < s.nextUid && IsGroup(s, uid)
    ensures IsGroup(Step(s, m), uid)
  {
    match m
    case Fires(timer) => GroupTimer(s, timer, uid);
    case Dispatches(order) => GroupDispatch(s, order, uid);
    case _ =>
  }

  /** In every run: a child added as a process group is never sent SIGKILL, however long it runs. */
  lemma {:induction false} GroupsAreNeverKilled(states: seq<State>, moves: seq<Move>, i: nat, j: nat)
    requires Run(states, moves) && i < j < |states| && moves[i].Add? && moves[i].pid < 0
    ensures IsGroup(states[j], states[i].nextUid)
    ensures Kills(states[j].log, states[i].nextUid) == 0
    ensures states[i].nextUid < states[j].nextUid
  {
    if i + 1 < j {
      GroupsAreNeverKilled(states, moves, i, j - 1);
      RunKeeps(states, moves, j - 1);
      GroupStep(states[j - 1], moves[j - 1], states[i].nextUid);
    } else {
      RunKeeps(states, moves, i);
      GroupAdded(states[i], moves[i].pid, moves[i].timeout, moves[i].data);
    }
  }

  lemma GroupAdded(s: State, pid: int, timeout: nat, data: nat)
    requires Inv(s) && pid < 0
    ensures IsGroup(AddChild(s, pid, timeout, data), s.nextUid)
  {
    assert forall k :: k in s.table ==> EntryOk(s, k);
  }

  /** A group whose timer runs out: no SIGKILL is sent, no timer is left, and it still runs. */
  lemma GroupOutlivesTimeout(data: nat) returns (states: seq<State>, moves: seq<Move>)
    ensures Run(states, moves) && moves == [Add(-2, 5, data), Fires(1)]
    ensures var s := states[2]; 2 in s.running && s.timers == map[] && Kills(s.log, 0) == 0
  {
    moves := [Add(-2, 5, data), Fires(1)];
    var s1 := Step(INIT, moves[0]);
    var s2 := Step(s1, moves[1]);
    states := [INIT, s1, s2];
  }

  // ----- What a death does -----

  /** In every run: a dead child died by an earlier exit, and has been dead since. */
  lemma {:induction false} DeathsAreReal(states: seq<State>, moves: seq<Move>, i: nat, pid: int) returns (j: nat)
    requires Run(states, moves) && i < |states| && pid in states[i].dead
    ensures j < i && moves[j] == Exits(pid, states[i].dead[pid])
    ensures forall l :: j < l <= i ==> pid in states[l].dead && states[l].dead[pid] == states[i].dead[pid]
  {
    var s, m := states[i - 1], moves[i - 1];
    assert Enabled(s, m) && states[i] == Step(s, m);
    if m.Exits? && m.pid == pid {
      j := i - 1;
    } else {
      j := DeathsAreReal(states, moves, i - 1, pid);
    }
  }

  /** In every run: after a death a dispatch is due until there is one. */
  lemma {:induction false} DeathIsSignalled(states: seq<State>, moves: seq<Move>, i: nat, j: nat)
    requires Run(states, moves) && i < j < |states| && moves[i].Exits?
    requires forall l :: i < l < j ==> !moves[l].Dispatches?
    ensures states[j].trigger
  {
    assert Enabled(states[j - 1], moves[j - 1]) && states[j] == Step(states[j - 1], moves[j - 1]);
    if i + 1 < j {
      DeathIsSignalled(states, moves, i, j - 1);
    }
  }

  function CallOf(p: Child, exit: Exit): (e: Event) {
    Called(p.uid, exit, p.timedOut)
  }

  /**
   In every run: a dispatch reaps the children the kernel hands over and no others. If the last of
   them is tracked, its entry goes and its callback is told how it died; otherwise none runs.
   */
  lemma DispatchReaps(states: seq<State>, moves: seq<Move>, i: nat)
    requires Run(states, moves) && i < |moves| && moves[i].Dispatches?
    ensures var s, r, order := states[i], states[i + 1], moves[i].order;
      && !r.trigger && r.running == s.running
      && (forall pid :: pid in r.dead <==> pid in s.dead && pid !in order)
      && (forall pid :: pid in r.dead ==> r.dead[pid] == s.dead[pid])
      && (order == [] || Last(order) !in s.table ==> r.table == s.table && r.log == s.log)
      && (order != [] && Last(order) in s.table ==>
            && r.table == s.table - {Last(order)}
            && r.log == s.log + [CallOf(s.table[Last(order)], s.dead[Last(order)])])
  {
    assert Enabled(states[i], moves[i]) && states[i + 1] == Step(states[i], moves[i]);
  }

  // ----- What does not hold -----

  ghost predicate DeadTracked(s: State, pid: int) {
    pid in s.table && pid in s.dead
  }

  /** A dispatch leaves no dead child in the table exactly if there was at most one before it. */
  lemma DispatchClearsOne(s: State, order: seq<int>)
    requires Inv(s) && WaitOrder(s, order)
    ensures (forall pid :: !DeadTracked(Dispatch(s, order).0, pid)) <==>
            (forall a, b :: DeadTracked(s, a) && DeadTracked(s, b) ==> a == b)
  {
    var r := Dispatch(s, order).0;
    if order == [] || order[|order| - 1] !in s.table {
      assert forall pid :: !DeadTracked(s, pid) && !DeadTracked(r, pid);
    } else {
      var found := order[|order| - 1];
      assert DeadTracked(s, found);
      forall pid
        ensures DeadTracked(r, pid) <==> DeadTracked(s, pid) && pid != found
      {
      }
    }
  }

  /**
   Two children die before the one pending SIGCHLD is handled: the dispatch calls back for
   one of them and leaves the other in the table, dead, with no further dispatch due.
   */
  lemma SecondDeathIsLeft(data: nat) returns (states: seq<State>, moves: seq<Move>)
    ensures Run(states, moves)
    ensures var s := states[|moves|]; !s.trigger && 2 in s.table && 2 in s.dead
  {
    moves := [Add(1, 0, data), Add(2, 0, data), Exits(1, Exited(0)), Exits(2, Exited(0)), Dispatches([1])];
    var s1 := Step(INIT, moves[0]);
    var s2 := Step(s1, moves[1]);
    var s3 := Step(s2, moves[2]);
    var s4 := Step(s3, moves[3]);
    var s5 := Step(s4, moves[4]);
    states := [INIT, s1, s2, s3, s4, s5];
  }
}

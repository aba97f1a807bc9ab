/**
 Service and resource actions: one process per run, a result for each run, and for recurring
 actions a timer between runs. Built on the table of child processes.
 */
module Actions {
  import opened Common
  import opened ChildTracker

  datatype Status = Done | TimedOut | Failed

  datatype Result = Result(status: Status, rc: int)

  const OCF_TIMEOUT := 198
  const OCF_SIGNAL := 194

  const FORK_FAILED := -1

  /**
   `pid` is what the last fork gave, and 0 when its process has ended. `results` are the results
   its callback was given.
   */
  datatype Op = Op(interval: nat, timeout: nat, pid: int, repeat: nat, results: seq<Result>, freed: bool)

  datatype World = World(t: State, ops: map<nat, Op>, nextOp: nat, repeats: map<nat, nat>, nextRepeat: nat)

  const IDLE := World(INIT, map[], 0, map[], 0)

  // ----- The steps -----

  /** Runs the action in a new process; `pid` is what fork gave. */
  function Execute(w: World, id: nat, pid: int): (r: World) {
    if id !in w.ops then w
    else if pid == FORK_FAILED then w.(ops := w.ops[id := w.ops[id].(pid := pid)])
    else w.(t := AddChild(w.t, pid, w.ops[id].timeout, id), ops := w.ops[id := w.ops[id].(pid := pid)])
  }

  function NewAction(w: World, interval: nat, timeout: nat): (r: World) {
    w.(ops := w.ops[w.nextOp := Op(interval, timeout, 0, 0, [], false)], nextOp := w.nextOp + 1)
  }

  function Request(w: World, interval: nat, timeout: nat, pid: int): (r: World) {
    Execute(NewAction(w, interval, timeout), w.nextOp, pid)
  }

  function RepeatFires(w: World, timer: nat, pid: int): (r: World)
    requires timer in w.repeats
  {
    Execute(w.(repeats := w.repeats - {timer}), w.repeats[timer], pid)
  }

  function ResultOf(p: Child, exit: Exit): (r: Result) {
    match exit
    case Signaled(_) => if p.timedOut then Result(TimedOut, OCF_TIMEOUT) else Result(Failed, OCF_SIGNAL)
    case Exited(code) => Result(Done, code)
  }

  /** The process of an action ended: schedule the next run or release the action, after its callback. */
  function Finished(w: World, p: Child, exit: Exit): (r: World) {
    if p.data !in w.ops then w
    else
      var op := w.ops[p.data];
      var done := op.(pid := 0, results := op.results + [ResultOf(p, exit)]);
      if op.interval > 0 then
        w.(ops := w.ops[p.data := done.(repeat := w.nextRepeat)],
           repeats := w.repeats[w.nextRepeat := p.data],
           nextRepeat := w.nextRepeat + 1)
      else w.(ops := w.ops[p.data := done.(freed := true)])
  }

  function DispatchDeaths(w: World, order: seq<int>): (r: World)
    requires WaitOrder(w.t, order)
  {
    var (t, done) := Dispatch(w.t, order);
    match done
    case Some((p, exit)) => Finished(w.(t := t), p, exit)
    case None => w.(t := t)
  }

  class Services {
    const loop: Mainloop
    var ops: map<nat, Op>
    var nextOp: nat
    var repeats: map<nat, nat>
    var nextRepeat: nat

    ghost function View(): (w: World)
      reads this, loop
    {
      World(loop.View(), ops, nextOp, repeats, nextRepeat)
    }

    constructor ()
      ensures fresh(loop) && View() == IDLE
    {
      loop := new Mainloop();
      ops, nextOp, repeats, nextRepeat := map[], 0, map[], 0;
    }

    method Run(id: nat, pid: int) returns (ok: bool)
      requires id in ops
      modifies this, loop
      ensures View() == Execute(old(View()), id, pid)
      ensures ok <==> pid != FORK_FAILED
    {
      ops := ops[id := ops[id].(pid := pid)];
      if pid == FORK_FAILED {
        return false;
      }
      loop.Add(pid, ops[id].timeout, id);
      ok := true;
    }

    method Start(interval: nat, timeout: nat, pid: int) returns (ok: bool)
      modifies this, loop
      ensures View() == Request(old(View()), interval, timeout, pid)
      ensures ok <==> pid != FORK_FAILED
    {
      var id := nextOp;
      ops := ops[id := Op(interval, timeout, 0, 0, [], false)];
      nextOp := nextOp + 1;
      ok := Run(id, pid);
    }

    /** The outcome of the fork is not looked at. */
    method RecurringTimer(timer: nat, pid: int)
      requires timer in repeats && repeats[timer] in ops
      modifies this, loop
      ensures View() == RepeatFires(old(View()), timer, pid)
    {
      var id := repeats[timer];
      repeats := repeats - {timer};
      var _ := Run(id, pid);
    }

    method OperationFinished(p: Child, exit: Exit)
      requires p.data in ops
      modifies this
      ensures View() == Finished(old(View()), p, exit)
    {
      var op := ops[p.data];
      if op.interval > 0 {
        op := op.(repeat := nextRepeat);
        repeats := repeats[nextRepeat := p.data];
        nextRepeat := nextRepeat + 1;
      }
      op := op.(pid := 0);
      op := op.(results := op.results + [ResultOf(p, exit)]);
      if op.interval == 0 {
        op := op.(freed := true);
      }
      ops := ops[p.data := op];
    }

    method HandleDeaths() returns (done: Option<(Child, Exit)>)
      requires forall k :: k in loop.table ==> loop.table[k].data in ops
      modifies this, loop
      ensures exists order ::
        && WaitOrder(old(View()).t, order) && done == Dispatch(old(View()).t, order).1
        && View() == DispatchDeaths(old(View()), order)
    {
      done := loop.DeathDispatch();
      ghost var order :|
        WaitOrder(old(loop.View()), order) && (loop.View(), done) == Dispatch(old(loop.View()), order);
      if done.Some? {
        OperationFinished(done.value.0, done.value.1);
      }
      assert WaitOrder(old(View()).t, order) && done == Dispatch(old(View()).t, order).1;
      assert View() == DispatchDeaths(old(View()), order);
    }
  }

  // ----- What every step keeps -----

  ghost predicate OpInv(w: World, id: nat)
    requires id in w.ops
  {
    var op := w.ops[id];
    && id < w.nextOp && op.pid >= FORK_FAILED
    && (op.pid > 0 ==> op.pid in w.t.table && w.t.table[op.pid].data == id)
    && (op.interval > 0 ==> !op.freed && (op.pid == 0 ==> op.repeat in w.repeats && w.repeats[op.repeat] == id))
    && (op.interval == 0 ==> (op.freed <==> op.pid == 0) && |op.results| == if op.freed then 1 else 0)
  }

  ghost predicate TableOk(w: World, k: int)
    requires k in w.t.table
  {
    k > 0 && w.t.table[k].pid == k && w.t.table[k].data in w.ops && w.ops[w.t.table[k].data].pid == k
  }

  ghost predicate RepeatOk(w: World, t: nat)
    requires t in w.repeats
  {
    && t < w.nextRepeat && w.repeats[t] in w.ops
    && w.ops[w.repeats[t]].repeat == t && w.ops[w.repeats[t]].pid == 0 && w.ops[w.repeats[t]].interval > 0
  }

  /** Actions, table and timers agree. */
  ghost predicate OpsInv(w: World) {
    && (forall id :: id in w.ops ==> OpInv(w, id))
    && (forall k :: k in w.t.table ==> TableOk(w, k))
    && (forall t :: t in w.repeats ==> RepeatOk(w, t))
  }

  ghost predicate WorldInv(w: World) {
    Inv(w.t) && OpsInv(w)
  }

  /** Forking fails, or gives a pid no unreaped child has. */
  ghost predicate Forks(w: World, pid: int) {
    pid == FORK_FAILED || (pid > 0 && !Unreaped(w.t, pid))
  }

  /** All is well with the actions other than `id`. */
  ghost predicate OthersOk(w: World, id: nat) {
    OpsInv(w.(ops := w.ops - {id}))
  }

  lemma ExecuteKeeps(w: World, id: nat, pid: int)
    requires OthersOk(w, id) && id in w.ops && id < w.nextOp
    requires Forks(w, pid) && (pid > 0 ==> pid !in w.t.table)
    requires !w.ops[id].freed && (w.ops[id].interval == 0 ==> w.ops[id].results == [])
    ensures OpsInv(Execute(w, id, pid))
  {
    var v, r := w.(ops := w.ops - {id}), Execute(w, id, pid);
    forall other | other in r.ops
      ensures OpInv(r, other)
    {
      assert other in v.ops ==> OpInv(v, other);
    }
    forall k | k in r.t.table
      ensures TableOk(r, k)
    {
      assert k in v.t.table ==> TableOk(v, k);
    }
    forall t | t in r.repeats
      ensures RepeatOk(r, t)
    {
      assert RepeatOk(v, t);
    }
  }

  lemma ExecuteKeepsWorld(w: World, id: nat, pid: int)
    requires Inv(w.t) && OthersOk(w, id) && id in w.ops && id < w.nextOp && Forks(w, pid)
    requires !w.ops[id].freed && (w.ops[id].interval == 0 ==> w.ops[id].results == [])
    ensures WorldInv(Execute(w, id, pid))
  {
    if pid != FORK_FAILED {
      AddKeepsTable(w.t, pid, w.ops[id].timeout, id);
      AddKeeps(w.t, pid, w.ops[id].timeout, id);
    }
    ExecuteKeeps(w, id, pid);
  }

  lemma RequestKeeps(w: World, interval: nat, timeout: nat, pid: int)
    requires WorldInv(w) && Forks(w, pid)
    ensures WorldInv(Request(w, interval, timeout, pid))
  {
    OthersBesideNew(w, interval, timeout);
    ExecuteKeepsWorld(NewAction(w, interval, timeout), w.nextOp, pid);
  }

  lemma OthersBesideNew(w: World, interval: nat, timeout: nat)
    requires OpsInv(w)
    ensures OthersOk(NewAction(w, interval, timeout), w.nextOp)
  {
    var op := Op(interval, timeout, 0, 0, [], false);
    assert w.nextOp in w.ops ==> OpInv(w, w.nextOp);
    var v := w.(nextOp := w.nextOp + 1);
    assert w.ops[w.nextOp := op] - {w.nextOp} == v.ops;
    forall id | id in v.ops
      ensures OpInv(v, id)
    {
      assert OpInv(w, id);
    }
    assert forall k :: k in v.t.table ==> TableOk(w, k) && TableOk(v, k);
    assert forall t :: t in v.repeats ==> RepeatOk(w, t) && RepeatOk(v, t);
  }

  lemma OthersBesideWaiting(w: World, timer: nat)
    requires OpsInv(w) && timer in w.repeats
    ensures OthersOk(w.(repeats := w.repeats - {timer}), w.repeats[timer])
  {
    var id := w.repeats[timer];
    var v := w.(repeats := w.repeats - {timer}, ops := w.ops - {id});
    assert RepeatOk(w, timer);
    forall other | other in v.ops
      ensures OpInv(v, other)
    {
      assert OpInv(w, other);
    }
    forall k | k in v.t.table
      ensures TableOk(v, k)
    {
      assert TableOk(w, k) && OpInv(w, w.t.table[k].data);
    }
    forall t | t in v.repeats
      ensures RepeatOk(v, t)
    {
      assert RepeatOk(w, t);
    }
  }

  lemma RepeatKeeps(w: World, timer: nat, pid: int)
    requires WorldInv(w) && timer in w.repeats && Forks(w, pid)
    ensures WorldInv(RepeatFires(w, timer, pid))
  {
    assert RepeatOk(w, timer) && OpInv(w, w.repeats[timer]);
    OthersBesideWaiting(w, timer);
    ExecuteKeepsWorld(w.(repeats := w.repeats - {timer}), w.repeats[timer], pid);
  }

  /** The process that ended is the one its action waits for. */
  lemma FinishedIsCurrent(w: World, order: seq<int>)
    requires OpsInv(w) && WaitOrder(w.t, order) && Dispatch(w.t, order).1.Some?
    ensures var p := Dispatch(w.t, order).1.value.0;
      && p.pid in w.t.table && w.t.table[p.pid] == p
      && p.data in w.ops && w.ops[p.data].pid == p.pid && !w.ops[p.data].freed
  {
    assert TableOk(w, order[|order| - 1]);
    assert OpInv(w, w.t.table[order[|order| - 1]].data);
  }

  /** Releasing or rescheduling an action whose process left the table. */
  lemma FinishedKeeps(w: World, t: State, p: Child, exit: Exit)
    requires OpsInv(w)
    requires p.pid in w.t.table && w.t.table[p.pid] == p && t.table == w.t.table - {p.pid}
    ensures OpsInv(Finished(w.(t := t), p, exit))
  {
    var r := Finished(w.(t := t), p, exit);
    assert TableOk(w, p.pid) && OpInv(w, p.data);
    forall id | id in r.ops
      ensures OpInv(r, id)
    {
      FinishedKeepsOp(w, t, p, exit, id);
    }
    forall k | k in r.t.table
      ensures TableOk(r, k)
    {
      assert TableOk(w, k);
    }
    forall t | t in r.repeats
      ensures RepeatOk(r, t)
    {
      assert t in w.repeats ==> RepeatOk(w, t);
    }
  }

  lemma FinishedKeepsOp(w: World, t: State, p: Child, exit: Exit, id: nat)
    requires OpsInv(w) && id in w.ops
    requires p.pid in w.t.table && w.t.table[p.pid] == p && t.table == w.t.table - {p.pid}
    ensures OpInv(Finished(w.(t := t), p, exit), id)
  {
    assert TableOk(w, p.pid) && OpInv(w, id) && OpInv(w, p.data);
    assert forall timer :: timer in w.repeats ==> RepeatOk(w, timer);
  }

  lemma DispatchDeathsKeeps(w: World, order: seq<int>)
    requires WorldInv(w) && WaitOrder(w.t, order)
    ensures WorldInv(DispatchDeaths(w, order))
  {
    DispatchKeeps(w.t, order);
    var (t, done) := Dispatch(w.t, order);
    if done.Some? {
      FinishedIsCurrent(w, order);
      FinishedKeeps(w, t, done.value.0, done.value.1);
    } else {
      TrackerStepKeeps(w, t);
    }
  }

  /** A step of the process table that leaves its entries to the same actions. */
  lemma TrackerStepKeeps(w: World, t: State)
    requires OpsInv(w) && t.table.Keys == w.t.table.Keys
    requires forall k :: k in t.table ==> t.table[k].data == w.t.table[k].data && t.table[k].pid == w.t.table[k].pid
    ensures OpsInv(w.(t := t))
  {
    var v := w.(t := t);
    forall id | id in v.ops
      ensures OpInv(v, id)
    {
      assert OpInv(w, id);
    }
    assert forall k :: k in t.table ==> TableOk(w, k) && TableOk(v, k);
    assert forall timer :: timer in v.repeats ==> RepeatOk(w, timer) && RepeatOk(v, timer);
  }

  lemma OtherMoveKeepsEntries(s: State, move: ChildTracker.Move)
    requires ChildTracker.Enabled(s, move) && !move.Add? && !move.Dispatches?
    ensures var t := ChildTracker.Step(s, move).table;
      && t.Keys == s.table.Keys
      && forall k :: k in t ==> t[k].data == s.table[k].data && t[k].pid == s.table[k].pid
  {
  }

  lemma OtherMoveKeeps(w: World, move: ChildTracker.Move)
    requires WorldInv(w) && ChildTracker.Enabled(w.t, move) && !move.Add? && !move.Dispatches?
    ensures WorldInv(w.(t := ChildTracker.Step(w.t, move)))
  {
    StepKeeps(w.t, move);
    OtherMoveKeepsEntries(w.t, move);
    TrackerStepKeeps(w, ChildTracker.Step(w.t, move));
  }

  // ----- Every run -----

  datatype Move =
    | Requested(interval: nat, timeout: nat, pid: int)
    | Repeats(timer: nat, pid: int)
    | Other(move: ChildTracker.Move)

  /** Nothing is cancelled. */
  ghost predicate Enabled(w: World, m: Move) {
    match m
    case Requested(_, _, pid) => Forks(w, pid)
    case Repeats(timer, pid) => timer in w.repeats && Forks(w, pid)
    case Other(move) => !move.Add? && ChildTracker.Enabled(w.t, move)
  }

  ghost function Step(w: World, m: Move): (r: World)
    requires Enabled(w, m)
  {
    match m
    case Requested(interval, timeout, pid) => Request(w, interval, timeout, pid)
    case Repeats(timer, pid) => RepeatFires(w, timer, pid)
    case Other(move) =>
      if move.Dispatches? then DispatchDeaths(w, move.order) else w.(t := ChildTracker.Step(w.t, move))
  }

  /** The child whose death the move handles, if any: the callback of its action runs. */
  ghost function FinishedBy(w: World, m: Move): (done: Option<(Child, Exit)>)
    requires Enabled(w, m)
  {
    if m.Other? && m.move.Dispatches? then Dispatch(w.t, m.move.order).1 else None
  }

  ghost predicate Finishes(w: World, m: Move, id: nat)
    requires Enabled(w, m)
  {
    FinishedBy(w, m).Some? && FinishedBy(w, m).value.0.data == id
  }

  /** A one-shot action that was started; it runs until it is released. */
  predicate OneShot(w: World, id: nat) {
    id in w.ops && w.ops[id].interval == 0 && w.ops[id].pid != FORK_FAILED
  }

  /** A one-shot action is called back, and released, by the one move that finishes it. */
  lemma OneShotStep(w: World, m: Move, id: nat)
    requires OpsInv(w) && Enabled(w, m) && OneShot(w, id)
    ensures OneShot(Step(w, m), id)
    ensures Step(w, m).ops[id].freed <==> w.ops[id].freed || Finishes(w, m, id)
    ensures Finishes(w, m, id) ==> !w.ops[id].freed
  {
    assert OpInv(w, id);
    assert w.nextOp in w.ops ==> OpInv(w, w.nextOp);
    match m
    case Repeats(timer, _) => assert RepeatOk(w, timer);
    case Other(move) =>
      if FinishedBy(w, m).Some? {
        FinishedIsCurrent(w, move.order);
      }
    case _ =>
  }

  lemma StepKeepsWorld(w: World, m: Move)
    requires WorldInv(w) && Enabled(w, m)
    ensures WorldInv(Step(w, m))
  {
    match m
    case Requested(interval, timeout, pid) => RequestKeeps(w, interval, timeout, pid);
    case Repeats(timer, pid) => RepeatKeeps(w, timer, pid);
    case Other(move) =>
      if move.Dispatches? {
        DispatchDeathsKeeps(w, move.order);
      } else {
        OtherMoveKeeps(w, move);
      }
  }

  /** The run starts with no action and each world leads to the next by an enabled move. */
  ghost predicate Run(worlds: seq<World>, moves: seq<Move>) {
    && |worlds| == |moves| + 1
    && worlds[0] == IDLE
    && forall i :: 0 <= i < |moves| ==> Enabled(worlds[i], moves[i]) && worlds[i + 1] == Step(worlds[i], moves[i])
  }

  lemma {:induction false} RunKeepsWorld(worlds: seq<World>, moves: seq<Move>, i: nat)
    requires Run(worlds, moves) && i < |worlds|
    ensures WorldInv(worlds[i])
  {
    if i > 0 {
      RunKeepsWorld(worlds, moves, i - 1);
      StepKeepsWorld(worlds[i - 1], moves[i - 1]);
    }
  }

  ghost predicate RunsAs(w: World, id: nat, pid: int) {
    pid in w.t.table && w.t.table[pid].data == id
  }

  ghost predicate WaitsFor(w: World, id: nat, timer: nat) {
    timer in w.repeats && w.repeats[timer] == id
  }

  /** One of the forks made for the action before step `i` failed. */
  ghost predicate ForkFailed(worlds: seq<World>, moves: seq<Move>, i: nat, id: nat)
    requires Run(worlds, moves) && i < |worlds|
  {
    exists j :: 0 <= j < i && FailsFor(worlds[j], moves[j], id)
  }

  ghost predicate FailsFor(w: World, m: Move, id: nat)
    requires Enabled(w, m)
  {
    match m
    case Requested(_, _, pid) => pid == FORK_FAILED && id == w.nextOp
    case Repeats(timer, pid) => pid == FORK_FAILED && id == w.repeats[timer]
    case Other(_) => false
  }

  /** A failed fork is final, and nothing else leaves an action marked with it. */
  lemma FailureIsMarked(w: World, m: Move, id: nat)
    requires OpsInv(w) && Enabled(w, m) && id in Step(w, m).ops
    ensures Step(w, m).ops[id].pid == FORK_FAILED <==>
            FailsFor(w, m, id) || (id in w.ops && w.ops[id].pid == FORK_FAILED)
    ensures id in w.ops && w.ops[id].pid == FORK_FAILED ==> Step(w, m).ops[id] == w.ops[id]
  {
    assert id in w.ops ==> OpInv(w, id);
    assert w.nextOp in w.ops ==> OpInv(w, w.nextOp);
    if m.Other? && m.move.Dispatches? && Dispatch(w.t, m.move.order).1.Some? {
      FinishedIsCurrent(w, m.move.order);
    }
  }

  lemma {:induction false} FailureIsKnown(worlds: seq<World>, moves: seq<Move>, i: nat, id: nat)
    requires Run(worlds, moves) && i < |worlds| && id in worlds[i].ops
    ensures worlds[i].ops[id].pid == FORK_FAILED <==> ForkFailed(worlds, moves, i, id)
  {
    if i > 0 {
      RunKeepsWorld(worlds, moves, i - 1);
      FailureIsMarked(worlds[i - 1], moves[i - 1], id);
      if id in worlds[i - 1].ops {
        FailureIsKnown(worlds, moves, i - 1, id);
      } else {
        NotBefore(worlds, moves, i - 1, id);
      }
      assert ForkFailed(worlds, moves, i, id) <==>
             ForkFailed(worlds, moves, i - 1, id) || FailsFor(worlds[i - 1], moves[i - 1], id);
    }
  }

  lemma ActionsStay(w: World, m: Move, id: nat)
    requires OpsInv(w) && Enabled(w, m) && (id in w.ops || FailsFor(w, m, id))
    ensures id in Step(w, m).ops
  {
    if m.Repeats? {
      assert RepeatOk(w, m.timer);
    }
  }

  /** An action that does not exist yet has had no fork. */
  lemma {:induction false} NotBefore(worlds: seq<World>, moves: seq<Move>, i: nat, id: nat)
    requires Run(worlds, moves) && i < |worlds| && id !in worlds[i].ops
    ensures !ForkFailed(worlds, moves, i, id)
  {
    if i > 0 {
      RunKeepsWorld(worlds, moves, i - 1);
      var w, m := worlds[i - 1], moves[i - 1];
      if id in w.ops || FailsFor(w, m, id) {
        ActionsStay(w, m, id);
      }
      NotBefore(worlds, moves, i - 1, id);
    }
  }

  /**
   In every run: a recurring action has exactly one of a tracked process and a pending timer as
   long as its forks succeed, and neither once one has failed. It never has two of either, so
   two runs of it never overlap.
   */
  lemma RecurringNeverOverlaps(worlds: seq<World>, moves: seq<Move>, i: nat, id: nat)
    requires Run(worlds, moves) && i < |worlds| && id in worlds[i].ops && worlds[i].ops[id].interval > 0
    ensures var w := worlds[i];
      && (!ForkFailed(worlds, moves, i, id) <==> (exists pid :: RunsAs(w, id, pid)) || exists t :: WaitsFor(w, id, t))
      && !((exists pid :: RunsAs(w, id, pid)) && exists t :: WaitsFor(w, id, t))
      && (forall a, b :: RunsAs(w, id, a) && RunsAs(w, id, b) ==> a == b)
      && (forall a, b :: WaitsFor(w, id, a) && WaitsFor(w, id, b) ==> a == b)
      && !w.ops[id].freed
  {
    RunKeepsWorld(worlds, moves, i);
    FailureIsKnown(worlds, moves, i, id);
    var w := worlds[i];
    assert OpInv(w, id);
    if w.ops[id].pid > 0 {
      assert RunsAs(w, id, w.ops[id].pid);
    } else if w.ops[id].pid == 0 {
      assert WaitsFor(w, id, w.ops[id].repeat);
    }
  }

  /**
   In every run: a one-shot action has given its one result and is released exactly if its fork
   succeeded and its process is gone. After a failed fork it is never released.
   */
  lemma OneShotIsReleasedOnce(worlds: seq<World>, moves: seq<Move>, i: nat, id: nat)
    requires Run(worlds, moves) && i < |worlds| && id in worlds[i].ops && worlds[i].ops[id].interval == 0
    ensures var w := worlds[i];
      && (w.ops[id].freed <==> |w.ops[id].results| == 1) && |w.ops[id].results| <= 1
      && (w.ops[id].freed <==> !ForkFailed(worlds, moves, i, id) && !exists pid :: RunsAs(w, id, pid))
      && !exists timer :: WaitsFor(w, id, timer)
  {
    RunKeepsWorld(worlds, moves, i);
    FailureIsKnown(worlds, moves, i, id);
    var w := worlds[i];
    assert OpInv(w, id);
    if w.ops[id].pid > 0 {
      assert RunsAs(w, id, w.ops[id].pid);
    }
  }

  /** In every run: after a failed fork nothing happens to the action any more. */
  lemma {:induction false} ForkFailureIsFinal(worlds: seq<World>, moves: seq<Move>, i: nat, j: nat, id: nat)
    requires Run(worlds, moves) && i <= j < |worlds| && id in worlds[i].ops && ForkFailed(worlds, moves, i, id)
    ensures id in worlds[j].ops && worlds[j].ops[id] == worlds[i].ops[id]
  {
    FailureIsKnown(worlds, moves, i, id);
    if i < j {
      ForkFailureIsFinal(worlds, moves, i, j - 1, id);
      RunKeepsWorld(worlds, moves, j - 1);
      ActionsStay(worlds[j - 1], moves[j - 1], id);
      FailureIsMarked(worlds[j - 1], moves[j - 1], id);
    }
  }

  /** In every run: the action called back waits for that very process, and a timeout follows a SIGKILL. */
  lemma ResultsAreEarned(worlds: seq<World>, moves: seq<Move>, i: nat, order: seq<int>)
    requires Run(worlds, moves) && i < |worlds| && WaitOrder(worlds[i].t, order)
    requires Dispatch(worlds[i].t, order).1.Some?
    ensures var w, (p, exit) := worlds[i], Dispatch(worlds[i].t, order).1.value;
      && p.data in w.ops && w.ops[p.data].pid == p.pid && !w.ops[p.data].freed
      && (ResultOf(p, exit).status == TimedOut ==> Kills(w.t.log, p.uid) == 1)
  {
    RunKeepsWorld(worlds, moves, i);
    FinishedIsCurrent(worlds[i], order);
  }

  /** A request whose fork fails, for an action of either kind. */
  lemma RequestForkFails(interval: nat) returns (worlds: seq<World>, moves: seq<Move>)
    ensures Run(worlds, moves) && 0 in worlds[|moves|].ops && worlds[|moves|].ops[0].interval == interval
    ensures ForkFailed(worlds, moves, |moves|, 0)
  {
    moves := [Requested(interval, 0, FORK_FAILED)];
    worlds := [IDLE, Step(IDLE, moves[0])];
    assert FailsFor(worlds[0], moves[0], 0);
  }

  /** A recurring action that ran once, and whose second fork fails. */
  lemma RepeatForkFails(exit: Exit) returns (worlds: seq<World>, moves: seq<Move>)
    ensures Run(worlds, moves) && 0 in worlds[|moves|].ops && worlds[|moves|].ops[0].interval > 0
    ensures ForkFailed(worlds, moves, |moves|, 0) && |worlds[|moves|].ops[0].results| == 1
  {
    moves := [Requested(1, 0, 2), Other(Exits(2, exit)), Other(Dispatches([2])), Repeats(0, FORK_FAILED)];
    var w1 := Step(IDLE, moves[0]);
    var w2 := Step(w1, moves[1]);
    assert WaitOrder(w2.t, [2]);
    var w3 := Step(w2, moves[2]);
    var w4 := Step(w3, moves[3]);
    worlds := [IDLE, w1, w2, w3, w4];
    assert FailsFor(worlds[3], moves[3], 0);
  }

  // ----- What an action was asked for -----

  /** In every run: an action has the interval and timeout it was requested with. */
  lemma {:induction false} ActionIsAsRequested(worlds: seq<World>, moves: seq<Move>, i: nat, id: nat) returns (j: nat)
    requires Run(worlds, moves) && i < |worlds| && id in worlds[i].ops
    ensures j < i && moves[j].Requested? && id == worlds[j].nextOp
    ensures worlds[i].ops[id].interval == moves[j].interval && worlds[i].ops[id].timeout == moves[j].timeout
  {
    RunKeepsOps(worlds, moves, i - 1);
    KeepsRequest(worlds[i - 1], moves[i - 1], id);
    if id in worlds[i - 1].ops {
      j := ActionIsAsRequested(worlds, moves, i - 1, id);
    } else {
      j := i - 1;
    }
  }

  lemma RunKeepsOps(worlds: seq<World>, moves: seq<Move>, i: nat)
    requires Run(worlds, moves) && i < |worlds|
    ensures OpsInv(worlds[i])
  {
    RunKeepsWorld(worlds, moves, i);
  }

  lemma KeepsRequest(w: World, m: Move, id: nat)
    requires OpsInv(w) && Enabled(w, m) && id in Step(w, m).ops
    ensures var op := Step(w, m).ops[id];
      if id in w.ops then op.interval == w.ops[id].interval && op.timeout == w.ops[id].timeout
      else m.Requested? && id == w.nextOp && op.interval == m.interval && op.timeout == m.timeout
  {
    assert w.nextOp in w.ops ==> OpInv(w, w.nextOp);
    if m.Repeats? {
      assert RepeatOk(w, m.timer);
    }
  }

  /** The process of a running action is watched with the timeout of the action. */
  ghost predicate Watched(w: World, id: nat)
    requires id in w.ops
  {
    w.ops[id].pid > 0 ==>
    w.ops[id].pid in w.t.table && Armed(w.t.table[w.ops[id].pid], w.t.timers, w.ops[id].timeout)
  }

  /** A step of the child table keeps an action watched whose process it keeps. */
  lemma WatchedStep(w: World, m: ChildTracker.Move, t: State, id: nat)
    requires TableInv(w.t) && OpsInv(w) && ChildTracker.Enabled(w.t, m) && t == ChildTracker.Step(w.t, m)
    requires id in w.ops && Watched(w, id) && w.ops[id].pid > 0
    requires var k := w.ops[id].pid; k in t.table && t.table[k].uid == w.t.table[k].uid
    ensures var k := w.ops[id].pid; Armed(t.table[k], t.timers, w.ops[id].timeout)
  {
    var k := w.ops[id].pid;
    assert OpInv(w, id) && EntryOk(w.t, k);
    ArmedStep(w.t, m, k, w.ops[id].timeout);
  }

  lemma ExecuteWatches(w: World, v: World, id: nat, pid: int, other: nat)
    requires TableInv(w.t) && OpsInv(w) && v.t == w.t && Forks(w, pid) && id in v.ops && other in v.ops
    requires other != id ==> other in w.ops && v.ops[other] == w.ops[other] && Watched(w, other)
    ensures Watched(Execute(v, id, pid), other)
  {
    var r := Execute(v, id, pid);
    if pid != FORK_FAILED {
      var add := Add(pid, v.ops[id].timeout, id);
      assert pid in w.t.table ==> EntryOk(w.t, pid);
      if other != id && w.ops[other].pid > 0 {
        assert OpInv(w, other);
        WatchedStep(w, add, r.t, other);
      } else if other == id {
        AddArms(w.t, pid, v.ops[id].timeout, id);
        assert ArmedAs(r.t, pid, v.ops[id].timeout, pid, id);
      }
    }
  }

  lemma StepWatches(w: World, m: Move, id: nat)
    requires WorldInv(w) && Enabled(w, m) && id in Step(w, m).ops
    requires id in w.ops ==> Watched(w, id)
    ensures Watched(Step(w, m), id)
  {
    assert w.nextOp in w.ops ==> OpInv(w, w.nextOp);
    match m
    case Requested(interval, timeout, pid) =>
      ExecuteWatches(w, NewAction(w, interval, timeout), w.nextOp, pid, id);
    case Repeats(timer, pid) =>
      assert RepeatOk(w, timer);
      ExecuteWatches(w, w.(repeats := w.repeats - {timer}), w.repeats[timer], pid, id);
    case Other(move) =>
      OtherWatches(w, move, id);
  }

  lemma OtherWatches(w: World, move: ChildTracker.Move, id: nat)
    requires WorldInv(w) && Enabled(w, Other(move)) && id in w.ops && Watched(w, id)
    ensures id in Step(w, Other(move)).ops && Watched(Step(w, Other(move)), id)
  {
    if w.ops[id].pid > 0 {
      assert OpInv(w, id);
      if move.Dispatches? {
        DispatchWatches(w, move.order, id);
      } else {
        OtherMoveKeepsUids(w.t, move);
        WatchedStep(w, move, ChildTracker.Step(w.t, move), id);
      }
    } else if move.Dispatches? && Dispatch(w.t, move.order).1.Some? {
      FinishedIsCurrent(w, move.order);
    }
  }

  lemma DispatchWatches(w: World, order: seq<int>, id: nat)
    requires TableInv(w.t) && OpsInv(w) && Enabled(w, Other(Dispatches(order)))
    requires id in w.ops && w.ops[id].pid > 0 && Watched(w, id)
    ensures id in DispatchDeaths(w, order).ops && Watched(DispatchDeaths(w, order), id)
  {
    var done, k := Dispatch(w.t, order).1, w.ops[id].pid;
    if done.Some? {
      FinishedIsCurrent(w, order);
    }
    if done.None? || done.value.0.data != id {
      assert OpInv(w, id);
      WatchedStep(w, Dispatches(order), Dispatch(w.t, order).0, id);
    }
  }

  lemma OtherMoveKeepsUids(s: State, move: ChildTracker.Move)
    requires ChildTracker.Enabled(s, move) && !move.Add? && !move.Dispatches?
    ensures var t := ChildTracker.Step(s, move).table;
      t.Keys == s.table.Keys && forall k :: k in t ==> t[k].uid == s.table[k].uid
  {
  }

  lemma {:induction false} RunWatches(worlds: seq<World>, moves: seq<Move>, i: nat, id: nat)
    requires Run(worlds, moves) && i < |worlds| && id in worlds[i].ops
    ensures Watched(worlds[i], id)
  {
    if i > 0 {
      RunKeepsWorld(worlds, moves, i - 1);
      if id in worlds[i - 1].ops {
        RunWatches(worlds, moves, i - 1, id);
      }
      StepWatches(worlds[i - 1], moves[i - 1], id);
    }
  }

  /**
   In every run: a running action with a timeout has a timer pending until its process is sent
   SIGKILL; one without a timeout has none and its process is sent none.
   */
  lemma ActionsTimeOut(worlds: seq<World>, moves: seq<Move>, i: nat, id: nat)
    requires Run(worlds, moves) && i < |worlds| && id in worlds[i].ops && worlds[i].ops[id].pid > 0
    ensures var t, pid := worlds[i].t, worlds[i].ops[id].pid;
      && RunsAs(worlds[i], id, pid)
      && (worlds[i].ops[id].timeout > 0 ==> t.table[pid].timer in t.timers || Kills(t.log, t.table[pid].uid) == 1)
      && (worlds[i].ops[id].timeout == 0 ==> t.table[pid].timer == 0 && Kills(t.log, t.table[pid].uid) == 0)
  {
    RunKeepsWorld(worlds, moves, i);
    RunWatches(worlds, moves, i, id);
    assert OpInv(worlds[i], id);
    assert TableOk(worlds[i], worlds[i].ops[id].pid);
  }

  // ----- What the result of an action tells -----

  /** In every run: a dead child died by an earlier exit. */
  lemma {:induction false} DeadExited(worlds: seq<World>, moves: seq<Move>, i: nat, pid: int) returns (j: nat)
    requires Run(worlds, moves) && i < |worlds| && pid in worlds[i].t.dead
    ensures j < i && moves[j] == Other(Exits(pid, worlds[i].t.dead[pid]))
  {
    var w, m := worlds[i - 1], moves[i - 1];
    assert Enabled(w, m) && worlds[i] == Step(w, m);
    if m.Other? && m.move.Exits? && m.move.pid == pid {
      j := i - 1;
    } else {
      DeadStays(w, m, pid);
      j := DeadExited(worlds, moves, i - 1, pid);
    }
  }

  lemma DeadStays(w: World, m: Move, pid: int)
    requires Enabled(w, m) && pid in Step(w, m).t.dead && !(m.Other? && m.move.Exits? && m.move.pid == pid)
    ensures pid in w.t.dead && w.t.dead[pid] == Step(w, m).t.dead[pid]
  {
    match m
    case Other(move) => TrackerDeadStays(w.t, move, pid);
    case _ =>
  }

  lemma TrackerDeadStays(s: State, m: ChildTracker.Move, pid: int)
    requires ChildTracker.Enabled(s, m) && pid in ChildTracker.Step(s, m).dead && !(m.Exits? && m.pid == pid)
    ensures pid in s.dead && s.dead[pid] == ChildTracker.Step(s, m).dead[pid]
  {
  }

  /** What a process tells by the way it ended: its exit code, a timeout, or another signal. */
  ghost predicate Tells(r: Result, exit: Exit, killed: bool) {
    match exit
    case Exited(code) => r == Result(Done, code)
    case Signaled(_) => r == if killed then Result(TimedOut, 198) else Result(Failed, 194)
  }

  /**
   In every run: the step that handles the death of an action's process adds one result, which
   tells how the process ended: its own exit code; a timeout if a signal ended it and the main
   loop had sent it SIGKILL; a failure by any other signal. No other step adds or changes results.
   */
  lemma ResultTellsExit(worlds: seq<World>, moves: seq<Move>, i: nat, id: nat) returns (j: nat)
    requires Run(worlds, moves) && i < |moves| && id in worlds[i].ops && Finishes(worlds[i], moves[i], id)
    ensures var w, r := worlds[i], worlds[i + 1];
      var pid := w.ops[id].pid;
      && RunsAs(w, id, pid) && j < i && moves[j].Other? && moves[j].move.Exits? && moves[j].move.pid == pid
      && id in r.ops && |r.ops[id].results| == |w.ops[id].results| + 1 && w.ops[id].results <= r.ops[id].results
      && Tells(Last(r.ops[id].results), moves[j].move.exit, Kills(w.t.log, w.t.table[pid].uid) == 1)
  {
    var w, m := worlds[i], moves[i];
    RunKeepsWorld(worlds, moves, i);
    FinishedIsCurrent(w, m.move.order);
    assert TableOk(w, w.ops[id].pid);
    j := DeadExited(worlds, moves, i, w.ops[id].pid);
  }

  lemma ResultsStay(w: World, m: Move, id: nat)
    requires OpsInv(w) && Enabled(w, m) && id in w.ops && !Finishes(w, m, id)
    ensures id in Step(w, m).ops && Step(w, m).ops[id].results == w.ops[id].results
  {
    assert OpInv(w, id);
    assert w.nextOp in w.ops ==> OpInv(w, w.nextOp);
    if m.Repeats? {
      assert RepeatOk(w, m.timer);
    }
  }
}

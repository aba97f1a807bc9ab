/**
 System configuration requests: every run request is answered exactly once, and the record
 kept for its answer is released exactly once, whichever way the request goes. Puppet runs as a
 one-shot action; its callback answers the request.
 */
module Sysconfig {
  import opened Common
  import ChildTracker
  import opened Actions

  datatype Res = Success | NotImplemented | InvalidArgs | DownloadError | BackendError | OtherError

  /** What a key file holds after a run. */
  datatype KeyText =
    | PuppetOk
    | PuppetFailed(rc: int)
    | AugeasOk
    | AugeasFailed(rc: int)
    | NotStarted
    | OtherText(text: string)

  /** A completed run reports the text of its key, if there is one. */
  datatype Answer = Completed(status: Option<KeyText>) | Exception(error: Res)

  datatype Scheme = Puppet | Augeas | UnknownScheme

  /** What a request names: a puppet server, a file to download, or the text itself. */
  datatype Source = Server(named: bool, hasPath: bool) | File | Text

  /** A request, and how each step it may take turns out. */
  datatype Env = Env(
    key: string, keySane: bool, force: bool, scheme: Scheme, source: Source,
    puppetFound: bool, tempMade: bool, tempOpen: bool, download: Res, downloadRead: bool,
    created: bool, pid: int, keyWritten: bool,
    haveAugeas: bool, outMade: bool, outOpen: bool, augeasInit: bool, augeasResult: int, resultsRead: bool)

  /** Requests are numbered; `records` holds what each puppet action carries: its request and key. */
  datatype State = State(
    next: nat, world: World, records: map<nat, (nat, string)>, keys: map<string, KeyText>,
    answers: seq<(nat, Answer)>, released: seq<nat>)

  /** No request yet; key files may be there from before. */
  function Begin(keys: map<string, KeyText>): (s: State) {
    State(0, IDLE, map[], keys, [], [])
  }

  // ----- The steps -----

  function SetKey(s: State, key: string, text: KeyText, written: bool): (r: State) {
    if written then s.(keys := s.keys[key := text]) else s
  }

  function Status(s: State, key: string): (r: Option<KeyText>) {
    if key in s.keys then Some(s.keys[key]) else None
  }

  function Close(s: State, req: nat, a: Answer): (r: State) {
    s.(answers := s.answers + [(req, a)], released := s.released + [req])
  }

  /** The callback given along with a request: answer with the key's text, release the record. */
  function ResultCallback(s: State, req: nat, key: string): (r: State) {
    Close(s, req, Completed(Status(s, key)))
  }

  /** Fetching a file into a temporary one. */
  function Fetch(env: Env): (r: Res) {
    if !env.tempMade || !env.tempOpen then OtherError else env.download
  }

  /** What is checked before a puppet process is started. */
  function PuppetChecks(env: Env): (r: Res) {
    if !env.puppetFound then BackendError
    else
      match env.source
      case Server(named, hasPath) => if !named || hasPath then InvalidArgs else Success
      case File => Fetch(env)
      case Text => Success
  }

  function RunPuppet(s: State, env: Env, req: nat): (r: (State, Res)) {
    var check := PuppetChecks(env);
    if check != Success then (s, check)
    else if !env.created || env.pid == FORK_FAILED then
      (SetKey(s, env.key, NotStarted, env.keyWritten), BackendError)
    else
      (s.(records := s.records[s.world.nextOp := (req, env.key)], world := Request(s.world, 0, 0, env.pid)), Success)
  }

  function AugeasChecks(env: Env): (r: Res) {
    if !env.haveAugeas then NotImplemented
    else if !env.source.Text? && Fetch(env) != Success then Fetch(env)
    else if !env.source.Text? && !env.downloadRead then DownloadError
    else if !env.outMade || !env.outOpen then OtherError
    else if !env.augeasInit || !env.resultsRead then BackendError
    else Success
  }

  function RunAugeas(s: State, env: Env, req: nat): (r: (State, Res)) {
    var check := AugeasChecks(env);
    if check != Success then (s, check)
    else
      var text := if env.augeasResult < 0 then AugeasFailed(env.augeasResult) else AugeasOk;
      (ResultCallback(SetKey(s, env.key, text, env.keyWritten), req, env.key), Success)
  }

  function RunRequest(s: State, env: Env, req: nat): (r: (State, Res)) {
    if !env.keySane then (s, InvalidArgs)
    else if env.key in s.keys && !env.force then (ResultCallback(s, req, env.key), Success)
    else
      match env.scheme
      case Puppet => RunPuppet(s, env, req)
      case Augeas => RunAugeas(s, env, req)
      case UnknownScheme => (s, InvalidArgs)
  }

  lemma InvokeIs(s: State, env: Env, after: State, res: Res)
    requires (after, res) == RunRequest(s.(next := s.next + 1), env, s.next)
    ensures Invoke(s, env) == Respond(after, res, s.next)
  {
  }

  /** A failed run is answered at once. */
  function Respond(s: State, res: Res, req: nat): (r: State) {
    if res == Success then s else Close(s, req, Exception(res))
  }

  function Invoke(s: State, env: Env): (r: State) {
    var (s1, res) := RunRequest(s.(next := s.next + 1), env, s.next);
    Respond(s1, res, s.next)
  }

  function Outcome(rc: int): (text: KeyText) {
    if rc == 0 then PuppetOk else PuppetFailed(rc)
  }

  /** The callback of an action: for puppet the key records the outcome, then the request is answered. */
  function ActionCallback(s: State, action: nat, rc: int, written: bool): (r: State) {
    if action !in s.records then s
    else
      var (req, key) := s.records[action];
      ResultCallback(SetKey(s, key, Outcome(rc), written), req, key)
  }

  class ConfigAgent {
    var next: nat
    const services: Services
    var records: map<nat, (nat, string)>
    var keys: map<string, KeyText>
    var answers: seq<(nat, Answer)>
    var released: seq<nat>

    ghost function View(): (s: State)
      reads this, services, services.loop
    {
      State(next, services.View(), records, keys, answers, released)
    }

    constructor (keys: map<string, KeyText>)
      ensures fresh(services) && fresh(services.loop) && View() == Begin(keys)
    {
      services := new Services();
      next, records, this.keys, answers, released := 0, map[], keys, [], [];
    }

    method SetConfigured(key: string, text: KeyText, written: bool)
      modifies this`keys
      ensures View() == SetKey(old(View()), key, text, written)
    {
      if written {
        keys := keys[key := text];
      }
    }

    method ResultCb(req: nat, key: string)
      modifies this`answers, this`released
      ensures View() == ResultCallback(old(View()), req, key)
    {
      var status := if key in keys then Some(keys[key]) else None;
      answers := answers + [(req, Completed(status))];
      released := released + [req];
    }

    method StartPuppet(env: Env, req: nat) returns (res: Res)
      modifies this, services, services.loop
      ensures (View(), res) == RunPuppet(old(View()), env, req)
    {
      if !env.puppetFound {
        return BackendError;
      }
      match env.source {
        case Server(named, hasPath) =>
          if !named || hasPath {
            return InvalidArgs;
          }
        case File =>
          res := Fetch(env);
          if res != Success {
            return;
          }
        case Text =>
      }
      if !env.created || env.pid == FORK_FAILED {
        SetConfigured(env.key, NotStarted, env.keyWritten);
        return BackendError;
      }
      records := records[services.nextOp := (req, env.key)];
      var _ := services.Start(0, 0, env.pid);
      res := Success;
    }

    method StartAugeas(env: Env, req: nat) returns (res: Res)
      modifies this
      ensures (View(), res) == RunAugeas(old(View()), env, req)
    {
      res := AugeasChecks(env);
      if res == Success {
        var text := if env.augeasResult < 0 then AugeasFailed(env.augeasResult) else AugeasOk;
        SetConfigured(env.key, text, env.keyWritten);
        ResultCb(req, env.key);
      }
    }

    method RunUri(env: Env, req: nat) returns (res: Res)
      modifies this, services, services.loop
      ensures (View(), res) == RunRequest(old(View()), env, req)
    {
      res := InvalidArgs;
      if env.keySane {
        if env.key in keys && !env.force {
          ResultCb(req, env.key);
          res := Success;
        } else if env.scheme == Puppet {
          res := StartPuppet(env, req);
        } else if env.scheme == Augeas {
          res := StartAugeas(env, req);
        }
      }
    }

    method InvokeRun(env: Env)
      modifies this, services, services.loop
      ensures View() == Invoke(old(View()), env)
    {
      ghost var start := View();
      var req := next;
      next := next + 1;
      var res := RunUri(env, req);
      ghost var after := View();
      Reply(req, res);
      InvokeIs(start, env, after, res);
    }

    method Reply(req: nat, res: Res)
      modifies this`answers, this`released
      ensures View() == Respond(old(View()), res, req)
    {
      if res != Success {
        answers := answers + [(req, Exception(res))];
        released := released + [req];
      }
    }

    method ActionCb(action: nat, rc: int, written: bool)
      requires action in records
      modifies this`keys, this`answers, this`released
      ensures View() == ActionCallback(old(View()), action, rc, written)
    {
      var (req, key) := records[action];
      SetConfigured(key, if rc != 0 then PuppetFailed(rc) else PuppetOk, written);
      ResultCb(req, key);
    }

    /** A death is handled; the callback of its action runs. */
    method HandleDeaths(written: bool)
      requires forall k :: k in services.loop.table ==> services.loop.table[k].data in services.ops
      modifies this, services, services.loop
      ensures exists order ::
        && ChildTracker.WaitOrder(old(View()).world.t, order)
        && View() == AfterDispatch(old(View()), order, written)
    {
      var done := services.HandleDeaths();
      ghost var order :|
        && ChildTracker.WaitOrder(old(services.View()).t, order)
        && done == ChildTracker.Dispatch(old(services.View()).t, order).1
        && services.View() == DispatchDeaths(old(services.View()), order);
      if done.Some? {
        var (p, exit) := done.value;
        if p.data in records {
          ActionCb(p.data, ResultOf(p, exit).rc, written);
        }
      }
      assert ChildTracker.WaitOrder(old(View()).world.t, order) && View() == AfterDispatch(old(View()), order, written);
    }
  }

  function AfterDispatch(s: State, order: seq<int>, written: bool): (r: State)
    requires ChildTracker.WaitOrder(s.world.t, order)
  {
    CalledBack(s.(world := DispatchDeaths(s.world, order)), ChildTracker.Dispatch(s.world.t, order).1, written)
  }

  function CalledBack(s: State, done: Option<(ChildTracker.Child, ChildTracker.Exit)>, written: bool): (r: State) {
    match done
    case Some((p, exit)) => ActionCallback(s, p.data, ResultOf(p, exit).rc, written)
    case None => s
  }

  // ----- What every step keeps -----

  function Answers(log: seq<(nat, Answer)>, req: nat): (n: nat) {
    if log == [] then 0 else Answers(log[..|log| - 1], req) + if log[|log| - 1].0 == req then 1 else 0
  }

  function Releases(log: seq<nat>, req: nat): (n: nat) {
    if log == [] then 0 else Releases(log[..|log| - 1], req) + if log[|log| - 1] == req then 1 else 0
  }

  /** The request has a puppet action that is not released yet. */
  ghost predicate Pending(s: State, req: nat) {
    exists a :: a in s.records && s.records[a].0 == req && a in s.world.ops && !s.world.ops[a].freed
  }

  ghost predicate RecordsInv(s: State) {
    && (forall a :: a in s.records ==> OneShot(s.world, a) && s.records[a].0 < s.next)
    && (forall a, b :: a in s.records && b in s.records && s.records[a].0 == s.records[b].0 ==> a == b)
  }

  ghost predicate AnswersInv(s: State) {
    forall req: nat ::
      Answers(s.answers, req) == Releases(s.released, req) == if req < s.next && !Pending(s, req) then 1 else 0
  }

  ghost predicate AgentInv(s: State) {
    WorldInv(s.world) && RecordsInv(s) && AnswersInv(s)
  }

  /** From `s` to `r` exactly the request `req` was answered, and its record released. */
  ghost predicate Closes(s: State, r: State, req: nat) {
    && (exists a :: r.answers == s.answers + [(req, a)])
    && r.released == s.released + [req]
  }

  /** From `s` to `r` nothing was answered or released. */
  ghost predicate KeepsOpen(s: State, r: State) {
    r.answers == s.answers && r.released == s.released
  }

  lemma CloseCounts(s: State, r: State, req: nat, other: nat)
    requires Closes(s, r, req)
    ensures Answers(r.answers, other) == Answers(s.answers, other) + if other == req then 1 else 0
    ensures Releases(r.released, other) == Releases(s.released, other) + if other == req then 1 else 0
  {
  }

  /** A run that returns success has called back, or left that to an action; a failed one did neither. */
  lemma RunCallsBackOnce(s: State, env: Env, req: nat)
    ensures var (r, res) := RunRequest(s, env, req);
      && r.next == s.next
      && (res != Success ==> KeepsOpen(s, r) && r.records == s.records && r.world == s.world)
      && (res == Success ==>
            || (Closes(s, r, req) && r.records == s.records && r.world == s.world)
            || (KeepsOpen(s, r) && StartsPuppet(s, r, env, req)))
  {
  }

  ghost predicate StartsPuppet(s: State, r: State, env: Env, req: nat) {
    && env.scheme == Puppet && env.pid != FORK_FAILED
    && r.records == s.records[s.world.nextOp := (req, env.key)]
    && r.world == Request(s.world, 0, 0, env.pid)
  }

  lemma InvokeAnswersOrWaits(s: State, env: Env)
    ensures var r := Invoke(s, env);
      && r.next == s.next + 1
      && (|| (Closes(s, r, s.next) && r.records == s.records && r.world == s.world)
          || (KeepsOpen(s, r) && StartsPuppet(s, r, env, s.next)))
  {
    var begun := s.(next := s.next + 1);
    var (after, res) := RunRequest(begun, env, s.next);
    RunCallsBackOnce(begun, env, s.next);
    InvokeIs(s, env, after, res);
    if res != Success {
      assert Respond(after, res, s.next).answers == s.answers + [(s.next, Exception(res))];
    }
  }

  lemma InvokeKeeps(s: State, env: Env)
    requires AgentInv(s) && Forks(s.world, env.pid)
    ensures AgentInv(Invoke(s, env))
  {
    InvokeAnswersOrWaits(s, env);
    var r := Invoke(s, env);
    if KeepsOpen(s, r) {
      RequestKeeps(s.world, 0, 0, env.pid);
      StartedKeeps(s, r, env);
    } else {
      ClosedKeeps(s, r);
    }
  }

  lemma ClosedKeeps(s: State, r: State)
    requires RecordsInv(s) && AnswersInv(s) && Closes(s, r, s.next)
    requires r.next == s.next + 1 && r.records == s.records && r.world == s.world
    ensures RecordsInv(r) && AnswersInv(r)
  {
    forall req: nat
      ensures Pending(r, req) <==> Pending(s, req)
      ensures Answers(r.answers, req) == Releases(r.released, req) == if req < r.next && !Pending(r, req) then 1 else 0
    {
      CloseCounts(s, r, s.next, req);
    }
  }

  lemma StartedRecords(s: State, r: State, env: Env)
    requires OpsInv(s.world) && RecordsInv(s) && r.next == s.next + 1
    requires StartsPuppet(s, r, env, s.next) && Forks(s.world, env.pid)
    ensures RecordsInv(r) && s.world.nextOp !in s.world.ops
    ensures s.world.nextOp in r.world.ops && !r.world.ops[s.world.nextOp].freed
    ensures forall a :: a in s.world.ops ==> a in r.world.ops && r.world.ops[a] == s.world.ops[a]
  {
    assert s.world.nextOp in s.world.ops ==> OpInv(s.world, s.world.nextOp);
  }

  lemma StartedKeeps(s: State, r: State, env: Env)
    requires OpsInv(s.world) && RecordsInv(s) && AnswersInv(s)
    requires KeepsOpen(s, r) && r.next == s.next + 1 && StartsPuppet(s, r, env, s.next) && Forks(s.world, env.pid)
    ensures RecordsInv(r) && AnswersInv(r)
  {
    StartedRecords(s, r, env);
    assert r.records[s.world.nextOp].0 == s.next;
    forall req: nat
      ensures Pending(r, req) <==> req == s.next || Pending(s, req)
    {
      if req != s.next && Pending(s, req) {
        var a :| a in s.records && s.records[a].0 == req && a in s.world.ops && !s.world.ops[a].freed;
        assert a in r.records && r.records[a].0 == req;
      }
    }
  }

  // ----- Every run -----

  /** A request, or a step of the actions; `written` says whether a key file could be written. */
  datatype Move = Invokes(env: Env) | Acts(move: Actions.Move, written: bool)

  ghost predicate Enabled(s: State, m: Move) {
    match m
    case Invokes(env) => Forks(s.world, env.pid)
    case Acts(move, _) => Actions.Enabled(s.world, move)
  }

  ghost function Step(s: State, m: Move): (r: State)
    requires Enabled(s, m)
  {
    match m
    case Invokes(env) => Invoke(s, env)
    case Acts(move, written) =>
      CalledBack(s.(world := Actions.Step(s.world, move)), FinishedBy(s.world, move), written)
  }

  /** The action whose callback answers a request in this step. */
  ghost predicate Answering(s: State, m: Move, a: nat)
    requires Enabled(s, m)
  {
    m.Acts? && a in s.records && Finishes(s.world, m.move, a)
  }

  lemma ActsKeepsRecords(s: State, m: Move)
    requires OpsInv(s.world) && RecordsInv(s) && Enabled(s, m) && m.Acts?
    ensures RecordsInv(Step(s, m))
    ensures Step(s, m).records == s.records && Step(s, m).next == s.next
    ensures forall a :: a in s.records ==>
      && (Step(s, m).world.ops[a].freed <==> s.world.ops[a].freed || Answering(s, m, a))
      && (Answering(s, m, a) ==> !s.world.ops[a].freed)
  {
    forall a | a in s.records
      ensures OneShot(Step(s, m).world, a)
      ensures Step(s, m).world.ops[a].freed <==> s.world.ops[a].freed || Answering(s, m, a)
      ensures Answering(s, m, a) ==> !s.world.ops[a].freed
    {
      OneShotStep(s.world, m.move, a);
    }
  }

  lemma ActsKeeps(s: State, m: Move)
    requires AgentInv(s) && Enabled(s, m) && m.Acts?
    ensures AgentInv(Step(s, m))
  {
    StepKeepsWorld(s.world, m.move);
    ActsKeepsRecords(s, m);
    ActsKeepsAnswers(s, m);
  }

  lemma ActsKeepsAnswers(s: State, m: Move)
    requires OpsInv(s.world) && RecordsInv(s) && AnswersInv(s) && Enabled(s, m) && m.Acts?
    ensures AnswersInv(Step(s, m))
  {
    var r := Step(s, m);
    ActsKeepsRecords(s, m);
    if a :| Answering(s, m, a) {
      AnsweringCloses(s, m, a);
      CallbackKeeps(s, r, a);
    } else {
      assert KeepsOpen(s, r);
      assert forall req :: Pending(r, req) <==> Pending(s, req);
    }
  }

  lemma AnsweringCloses(s: State, m: Move, a: nat)
    requires Enabled(s, m) && Answering(s, m, a)
    ensures Closes(s, Step(s, m), s.records[a].0)
  {
  }

  lemma CallbackKeeps(s: State, r: State, a: nat)
    requires RecordsInv(s) && RecordsInv(r) && AnswersInv(s) && r.records == s.records && r.next == s.next
    requires a in s.records && Closes(s, r, s.records[a].0)
    requires !s.world.ops[a].freed && r.world.ops[a].freed
    requires forall b :: b in s.records && b != a ==> r.world.ops[b].freed == s.world.ops[b].freed
    ensures AnswersInv(r)
  {
    var req := s.records[a].0;
    forall other: nat
      ensures Pending(r, other) <==> Pending(s, other) && other != req
      ensures Answers(r.answers, other) == Answers(s.answers, other) + if other == req then 1 else 0
      ensures Releases(r.released, other) == Releases(s.released, other) + if other == req then 1 else 0
    {
      CloseCounts(s, r, req, other);
    }
    assert Pending(s, req);
  }

  ghost predicate Run(states: seq<State>, moves: seq<Move>, keys: map<string, KeyText>) {
    && |states| == |moves| + 1
    && states[0] == Begin(keys)
    && forall i :: 0 <= i < |moves| ==> Enabled(states[i], moves[i]) && states[i + 1] == Step(states[i], moves[i])
  }

  lemma {:induction false} RunKeepsAgent(states: seq<State>, moves: seq<Move>, keys: map<string, KeyText>, i: nat)
    requires Run(states, moves, keys) && i < |states|
    ensures AgentInv(states[i])
  {
    if i > 0 {
      RunKeepsAgent(states, moves, keys, i - 1);
      match moves[i - 1]
      case Invokes(env) => InvokeKeeps(states[i - 1], env);
      case Acts(_, _) => ActsKeeps(states[i - 1], moves[i - 1]);
    }
  }

  /** A puppet process of the request is in the table of children. */
  ghost predicate HasProcess(s: State, req: nat) {
    exists a, pid :: a in s.records && s.records[a].0 == req && RunsAs(s.world, a, pid)
  }

  lemma PendingHasProcess(s: State, req: nat)
    requires OpsInv(s.world) && RecordsInv(s)
    ensures Pending(s, req) <==> HasProcess(s, req)
  {
    if Pending(s, req) {
      var a :| a in s.records && s.records[a].0 == req && a in s.world.ops && !s.world.ops[a].freed;
      assert OpInv(s.world, a);
      assert RunsAs(s.world, a, s.world.ops[a].pid);
    }
    if HasProcess(s, req) {
      var a, pid :| a in s.records && s.records[a].0 == req && RunsAs(s.world, a, pid);
      assert TableOk(s.world, pid) && OpInv(s.world, a);
    }
  }

  /**
   In every run, whatever key files there were: a request is answered exactly once, and its record
   released exactly once, from the moment it has no process; before that neither happened.
   */
  lemma AnsweredExactlyOnce(
    states: seq<State>, moves: seq<Move>, keys: map<string, KeyText>, i: nat, req: nat)
    requires Run(states, moves, keys) && i < |states| && req < states[i].next
    ensures var n := if HasProcess(states[i], req) then 0 else 1;
      Answers(states[i].answers, req) == n && Releases(states[i].released, req) == n
  {
    RunKeepsAgent(states, moves, keys, i);
    PendingHasProcess(states[i], req);
  }

  /** A puppet action belongs to an earlier puppet request for its key. */
  lemma {:induction false} ActionWasRequested(
    states: seq<State>, moves: seq<Move>, keys: map<string, KeyText>, i: nat, a: nat) returns (j: nat)
    requires Run(states, moves, keys) && i < |states| && a in states[i].records
    ensures j < i && moves[j].Invokes? && moves[j].env.scheme == Puppet
    ensures states[i].records[a] == (states[j].next, moves[j].env.key)
  {
    var s, m := states[i - 1], moves[i - 1];
    assert Enabled(s, m) && states[i] == Step(s, m);
    if a in s.records && states[i].records[a] == s.records[a] {
      j := ActionWasRequested(states, moves, keys, i - 1, a);
    } else {
      j := i - 1;
      InvokeAnswersOrWaits(s, m.env);
    }
  }

  /** In every run: a dead child died by an earlier exit. */
  lemma {:induction false} ExitWasSeen(
    states: seq<State>, moves: seq<Move>, keys: map<string, KeyText>, i: nat, pid: int) returns (j: nat)
    requires Run(states, moves, keys) && i < |states| && pid in states[i].world.t.dead
    ensures j < i && IsExit(moves[j], pid, states[i].world.t.dead[pid])
  {
    var s, m := states[i - 1], moves[i - 1];
    assert Enabled(s, m) && states[i] == Step(s, m);
    if m.Acts? && m.move.Other? && m.move.move.Exits? && m.move.move.pid == pid {
      j := i - 1;
    } else {
      DeadStaysDead(s, m, pid);
      j := ExitWasSeen(states, moves, keys, i - 1, pid);
    }
  }

  ghost predicate IsExit(m: Move, pid: int, exit: ChildTracker.Exit) {
    m.Acts? && m.move == Other(ChildTracker.Exits(pid, exit))
  }

  lemma DeadStaysDead(s: State, m: Move, pid: int)
    requires Enabled(s, m) && pid in Step(s, m).world.t.dead
    requires !(m.Acts? && m.move.Other? && m.move.move.Exits? && m.move.move.pid == pid)
    ensures pid in s.world.t.dead && s.world.t.dead[pid] == Step(s, m).world.t.dead[pid]
  {
    match m
    case Invokes(env) => InvokeAnswersOrWaits(s, env);
    case Acts(move, _) => DeadStays(s.world, move, pid);
  }

  /** The text that tells how a puppet process ended: OK for the exit code 0 alone. */
  ghost predicate TellsExit(text: KeyText, exit: ChildTracker.Exit, killed: bool) {
    match exit
    case Exited(code) => text == if code == 0 then PuppetOk else PuppetFailed(code)
    case Signaled(_) => text == PuppetFailed(if killed then 198 else 194)
  }

  /**
   In every run: when the process of a puppet action has ended and its death is handled, the request
   that started it is answered. The answer tells how the process ended exactly if the key file could
   be written or said so before; if it could be written, it says so from then on.
   */
  lemma PuppetAnswerTellsOutcome(
    states: seq<State>, moves: seq<Move>, keys: map<string, KeyText>, i: nat, a: nat)
    returns (j: nat, l: nat, outcome: KeyText)
    requires Run(states, moves, keys) && i < |moves| && Answering(states[i], moves[i], a)
    ensures j < i && moves[j].Invokes? && moves[j].env.scheme == Puppet
    ensures exists answer :: states[i + 1].answers == states[i].answers + [(states[j].next, answer)]
    ensures var w, key := states[i].world, moves[j].env.key;
      && a in w.ops && RunsAs(w, a, w.ops[a].pid) && l < i && moves[l].Acts?
      && moves[l].move.Other? && moves[l].move.move.Exits? && moves[l].move.move.pid == w.ops[a].pid
      && TellsExit(outcome, moves[l].move.move.exit,
                   ChildTracker.Kills(w.t.log, w.t.table[w.ops[a].pid].uid) == 1)
      && (Last(states[i + 1].answers).1 == Completed(Some(outcome)) <==>
            moves[i].written || Status(states[i], key) == Some(outcome))
      && states[i + 1].keys == if moves[i].written then states[i].keys[key := outcome] else states[i].keys
  {
    var s, m := states[i], moves[i];
    RunKeepsAgent(states, moves, keys, i);
    FinishedIsCurrent(s.world, m.move.move.order);
    assert TableOk(s.world, s.world.ops[a].pid);
    var (p, exit) := FinishedBy(s.world, m.move).value;
    outcome := Outcome(ResultOf(p, exit).rc);
    j := ActionWasRequested(states, moves, keys, i, a);
    l := ExitWasSeen(states, moves, keys, i, p.pid);
    CallbackTells(s, m, a);
  }

  lemma CallbackTells(s: State, m: Move, a: nat)
    requires Enabled(s, m) && Answering(s, m, a)
    ensures var r, (req, key) := Step(s, m), s.records[a];
      var (p, exit) := FinishedBy(s.world, m.move).value;
      var outcome := Outcome(ResultOf(p, exit).rc);
      && r.keys == (if m.written then s.keys[key := outcome] else s.keys)
      && r.answers == s.answers + [(req, Completed(if m.written then Some(outcome) else Status(s, key)))]
  {
  }

  // ----- What becomes of each request -----

  /** The result of the first step that fails, from step `k` on. */
  function FirstFailure(steps: seq<(bool, Res)>, k: nat): (res: Res)
    requires k <= |steps|
    decreases |steps| - k
  {
    if k == |steps| then Success else if steps[k].0 then steps[k].1 else FirstFailure(steps, k + 1)
  }

  /** What can go wrong with a puppet request, in order. */
  function PuppetFailures(env: Env): (steps: seq<(bool, Res)>) {
    [(!env.puppetFound, BackendError),
     (env.source.Server? && !env.source.named, InvalidArgs),
     (env.source.Server? && env.source.hasPath, InvalidArgs),
     (env.source.File? && !env.tempMade, OtherError),
     (env.source.File? && !env.tempOpen, OtherError),
     (env.source.File? && env.download != Success, env.download),
     (!env.created, BackendError),
     (env.pid == FORK_FAILED, BackendError)]
  }

  /** What can go wrong with an augeas request, in order. */
  function AugeasFailures(env: Env): (steps: seq<(bool, Res)>) {
    [(!env.haveAugeas, NotImplemented),
     (!env.source.Text? && !env.tempMade, OtherError),
     (!env.source.Text? && !env.tempOpen, OtherError),
     (!env.source.Text? && env.download != Success, env.download),
     (!env.source.Text? && !env.downloadRead, DownloadError),
     (!env.outMade, OtherError),
     (!env.outOpen, OtherError),
     (!env.augeasInit, BackendError),
     (!env.resultsRead, BackendError)]
  }

  /** The request does something: its key is good, and not configured yet unless that is forced. */
  predicate Runs(s: State, env: Env) {
    env.keySane && (env.key in s.keys ==> env.force)
  }

  lemma FetchFailsFirst(env: Env)
    ensures var steps := PuppetFailures(env);
      FirstFailure(steps, 3) == if env.source.File? && Fetch(env) != Success then Fetch(env) else FirstFailure(steps, 6)
  {
    var steps := PuppetFailures(env);
    assert FirstFailure(steps, 5) ==
      if env.source.File? && env.download != Success then env.download else FirstFailure(steps, 6);
    assert FirstFailure(steps, 4) ==
      if env.source.File? && !env.tempOpen then OtherError else FirstFailure(steps, 5);
  }

  lemma StartFailsFirst(env: Env)
    ensures FirstFailure(PuppetFailures(env), 6) ==
      if !env.created || env.pid == FORK_FAILED then BackendError else Success
  {
    assert FirstFailure(PuppetFailures(env), 8) == Success;
  }

  lemma PuppetFailsFirst(env: Env)
    ensures FirstFailure(PuppetFailures(env), 0) ==
      if PuppetChecks(env) != Success then PuppetChecks(env)
      else if !env.created || env.pid == FORK_FAILED then BackendError else Success
  {
    FetchFailsFirst(env);
    StartFailsFirst(env);
    assert FirstFailure(PuppetFailures(env), 1) ==
      if env.source.Server? && (!env.source.named || env.source.hasPath) then InvalidArgs
      else FirstFailure(PuppetFailures(env), 3);
  }

  lemma AugeasFailsFirst(env: Env)
    ensures FirstFailure(AugeasFailures(env), 0) == AugeasChecks(env)
  {
    var steps := AugeasFailures(env);
    assert FirstFailure(steps, 9) == Success;
    assert FirstFailure(steps, 7) == if !env.augeasInit || !env.resultsRead then BackendError else Success;
    assert FirstFailure(steps, 5) == if !env.outMade || !env.outOpen then OtherError else FirstFailure(steps, 7);
    assert FirstFailure(steps, 3) ==
      if env.source.Text? then FirstFailure(steps, 5)
      else if env.download != Success then env.download
      else if !env.downloadRead then DownloadError else FirstFailure(steps, 5);
    assert FirstFailure(steps, 1) ==
      if env.source.Text? then FirstFailure(steps, 5)
      else if !env.tempMade || !env.tempOpen then OtherError else FirstFailure(steps, 3);
  }

  /** What can go wrong with a request, in order. */
  function Failures(s: State, env: Env): (steps: seq<(bool, Res)>) {
    if !env.keySane then [(true, InvalidArgs)]
    else if !Runs(s, env) then []
    else if env.scheme == Puppet then PuppetFailures(env)
    else if env.scheme == Augeas then AugeasFailures(env)
    else [(true, InvalidArgs)]
  }

  /** The result of a request: that of the first thing that goes wrong. */
  lemma RequestResult(s: State, env: Env, req: nat)
    ensures RunRequest(s, env, req).1 == FirstFailure(Failures(s, env), 0)
  {
    PuppetFailsFirst(env);
    AugeasFailsFirst(env);
  }

  /**
   A good key that is configured already is answered at once with its text, unless the run is
   forced. Otherwise puppet starts a process and augeas answers at once with its own outcome; only
   the key of the request changes, and only where it can be written.
   */
  lemma RequestEffects(s: State, env: Env, req: nat)
    ensures var (r, res) := RunRequest(s, env, req);
      && (env.keySane && !Runs(s, env) ==>
            r == Close(s, req, Completed(Some(s.keys[env.key]))))
      && (res == Success && Runs(s, env) && env.scheme == Puppet ==>
            r.keys == s.keys && KeepsOpen(s, r) && StartsPuppet(s, r, env, req))
      && (res == Success && Runs(s, env) && env.scheme == Augeas ==>
            var text := if env.augeasResult < 0 then AugeasFailed(env.augeasResult) else AugeasOk;
            && r.keys == (if env.keyWritten then s.keys[env.key := text] else s.keys)
            && r.answers == s.answers + [(req, Completed(if env.keyWritten then Some(text) else Status(s, env.key)))])
      && (res != Success ==>
            var failed := env.scheme == Puppet && Runs(s, env) && PuppetChecks(env) == Success;
            r == s.(keys := if failed && env.keyWritten then s.keys[env.key := NotStarted] else s.keys))
  {
  }

  /** A failed request is answered with its error; the others as above. */
  lemma FailureIsAnswered(s: State, env: Env)
    ensures var (r, res) := RunRequest(s.(next := s.next + 1), env, s.next);
      var failed := r.(answers := r.answers + [(s.next, Exception(res))], released := r.released + [s.next]);
      Invoke(s, env) == if res == Success then r else failed
  {
  }
}

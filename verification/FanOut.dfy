/**
 Calling a method on many objects at once. The caller sends one request after the other while
 another thread takes in the responses; a lock makes sending a request and noting its
 sequence number one step for the receiver.
 */
module FanOut {
  import opened Common

  datatype Response = Response(number: nat, body: string)

  /** A response on its way into its slot: looked up, then stored, then checked for completion. */
  datatype Receiver = Receiver(slot: nat, response: Response, stored: bool)

  /**
   One invocation on `calls` objects. `earlier` are the sequence numbers issued before it;
   `sending` is a request sent but not noted yet, during which the lock is held.
   */
  datatype State = State(
    calls: nat, earlier: set<nat>, sending: Option<nat>, seqs: seq<nat>,
    results: seq<Option<Response>>, receivers: seq<Receiver>, event: bool)

  function Start(calls: nat, earlier: set<nat>): (s: State) {
    State(calls, earlier, None, [], seq(calls, _ => None), [], false)
  }

  datatype Move =
    | Send(number: nat)
    | Note
    | Receive(response: Response)
    | Store(receiver: nat)
    | Check(receiver: nat)

  /** The sequence numbers a response can carry: those issued, in this invocation or before. */
  predicate Issued(s: State, number: nat) {
    number in s.earlier || number in s.seqs || s.sending == Some(number)
  }

  ghost predicate Enabled(s: State, m: Move) {
    match m
    case Send(number) => s.sending == None && |s.seqs| < s.calls && !Issued(s, number)
    case Note => s.sending.Some?
    case Receive(response) => s.sending == None && Issued(s, response.number)
    case Store(k) => k < |s.receivers| && !s.receivers[k].stored
    case Check(k) => k < |s.receivers| && s.receivers[k].stored
  }

  /** The response is looked up under the lock; a number that is not found ends the receiver. */
  function Lookup(s: State, response: Response): (r: State) {
    if response.number !in s.seqs then s
    else s.(receivers := s.receivers + [Receiver(IndexOf(s.seqs, response.number), response, false)])
  }

  function StoreResult(s: State, k: nat): (r: State)
    requires k < |s.receivers|
  {
    var rx := s.receivers[k];
    s.(receivers := s.receivers[k := rx.(stored := true)],
       results := if rx.slot < |s.results| then s.results[rx.slot := Some(rx.response)] else s.results)
  }

  function CheckComplete(s: State, k: nat): (r: State)
    requires k < |s.receivers|
  {
    s.(receivers := s.receivers[..k] + s.receivers[k + 1..], event := s.event || None !in s.results)
  }

  ghost function Step(s: State, m: Move): (r: State)
    requires Enabled(s, m)
  {
    match m
    case Send(number) => s.(sending := Some(number))
    case Note => s.(sending := None, seqs := s.seqs + [s.sending.value])
    case Receive(response) => Lookup(s, response)
    case Store(k) => StoreResult(s, k)
    case Check(k) => CheckComplete(s, k)
  }

  // ----- What every step keeps -----

  ghost predicate SeqInv(s: State) {
    && |s.results| == s.calls
    && |s.seqs| + (if s.sending.Some? then 1 else 0) <= s.calls
    && (forall i, j :: 0 <= i < j < |s.seqs| ==> s.seqs[i] != s.seqs[j])
    && (forall n :: n in s.seqs ==> n !in s.earlier)
    && (s.sending.Some? ==> s.sending.value !in s.seqs && s.sending.value !in s.earlier)
  }

  /** A filled slot holds the response to its own call. */
  ghost predicate SlotInv(s: State) {
    && (forall i :: 0 <= i < |s.results| && s.results[i].Some? ==>
          i < |s.seqs| && s.results[i].value.number == s.seqs[i])
    && (forall k :: 0 <= k < |s.receivers| ==>
          && s.receivers[k].slot < |s.seqs| && s.receivers[k].response.number == s.seqs[s.receivers[k].slot]
          && (s.receivers[k].stored && s.receivers[k].slot < |s.results| ==> s.results[s.receivers[k].slot].Some?))
  }

  ghost predicate SomeoneChecks(s: State) {
    exists k :: 0 <= k < |s.receivers| && s.receivers[k].stored
  }

  /** The event means that all slots are filled; full slots mean the event, set or about to be. */
  ghost predicate EventInv(s: State) {
    && (s.event ==> None !in s.results)
    && (None !in s.results && s.calls > 0 ==> s.event || SomeoneChecks(s))
  }

  ghost predicate Inv(s: State) {
    SeqInv(s) && SlotInv(s) && EventInv(s)
  }

  lemma StartInv(calls: nat, earlier: set<nat>)
    ensures Inv(Start(calls, earlier))
  {
    var s := Start(calls, earlier);
    assert calls > 0 ==> s.results[0] == None;
  }

  lemma StoreKeeps(s: State, k: nat)
    requires Inv(s) && k < |s.receivers| && !s.receivers[k].stored
    ensures Inv(StoreResult(s, k))
  {
    var r := StoreResult(s, k);
    var slot := s.receivers[k].slot;
    assert r.receivers[k].stored;
    if s.event {
      forall x | x in r.results
        ensures x != None
      {
        var i :| 0 <= i < |r.results| && r.results[i] == x;
        assert i != slot ==> s.results[i] in s.results;
      }
    }
  }

  lemma CheckKeeps(s: State, k: nat)
    requires Inv(s) && k < |s.receivers|
    ensures Inv(CheckComplete(s, k))
  {
  }

  lemma LookupKeeps(s: State, response: Response)
    requires Inv(s)
    ensures Inv(Lookup(s, response))
  {
    var r := Lookup(s, response);
    if SomeoneChecks(s) {
      var k :| 0 <= k < |s.receivers| && s.receivers[k].stored;
      assert r.receivers[k].stored;
    }
  }

  lemma StepKeeps(s: State, m: Move)
    requires Inv(s) && Enabled(s, m)
    ensures Inv(Step(s, m))
  {
    match m
    case Receive(response) => LookupKeeps(s, response);
    case Store(k) => StoreKeeps(s, k);
    case Check(k) => CheckKeeps(s, k);
    case _ =>
  }

  // ----- Every interleaving -----

  ghost predicate Run(states: seq<State>, moves: seq<Move>, calls: nat, earlier: set<nat>) {
    && |states| == |moves| + 1
    && states[0] == Start(calls, earlier)
    && forall i :: 0 <= i < |moves| ==> Enabled(states[i], moves[i]) && states[i + 1] == Step(states[i], moves[i])
  }

  lemma {:induction false} RunKeeps(states: seq<State>, moves: seq<Move>, calls: nat, earlier: set<nat>, i: nat)
    requires Run(states, moves, calls, earlier) && i < |states|
    ensures Inv(states[i]) && states[i].calls == calls && states[i].earlier == earlier
  {
    if i == 0 {
      StartInv(calls, earlier);
    } else {
      RunKeeps(states, moves, calls, earlier, i - 1);
      StepKeeps(states[i - 1], moves[i - 1]);
    }
  }

  /**
   In every interleaving: a slot is empty or holds the response to the call of its own object;
   the event is set only when all slots are filled; and once all are filled and every receiver
   has finished, it is set.
   */
  lemma ResultsBelongToCalls(states: seq<State>, moves: seq<Move>, calls: nat, earlier: set<nat>, i: nat)
    requires Run(states, moves, calls, earlier) && i < |states|
    ensures var s := states[i];
      && |s.results| == calls
      && (forall k :: 0 <= k < calls && s.results[k].Some? ==> k < |s.seqs| && s.results[k].value.number == s.seqs[k])
      && (s.event ==> None !in s.results)
      && (None !in s.results && s.receivers == [] && calls > 0 ==> s.event)
  {
    RunKeeps(states, moves, calls, earlier, i);
  }

  /** A receiver carries a response that came in. */
  lemma {:induction false} ReceiverCarriesReceived(
    states: seq<State>, moves: seq<Move>, calls: nat, earlier: set<nat>, i: nat, k: nat) returns (j: nat)
    requires Run(states, moves, calls, earlier) && i < |states| && k < |states[i].receivers|
    ensures j < i && moves[j] == Receive(states[i].receivers[k].response)
  {
    var s, m := states[i - 1], moves[i - 1];
    assert Enabled(s, m) && states[i] == Step(s, m);
    if m.Receive? && k == |s.receivers| {
      j := i - 1;
    } else {
      var before := if m.Check? && m.receiver <= k then k + 1 else k;
      j := ReceiverCarriesReceived(states, moves, calls, earlier, i - 1, before);
    }
  }

  /** In every interleaving: what a slot holds is the very response that came in for its own call. */
  lemma {:induction false} SlotHoldsReceived(
    states: seq<State>, moves: seq<Move>, calls: nat, earlier: set<nat>, i: nat, k: nat) returns (j: nat)
    requires Run(states, moves, calls, earlier) && i < |states| && k < |states[i].results| && states[i].results[k].Some?
    ensures j < i && moves[j] == Receive(states[i].results[k].value)
    ensures k < |states[i].seqs| && states[i].results[k].value.number == states[i].seqs[k]
  {
    RunKeeps(states, moves, calls, earlier, i);
    var s, m := states[i - 1], moves[i - 1];
    assert Enabled(s, m) && states[i] == Step(s, m);
    if m.Store? && s.receivers[m.receiver].slot == k {
      j := ReceiverCarriesReceived(states, moves, calls, earlier, i - 1, m.receiver);
    } else {
      j := SlotHoldsReceived(states, moves, calls, earlier, i - 1, k);
    }
  }

  /** A response to this invocation is always found when it is looked up; a late one to an earlier changes nothing. */
  lemma ResponsesFindTheirSlot(
    states: seq<State>, moves: seq<Move>, calls: nat, earlier: set<nat>, i: nat, response: Response)
    requires Run(states, moves, calls, earlier) && i < |states| && Enabled(states[i], Receive(response))
    ensures response.number !in earlier ==> response.number in states[i].seqs
    ensures response.number in earlier ==> Step(states[i], Receive(response)) == states[i]
  {
    RunKeeps(states, moves, calls, earlier, i);
  }

  /** The response for slot `k` is stored, or a receiver is still to store it. */
  ghost predicate Arrived(s: State, k: nat) {
    k < |s.results| && (s.results[k].Some? || exists j :: 0 <= j < |s.receivers| && s.receivers[j].slot == k)
  }

  lemma ArrivedStays(s: State, m: Move, k: nat)
    requires Inv(s) && Enabled(s, m) && Arrived(s, k)
    ensures Arrived(Step(s, m), k)
  {
    var r := Step(s, m);
    if !s.results[k].Some? {
      var j :| 0 <= j < |s.receivers| && s.receivers[j].slot == k;
      if m.Check? {
        assert j != m.receiver;
        assert r.receivers[if j < m.receiver then j else j - 1] == s.receivers[j];
      } else if !m.Store? || m.receiver != j {
        assert r.receivers[j] == s.receivers[j];
      }
    }
  }

  lemma {:induction false} ArrivedStaysInRun(
    states: seq<State>, moves: seq<Move>, calls: nat, earlier: set<nat>, i: nat, j: nat, k: nat)
    requires Run(states, moves, calls, earlier) && i <= j < |states| && Arrived(states[i], k)
    ensures Arrived(states[j], k)
  {
    if i < j {
      ArrivedStaysInRun(states, moves, calls, earlier, i, j - 1, k);
      RunKeeps(states, moves, calls, earlier, j - 1);
      ArrivedStays(states[j - 1], moves[j - 1], k);
    }
  }

  lemma LookupArrives(s: State, response: Response)
    requires Inv(s) && response.number in s.seqs
    ensures Arrived(Lookup(s, response), IndexOf(s.seqs, response.number))
  {
    assert Lookup(s, response).receivers[|s.receivers|].slot == IndexOf(s.seqs, response.number);
  }

  lemma ReceivedArrives(
    states: seq<State>, moves: seq<Move>, calls: nat, earlier: set<nat>, i: nat, j: nat, k: nat)
    requires Run(states, moves, calls, earlier) && j < i < |states| && moves[j].Receive?
    requires k < |states[i].seqs| && moves[j].response.number == states[i].seqs[k]
    ensures Arrived(states[i], k)
  {
    RunKeeps(states, moves, calls, earlier, i);
    RunKeeps(states, moves, calls, earlier, j);
    ResponsesFindTheirSlot(states, moves, calls, earlier, j, moves[j].response);
    LookupArrives(states[j], moves[j].response);
    SeqsGrow(states, moves, calls, earlier, j, i);
    assert IndexOf(states[j].seqs, moves[j].response.number) == k;
    ArrivedStaysInRun(states, moves, calls, earlier, j + 1, i, k);
  }

  lemma {:induction false} SeqsGrow(
    states: seq<State>, moves: seq<Move>, calls: nat, earlier: set<nat>, i: nat, j: nat)
    requires Run(states, moves, calls, earlier) && i <= j < |states|
    ensures states[i].seqs <= states[j].seqs
  {
    if i < j {
      SeqsGrow(states, moves, calls, earlier, i, j - 1);
      assert Enabled(states[j - 1], moves[j - 1]) && states[j] == Step(states[j - 1], moves[j - 1]);
    }
  }

  ghost predicate Answered(moves: seq<Move>, i: nat, number: nat) {
    exists j :: 0 <= j < i && j < |moves| && moves[j].Receive? && moves[j].response.number == number
  }

  /** When every call of a non-empty list was answered and the receivers have finished, the event is set. */
  lemma AllAnswersSetEvent(states: seq<State>, moves: seq<Move>, calls: nat, earlier: set<nat>, i: nat)
    requires Run(states, moves, calls, earlier) && i < |states|
    requires calls > 0 && |states[i].seqs| == calls && states[i].receivers == []
    requires forall k :: 0 <= k < calls ==> Answered(moves, i, states[i].seqs[k])
    ensures states[i].event
  {
    RunKeeps(states, moves, calls, earlier, i);
    forall k | 0 <= k < calls
      ensures states[i].results[k] != None
    {
      assert Answered(moves, i, states[i].seqs[k]);
      var j :| 0 <= j < i && j < |moves| && moves[j].Receive? && moves[j].response.number == states[i].seqs[k];
      ReceivedArrives(states, moves, calls, earlier, i, j, k);
    }
  }

  /** Filled slots stay filled. */
  lemma {:induction false} SlotsStayFilled(
    states: seq<State>, moves: seq<Move>, calls: nat, earlier: set<nat>, i: nat, j: nat, k: nat)
    requires Run(states, moves, calls, earlier) && i <= j < |states| && k < calls
    ensures |states[i].results| == calls && |states[j].results| == calls
    ensures states[i].results[k].Some? ==> states[j].results[k].Some?
  {
    RunKeeps(states, moves, calls, earlier, i);
    RunKeeps(states, moves, calls, earlier, j);
    if i < j {
      SlotsStayFilled(states, moves, calls, earlier, i, j - 1, k);
      assert Enabled(states[j - 1], moves[j - 1]) && states[j] == Step(states[j - 1], moves[j - 1]);
    }
  }

  /**
   Why the lock is needed. In every interleaving, looking up a response to this invocation finds
   its slot exactly if its request is not just being sent. Then the lock keeps the receiver out;
   without it the response would be lost.
   */
  lemma LockIsNeeded(
    states: seq<State>, moves: seq<Move>, calls: nat, earlier: set<nat>, i: nat, response: Response)
    requires Run(states, moves, calls, earlier) && i < |states|
    requires Issued(states[i], response.number) && response.number !in earlier
    ensures Lookup(states[i], response) == states[i] <==> states[i].sending == Some(response.number)
    ensures states[i].sending == Some(response.number) ==> !Enabled(states[i], Receive(response))
  {
    RunKeeps(states, moves, calls, earlier, i);
    if response.number in states[i].seqs {
      assert |Lookup(states[i], response).receivers| == |states[i].receivers| + 1;
    }
  }

  /** On an empty list the event is never set: the caller waits for its whole timeout. */
  lemma {:induction false} NothingSentNothingSet(states: seq<State>, moves: seq<Move>, earlier: set<nat>, i: nat)
    requires Run(states, moves, 0, earlier) && i < |states|
    ensures !states[i].event && states[i].receivers == []
  {
    if i > 0 {
      RunKeeps(states, moves, 0, earlier, i - 1);
      NothingSentNothingSet(states, moves, earlier, i - 1);
    }
  }
}

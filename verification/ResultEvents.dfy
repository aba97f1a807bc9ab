/**
 Reporting the results of a service or resource action to the caller that started it: the
 first result answers the method call, later ones are raised as events when they change.
 */
module ResultEvents {
  import opened Common

  datatype Service = Services | Resources

  datatype Message = Reply(rcs: seq<int>) | Raised(rc: int)

  /** What is sent when a result arrives after the earlier ones. */
  function Sent(service: Service, hasRc: bool, earlier: seq<int>, rc: int): (ms: seq<Message>) {
    if earlier == [] then [Reply(if hasRc then [rc] else [])]
    else if Last(earlier) != rc && service == Resources then [Raised(rc)]
    else []
  }

  function AllSent(service: Service, hasRc: bool, results: seq<int>): (ms: seq<Message>) {
    if results == [] then []
    else AllSent(service, hasRc, Init(results)) + Sent(service, hasRc, Init(results), Last(results))
  }

  class AsyncCallback {
    const service: Service
    const hasRc: bool
    var firstResult: bool
    var lastRc: int
    var released: bool
    var sent: seq<Message>
    ghost var results: seq<int>

    ghost predicate Valid()
      reads this
    {
      && (firstResult <==> results == [])
      && (results != [] && !released ==> lastRc == Last(results))
      && sent == AllSent(service, hasRc, results)
    }

    constructor (service: Service, hasRc: bool)
      ensures Valid() && results == [] && !released
    {
      this.service, this.hasRc := service, hasRc;
      lastRc, firstResult, released := 0, true, false;
      sent, results := [], [];
    }

    /** The callback of an action; the record is released when the action does not recur. */
    method Completed(rc: int, interval: nat)
      requires Valid() && !released
      modifies this
      ensures Valid() && results == old(results) + [rc]
      ensures released <==> interval == 0
    {
      assert Init(results + [rc]) == results;
      if firstResult {
        sent := sent + [Reply(if hasRc then [rc] else [])];
        firstResult := false;
      } else if lastRc != rc {
        if service == Resources {
          sent := sent + [Raised(rc)];
        }
      }
      if interval > 0 {
        lastRc := rc;
      } else {
        released := true;
      }
      results := results + [rc];
      assert sent == AllSent(service, hasRc, Init(results)) + Sent(service, hasRc, Init(results), rc);
    }
  }

  // ----- The messages carry the results without consecutive repeats -----

  function CodeOf(m: Message): (rcs: seq<int>) {
    match m
    case Reply(rcs) => rcs
    case Raised(rc) => [rc]
  }

  function Codes(ms: seq<Message>): (rcs: seq<int>) {
    if ms == [] then [] else Codes(Init(ms)) + CodeOf(Last(ms))
  }

  lemma CodesOneMore(ms: seq<Message>, m: Message)
    ensures Codes(ms + [m]) == Codes(ms) + CodeOf(m)
  {
  }

  function WithoutRepeats(s: seq<int>): (r: seq<int>) {
    if |s| <= 1 then s
    else if s[0] == s[1] then WithoutRepeats(s[1..])
    else [s[0]] + WithoutRepeats(s[1..])
  }

  lemma {:induction false} WithoutRepeatsOneMore(s: seq<int>, x: int)
    requires s != []
    ensures WithoutRepeats(s + [x]) == WithoutRepeats(s) + if Last(s) == x then [] else [x]
  {
    assert (s + [x])[1..] == s[1..] + [x];
    if |s| > 1 {
      WithoutRepeatsOneMore(s[1..], x);
    }
  }

  /** For a resource action, reply and events together carry exactly the result changes. */
  lemma {:induction false} MessagesCarryChanges(results: seq<int>)
    ensures Codes(AllSent(Resources, true, results)) == WithoutRepeats(results)
  {
    if results != [] {
      var earlier, rc := Init(results), Last(results);
      var more := Sent(Resources, true, earlier, rc);
      assert results == earlier + [rc];
      MessagesCarryChanges(earlier);
      var before := AllSent(Resources, true, earlier);
      if more == [] {
        assert before + more == before;
      } else {
        assert more == [more[0]];
        CodesOneMore(before, more[0]);
      }
      if earlier != [] {
        WithoutRepeatsOneMore(earlier, rc);
      }
    }
  }

  /** There is exactly one reply, sent first; a service action raises no event. */
  lemma {:induction false} OneReplyFirst(service: Service, hasRc: bool, results: seq<int>)
    requires results != []
    ensures var ms := AllSent(service, hasRc, results);
      && ms != [] && ms[0] == Reply(if hasRc then [results[0]] else [])
      && (forall i :: 1 <= i < |ms| ==> ms[i].Raised?)
      && (service == Services ==> |ms| == 1)
  {
    if |results| > 1 {
      OneReplyFirst(service, hasRc, Init(results));
    }
  }
}

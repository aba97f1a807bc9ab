/**
 Connecting to a broker: the servers of a DNS SRV lookup are tried in turn, over and over,
 with a growing pause between attempts.
 */
module Failover {
  import opened DnsSrv

  datatype Target = Srv(record: Record) | Server | Localhost

  /** One attempt: the server tried, and the seconds slept after it failed. */
  datatype Attempt = Attempt(target: Target, pause: nat)

  /** The remainder of `k` by `n`, as counted by going round a list of `n`. */
  function Slot(k: nat, n: nat): (r: nat)
    requires n > 0
    ensures r < n
  {
    if k < n then k else Slot(k - n, n)
  }

  /** The k-th server, counting from 0, when the list is tried over and over. */
  function Turn(records: seq<Record>, k: nat): (r: Record)
    requires records != []
  {
    records[Slot(k, |records|)]
  }

  function TargetOf(records: seq<Record>, named: bool, k: nat): (t: Target) {
    if records != [] then Srv(Turn(records, k)) else if named then Server else Localhost
  }

  /** The pause set by attempt `k`: none for the first five, then the attempt's number modulo 300. */
  function Backoff(k: nat): (seconds: nat)
    ensures seconds <= 299
    ensures k < 5 ==> seconds == 0
    ensures k >= 5 ==> (k + 1 - seconds) % 300 == 0
  {
    if k < 5 then 0 else (k + 1) % 300
  }

  /** The attempts made when opening the connection goes as `opens` says. */
  ghost predicate Trace(records: seq<Record>, named: bool, retry: bool, opens: seq<bool>, attempts: seq<Attempt>) {
    && |attempts| <= |opens|
    && (forall k :: 0 <= k < |attempts| ==> attempts[k].target == TargetOf(records, named, k))
    && (forall k :: 0 <= k < |attempts| ==> attempts[k].pause == if opens[k] || !retry then 0 else Backoff(k))
    && (forall k :: 0 <= k < |attempts| - 1 ==> !opens[k])
    && (|attempts| > 1 ==> retry)
  }

  method Connect(records: seq<Record>, named: bool, retry: bool, opens: seq<bool>)
    returns (connected: bool, attempts: seq<Attempt>)
    ensures Trace(records, named, retry, opens, attempts)
    ensures connected <==> attempts != [] && opens[|attempts| - 1]
    ensures !connected && retry ==> |attempts| == |opens|
  {
    var retries, backoff, cur := 0, 0, records;
    attempts := [];
    while retries < |opens|
      invariant retries == |attempts| <= |opens|
      invariant Trace(records, named, retry, opens, attempts)
      invariant forall k :: 0 <= k < |attempts| ==> !opens[k]
      invariant attempts != [] ==> retry
      invariant backoff == if retries == 0 then 0 else Backoff(retries - 1)
      invariant records != [] ==> cur == records[Slot(retries, |records|)..]
    {
      var target;
      if records != [] {
        target := Srv(cur[0]);
        NextSlot(retries, |records|);
        cur := cur[1..];
        if cur == [] {
          cur := records;
        }
      } else {
        target := if named then Server else Localhost;
      }
      var k := retries;
      retries := retries + 1;
      if retries > 5 {
        backoff := retries % 300;
      }
      var attempt := Attempt(target, if opens[k] || !retry then 0 else backoff);
      TraceGrows(records, named, retry, opens, attempts, attempt);
      attempts := attempts + [attempt];
      if opens[k] {
        return true, attempts;
      }
      if !retry {
        return false, attempts;
      }
    }
    connected := false;
  }

  lemma TraceGrows(
    records: seq<Record>, named: bool, retry: bool, opens: seq<bool>, attempts: seq<Attempt>, a: Attempt)
    requires Trace(records, named, retry, opens, attempts) && |attempts| < |opens|
    requires forall k :: 0 <= k < |attempts| ==> !opens[k]
    requires attempts != [] ==> retry
    requires a.target == TargetOf(records, named, |attempts|)
    requires a.pause == if opens[|attempts|] || !retry then 0 else Backoff(|attempts|)
    ensures Trace(records, named, retry, opens, attempts + [a])
  {
  }

  lemma {:induction false} NextSlot(k: nat, n: nat)
    requires n > 0
    ensures Slot(k + 1, n) == if Slot(k, n) + 1 == n then 0 else Slot(k, n) + 1
  {
    if k >= n {
      NextSlot(k - n, n);
    }
  }

  /** The slot is the remainder of the division by the number of servers. */
  lemma {:induction false} SlotIsRemainder(k: nat, n: nat) returns (sweeps: nat)
    requires n > 0
    ensures k == sweeps * n + Slot(k, n)
  {
    sweeps := 0;
    if k >= n {
      var before := SlotIsRemainder(k - n, n);
      sweeps := before + 1;
      assert sweeps * n == before * n + n;
    }
  }

  lemma {:induction false} RemainderIsSlot(sweeps: nat, n: nat, r: nat)
    requires r < n
    ensures Slot(sweeps * n + r, n) == r
  {
    if sweeps > 0 {
      RemainderIsSlot(sweeps - 1, n, r);
      assert sweeps * n + r - n == (sweeps - 1) * n + r;
    }
  }

  /**
   Attempt k goes to record r of n where k is r more than a multiple of n; without records to the
   server named, or to this host. After a failure that is retried there is no pause for the first
   five attempts, and then one of k + 1 seconds modulo 300.
   */
  lemma AttemptsAre(
    records: seq<Record>, named: bool, retry: bool, opens: seq<bool>, attempts: seq<Attempt>,
    k: nat, sweeps: nat, r: nat)
    requires Trace(records, named, retry, opens, attempts) && k < |attempts|
    requires records != [] ==> r < |records| && k == sweeps * |records| + r
    ensures attempts[k].target == if records != [] then Srv(records[r]) else if named then Server else Localhost
    ensures opens[k] || !retry || k < 5 ==> attempts[k].pause == 0
    ensures !opens[k] && retry && k >= 5 ==> attempts[k].pause <= 299 && (k + 1 - attempts[k].pause) % 300 == 0
  {
    if records != [] {
      RemainderIsSlot(sweeps, |records|, r);
    }
  }

  /** A sweep starts where the slot is 0; its attempts have the slots 0, 1 and so on. */
  lemma {:induction false} SlotInSweep(first: nat, n: nat, i: nat)
    requires i < n && Slot(first, n) == 0
    ensures Slot(first + i, n) == i
  {
    if i > 0 {
      SlotInSweep(first, n, i - 1);
      NextSlot(first + i - 1, n);
    }
  }

  /** Each sweep of as many attempts as there are records tries every record once, in order. */
  lemma SweepTriesAll(
    records: seq<Record>, named: bool, retry: bool, opens: seq<bool>, attempts: seq<Attempt>, first: nat)
    requires Trace(records, named, retry, opens, attempts)
    requires records != [] && Slot(first, |records|) == 0 && first + |records| <= |attempts|
    ensures forall i :: first <= i < first + |records| ==> attempts[i].target == Srv(records[i - first])
  {
    forall i | first <= i < first + |records|
      ensures attempts[i].target == Srv(records[i - first])
    {
      SlotInSweep(first, |records|, i - first);
    }
  }

  /** Within a sweep over sorted records, a server of a lower priority number is never tried later. */
  lemma SweepByPriority(
    added: seq<Record>, records: seq<Record>, named: bool, retry: bool, opens: seq<bool>, attempts: seq<Attempt>,
    first: nat)
    requires SortOrder(AddAll(added), records) && Trace(records, named, retry, opens, attempts)
    requires records != [] && Slot(first, |records|) == 0 && first + |records| <= |attempts|
    ensures multiset(records) == multiset(added)
    ensures forall i :: first <= i < first + |records| ==> attempts[i].target.Srv?
    ensures forall i, j :: first <= i < j < first + |records| ==>
              attempts[i].target.record.priority <= attempts[j].target.record.priority
  {
    SweepTriesAll(records, named, retry, opens, attempts, first);
    SortedRecords(added, records, 0);
  }
}

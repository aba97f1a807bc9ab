/**
 Ordering DNS SRV records by priority and weight (RFC 2782, "The format of the SRV RR").

 The random number is taken as any value of the range it is asked from.
 */
module DnsSrv {
  type uint16 = n: nat | n < 0x1_0000

  datatype Record = Record(host: string, port: uint16, priority: uint16, weight: uint16)

  // ----- Adding records: kept sorted by priority, new ones before their equals -----

  function AddRecord(rs: seq<Record>, r: Record): (out: seq<Record>)
    ensures multiset(out) == multiset(rs) + multiset{r}
  {
    if rs == [] then [r]
    else if r.priority <= rs[0].priority then [r] + rs
    else
      assert rs == [rs[0]] + rs[1..];
      [rs[0]] + AddRecord(rs[1..], r)
  }

  function AddAll(added: seq<Record>): (rs: seq<Record>) {
    if added == [] then [] else AddRecord(AddAll(added[..|added| - 1]), added[|added| - 1])
  }

  ghost predicate Sorted(rs: seq<Record>) {
    forall i, j :: 0 <= i < j < |rs| ==> rs[i].priority <= rs[j].priority
  }

  lemma SortedCons(r: Record, rs: seq<Record>)
    requires Sorted(rs) && forall x :: x in rs ==> r.priority <= x.priority
    ensures Sorted([r] + rs)
  {
  }

  lemma {:induction false} AddRecordSorted(rs: seq<Record>, r: Record)
    requires Sorted(rs)
    ensures Sorted(AddRecord(rs, r))
  {
    if rs != [] && r.priority > rs[0].priority {
      var tail := AddRecord(rs[1..], r);
      AddRecordSorted(rs[1..], r);
      forall x | x in tail
        ensures rs[0].priority <= x.priority
      {
        assert x in multiset(tail);
        assert x == r || x in rs[1..];
      }
      SortedCons(rs[0], tail);
    } else {
      SortedCons(r, rs);
    }
  }

  /** The new record goes in front of its equals, and the others keep their order. */
  lemma {:induction false} AddRecordPlace(rs: seq<Record>, r: Record) returns (k: nat)
    ensures k <= |rs| && AddRecord(rs, r) == rs[..k] + [r] + rs[k..]
    ensures forall i :: 0 <= i < k ==> rs[i].priority < r.priority
    ensures k < |rs| ==> r.priority <= rs[k].priority
  {
    k := 0;
    if rs != [] && r.priority > rs[0].priority {
      k := AddRecordPlace(rs[1..], r);
      InsertBehind(rs, r, k);
      k := k + 1;
    }
  }

  lemma InsertBehind(rs: seq<Record>, r: Record, k: nat)
    requires k < |rs|
    ensures [rs[0]] + (rs[1..][..k] + [r] + rs[1..][k..]) == rs[..k + 1] + [r] + rs[k + 1..]
  {
    assert [rs[0]] + rs[1..][..k] == rs[..k + 1];
  }

  // ----- One weighted pick -----

  const WORD := 0x1_0000_0000
  const HALF := 0x8000_0000

  function Sum(rs: seq<Record>): (n: nat) {
    if rs == [] then 0 else Sum(rs[..|rs| - 1]) + rs[|rs| - 1].weight
  }

  /** The running sum as it is stored: in 32 bits. */
  function Sum32(rs: seq<Record>): (n: nat)
    ensures n < WORD
  {
    if rs == [] then 0 else (Sum32(rs[..|rs| - 1]) + rs[|rs| - 1].weight) % WORD
  }

  /** The draws possible for a list: a range that is not a positive signed number yields zero. */
  predicate LegalDraw(rs: seq<Record>, magic: nat) {
    var end := (Sum32(rs) + 1) % WORD;
    if 0 < end < HALF then magic < end else magic == 0
  }

  /** The running sum stored on record `k`. */
  function Running(rs: seq<Record>, k: nat): (n: nat)
    requires k < |rs|
  {
    Sum32(rs[..k + 1])
  }

  /** The first record from `i` on whose running sum reaches the draw: there always is one. */
  function Pick(rs: seq<Record>, i: nat, magic: nat): (k: nat)
    requires i < |rs| && LegalDraw(rs, magic)
    ensures i <= k < |rs| && Running(rs, k) >= magic
    ensures forall j :: i <= j < k ==> Running(rs, j) < magic
    decreases |rs| - i
  {
    assert rs[..|rs|] == rs;
    if Running(rs, i) >= magic then i else Pick(rs, i + 1, magic)
  }

  function Remove(rs: seq<Record>, k: nat): (out: seq<Record>)
    requires k < |rs|
  {
    rs[..k] + rs[k + 1..]
  }

  /** `out` is an order some draws lead to. */
  ghost predicate WeightOrder(rs: seq<Record>, out: seq<Record>)
    decreases |rs|
  {
    if rs == [] then out == [] else exists magic :: LegalDraw(rs, magic) && PicksFirst(rs, magic, out)
  }

  ghost predicate PicksFirst(rs: seq<Record>, magic: nat, out: seq<Record>)
    requires rs != [] && LegalDraw(rs, magic)
    decreases |rs|, 0
  {
    var k := Pick(rs, 0, magic);
    out != [] && out[0] == rs[k] && WeightOrder(Remove(rs, k), out[1..])
  }

  /** The number drawn for a list: the random number, which is taken as zero where it is not possible. */
  function Draw(rs: seq<Record>, raw: nat): (magic: nat)
    ensures LegalDraw(rs, magic)
  {
    if LegalDraw(rs, raw) then raw else 0
  }

  /** The records in the order in which these random numbers pick them. */
  function WeightSorted(rs: seq<Record>, raw: seq<nat>): (out: seq<Record>)
    requires |rs| <= |raw|
    ensures |out| == |rs|
    decreases |rs|
  {
    if rs == [] then []
    else
      var k := Pick(rs, 0, Draw(rs, raw[0]));
      [rs[k]] + WeightSorted(Remove(rs, k), raw[1..])
  }

  /** Random numbers lead to an order of picks. */
  lemma {:induction false} DrawsGiveOrder(rs: seq<Record>, raw: seq<nat>)
    requires |rs| <= |raw|
    ensures WeightOrder(rs, WeightSorted(rs, raw))
    decreases |rs|
  {
    if rs != [] {
      var magic, out := Draw(rs, raw[0]), WeightSorted(rs, raw);
      DrawsGiveOrder(Remove(rs, Pick(rs, 0, magic)), raw[1..]);
      assert out[1..] == WeightSorted(Remove(rs, Pick(rs, 0, magic)), raw[1..]);
      assert PicksFirst(rs, magic, out);
    }
  }

  /** And every order of picks comes about by some random numbers. */
  lemma {:induction false} OrderHasDraws(rs: seq<Record>, out: seq<Record>) returns (raw: seq<nat>)
    requires WeightOrder(rs, out)
    ensures |raw| == |rs| && WeightSorted(rs, raw) == out
    decreases |rs|
  {
    raw := [];
    if rs != [] {
      var magic := FirstMagic(rs, out);
      var rest := OrderHasDraws(Remove(rs, Pick(rs, 0, magic)), out[1..]);
      raw := Prepend(magic, rest);
      FirstDraw(rs, raw, out);
    }
  }

  lemma FirstMagic(rs: seq<Record>, out: seq<Record>) returns (magic: nat)
    requires rs != [] && WeightOrder(rs, out)
    ensures LegalDraw(rs, magic) && out != [] && out[0] == rs[Pick(rs, 0, magic)]
    ensures WeightOrder(Remove(rs, Pick(rs, 0, magic)), out[1..])
  {
    magic :| LegalDraw(rs, magic) && PicksFirst(rs, magic, out);
  }

  function Prepend<T>(x: T, s: seq<T>): (r: seq<T>)
    ensures |r| == |s| + 1 && r[0] == x && r[1..] == s
  {
    [x] + s
  }

  lemma HeadTail<T>(s: seq<T>)
    requires s != []
    ensures [s[0]] + s[1..] == s
  {
  }

  lemma FirstDraw(rs: seq<Record>, raw: seq<nat>, out: seq<Record>)
    requires rs != [] && |raw| == |rs| && LegalDraw(rs, raw[0])
    requires out != [] && out[0] == rs[Pick(rs, 0, raw[0])]
    requires WeightSorted(Remove(rs, Pick(rs, 0, raw[0])), raw[1..]) == out[1..]
    ensures WeightSorted(rs, raw) == out
  {
    HeadTail(out);
  }

  method ApplyWeightSort(input: seq<Record>, raw: seq<nat>) returns (processed: seq<Record>)
    requires |input| <= |raw|
    ensures processed == WeightSorted(input, raw)
  {
    var records, i := input, 0;
    processed := [];
    assert raw[0..] == raw;
    while records != []
      invariant i + |records| <= |raw|
      invariant processed + WeightSorted(records, raw[i..]) == WeightSorted(input, raw)
      decreases |records|
    {
      var magic := Draw(records, raw[i]);
      var cur := FindRecord(records, magic);
      assert raw[i..][1..] == raw[i + 1..];
      PickedNext(processed, records, raw[i..]);
      processed := processed + [records[cur]];
      records := Remove(records, cur);
      i := i + 1;
    }
    assert processed + [] == processed;
  }

  lemma PickedNext(done: seq<Record>, rs: seq<Record>, raw: seq<nat>)
    requires rs != [] && |rs| <= |raw|
    ensures var k := Pick(rs, 0, Draw(rs, raw[0]));
      done + WeightSorted(rs, raw) == done + [rs[k]] + WeightSorted(Remove(rs, k), raw[1..])
  {
  }

  method FindRecord(records: seq<Record>, magic: nat) returns (cur: nat)
    requires records != [] && LegalDraw(records, magic)
    ensures cur == Pick(records, 0, magic)
  {
    var sums := RunningSums(records);
    cur := 0;
    assert records[..|records|] == records;
    while sums[cur] < magic
      invariant 0 <= cur < |records|
      invariant forall j :: 0 <= j < cur ==> Running(records, j) < magic
      decreases |records| - cur
    {
      cur := cur + 1;
    }
  }

  method RunningSums(records: seq<Record>) returns (sums: seq<nat>)
    ensures |sums| == |records|
    ensures forall i :: 0 <= i < |records| ==> sums[i] == Running(records, i)
  {
    sums := [];
    var sum := 0;
    for i := 0 to |records|
      invariant sum == Sum32(records[..i])
      invariant |sums| == i && forall j :: 0 <= j < i ==> sums[j] == Running(records, j)
    {
      assert records[..i + 1][..i] == records[..i];
      sum := (sum + records[i].weight) % WORD;
      sums := sums + [sum];
    }
  }

  // ----- How many draws choose a record -----

  /** A list the drawn range covers: the sum of its weights is a signed 32-bit number. */
  predicate InDrawRange(rs: seq<Record>) {
    Sum(rs) + 1 < HALF
  }

  lemma {:induction false} SumBound(rs: seq<Record>)
    ensures Sum(rs) <= 0xFFFF * |rs|
  {
    if rs != [] {
      SumBound(rs[..|rs| - 1]);
    }
  }

  /** Groups of up to 32768 records are always within range. */
  lemma SmallGroupsInRange(rs: seq<Record>)
    requires |rs| <= 32768
    ensures InDrawRange(rs)
  {
    SumBound(rs);
  }

  lemma {:induction false} SumIsExact(rs: seq<Record>)
    ensures Sum32(rs) == Sum(rs) % WORD
  {
    if rs != [] {
      SumIsExact(rs[..|rs| - 1]);
      WrapOnce(Sum(rs[..|rs| - 1]), rs[|rs| - 1].weight);
    }
  }

  lemma WrapOnce(a: nat, b: nat)
    ensures (a % WORD + b) % WORD == (a + b) % WORD
  {
  }

  lemma {:induction false} SumGrows(rs: seq<Record>, i: nat, j: nat)
    requires i <= j <= |rs|
    ensures Sum(rs[..i]) <= Sum(rs[..j]) <= Sum(rs)
    decreases |rs| - i
  {
    if i < |rs| {
      assert rs[..i + 1][..i] == rs[..i];
      SumGrows(rs, i + 1, if i < j then j else i + 1);
    } else {
      assert rs[..i] == rs;
    }
  }

  lemma RunningIsExact(rs: seq<Record>)
    requires InDrawRange(rs)
    ensures Sum32(rs) == Sum(rs)
    ensures forall j :: 0 <= j < |rs| ==> Running(rs, j) == Sum(rs[..j + 1])
  {
    SumIsExact(rs);
    forall j | 0 <= j < |rs|
      ensures Running(rs, j) == Sum(rs[..j + 1])
    {
      SumGrows(rs, j + 1, j + 1);
      SumIsExact(rs[..j + 1]);
    }
  }

  /** Record `k` is chosen exactly by the draws between the sum before it and the sum with it. */
  lemma PickInterval(rs: seq<Record>, k: nat, magic: nat)
    requires k < |rs| && InDrawRange(rs) && magic <= Sum(rs)
    ensures LegalDraw(rs, magic)
    ensures Pick(rs, 0, magic) == k <==> (k > 0 ==> Sum(rs[..k]) < magic) && magic <= Sum(rs[..k + 1])
  {
    RunningIsExact(rs);
    var p := Pick(rs, 0, magic);
    if p < k {
      SumGrows(rs, p + 1, k);
    } else if k < p {
      assert Running(rs, k) < magic;
    } else if k > 0 {
      assert Running(rs, k - 1) < magic;
    }
  }

  ghost function Interval(lo: nat, hi: nat): (s: set<nat>)
    requires lo <= hi
    ensures |s| == hi - lo
    ensures forall m :: m in s <==> lo <= m < hi
  {
    if lo == hi then {} else Interval(lo, hi - 1) + {hi - 1}
  }

  ghost function DrawsFor(rs: seq<Record>, k: nat): (s: set<nat>)
    requires k < |rs|
  {
    set m: nat | m < HALF && LegalDraw(rs, m) && Pick(rs, 0, m) == k
  }

  /** The share a record is to have: of the draws, `weight`; the head of the list gets one more. */
  function Share(rs: seq<Record>, k: nat): (n: nat)
    requires k < |rs|
  {
    rs[k].weight + if k == 0 then 1 else 0
  }

  /** The draws possible, by the true sum: its 32-bit remainder counts, and from 2^31 - 1 up only zero is drawn. */
  lemma LegalDrawsAre(rs: seq<Record>, m: nat)
    ensures var sum := Sum(rs) % WORD; LegalDraw(rs, m) <==> if sum + 1 < HALF then m <= sum else m == 0
  {
    SumIsExact(rs);
    var sum := Sum32(rs);
    assert (sum + 1) % WORD == if sum + 1 < WORD then sum + 1 else 0;
  }

  lemma HeadForSmallDraws(rs: seq<Record>, m: nat)
    requires rs != [] && LegalDraw(rs, m)
    ensures Pick(rs, 0, m) == 0 <==> m <= rs[0].weight
  {
    var head := rs[..1];
    assert head[..0] == [] && Sum32(head) == (Sum32(head[..0]) + rs[0].weight) % WORD;
    assert Running(rs, 0) == rs[0].weight;
  }

  lemma DrawsAreInterval(rs: seq<Record>, k: nat, m: nat)
    requires k < |rs| && InDrawRange(rs)
    ensures m in DrawsFor(rs, k) <==> (k > 0 ==> Sum(rs[..k]) < m) && m <= Sum(rs[..k + 1])
  {
    LegalDrawsAre(rs, m);
    SumGrows(rs, k + 1, k + 1);
    if m <= Sum(rs) {
      PickInterval(rs, k, m);
    }
  }

  lemma SumStep(rs: seq<Record>, k: nat)
    requires k < |rs|
    ensures Sum(rs[..k + 1]) == Sum(rs[..k]) + rs[k].weight
  {
    assert rs[..k + 1][..k] == rs[..k];
  }

  /** Of the sum + 1 draws, `weight` choose a record; the head of the list gets one more. */
  lemma DrawsMatchWeight(rs: seq<Record>, k: nat)
    requires k < |rs| && InDrawRange(rs)
    ensures |DrawsFor(rs, k)| == Share(rs, k)
  {
    SumStep(rs, k);
    assert k == 0 ==> Sum(rs[..k]) == 0;
    var draws, interval := DrawsFor(rs, k), Interval(if k == 0 then 0 else Sum(rs[..k]) + 1, Sum(rs[..k + 1]) + 1);
    forall m: nat
      ensures m in draws <==> m in interval
    {
      DrawsAreInterval(rs, k, m);
    }
    assert draws == interval;
  }

  ghost function DrawsBefore(rs: seq<Record>, k: nat): (s: set<nat>)
    requires k <= |rs|
  {
    set m: nat | m < HALF && rs != [] && LegalDraw(rs, m) && Pick(rs, 0, m) < k
  }

  ghost predicate SharesHold(rs: seq<Record>) {
    forall k :: 0 <= k < |rs| ==> |DrawsFor(rs, k)| == Share(rs, k)
  }

  /** If every record has its share, the draws add up to the weights. */
  lemma {:induction false} SharesAddUp(rs: seq<Record>, k: nat)
    requires k <= |rs| && SharesHold(rs)
    ensures |DrawsBefore(rs, k)| == Sum(rs[..k]) + if k == 0 then 0 else 1
  {
    if k == 0 {
      assert DrawsBefore(rs, k) == {};
    } else {
      SharesAddUp(rs, k - 1);
      OneMoreShare(rs, k - 1);
      SumStep(rs, k - 1);
    }
  }

  lemma OneMoreShare(rs: seq<Record>, k: nat)
    requires k < |rs|
    ensures |DrawsBefore(rs, k + 1)| == |DrawsBefore(rs, k)| + |DrawsFor(rs, k)|
  {
    assert DrawsBefore(rs, k + 1) == DrawsBefore(rs, k) + DrawsFor(rs, k);
    assert DrawsBefore(rs, k) !! DrawsFor(rs, k);
  }

  lemma {:induction false} SubsetSize(a: set<nat>, b: set<nat>)
    requires a <= b
    ensures |a| <= |b|
  {
    assert b == a + (b - a);
  }

  /** Every record is chosen by the draws its weight calls for, exactly if the weights are within range. */
  lemma SharesAreExact(rs: seq<Record>)
    requires rs != []
    ensures SharesHold(rs) <==> InDrawRange(rs)
  {
    if SharesHold(rs) {
      SharesAddUp(rs, |rs|);
      assert rs[..|rs|] == rs;
      SubsetSize(DrawsBefore(rs, |rs|), Interval(0, HALF - 1));
    }
    if InDrawRange(rs) {
      forall k | 0 <= k < |rs|
        ensures |DrawsFor(rs, k)| == Share(rs, k)
      {
        DrawsMatchWeight(rs, k);
      }
    }
  }

  ghost predicate OnlyHead(rs: seq<Record>)
    requires rs != []
  {
    forall m: nat :: LegalDraw(rs, m) ==> Pick(rs, 0, m) == 0
  }

  /**
   When nothing but the head of the list can be chosen. The sum is kept in 32 bits: from
   2^31 - 1 up the draw is zero, and past 2^32 there are other draws again.
   */
  lemma HeadIsAlwaysPicked(rs: seq<Record>)
    requires rs != []
    ensures OnlyHead(rs) <==> HALF <= Sum(rs) % WORD + 1 || Sum(rs) % WORD <= rs[0].weight
  {
    var sum := Sum(rs) % WORD;
    if HALF <= sum + 1 || sum <= rs[0].weight {
      forall m: nat | LegalDraw(rs, m)
        ensures Pick(rs, 0, m) == 0
      {
        LegalDrawsAre(rs, m);
        HeadForSmallDraws(rs, m);
      }
    } else {
      LegalDrawsAre(rs, sum);
      HeadForSmallDraws(rs, sum);
    }
  }

  function HeavyRecords(n: nat): (rs: seq<Record>)
    ensures |rs| == n
  {
    if n == 0 then [] else HeavyRecords(n - 1) + [Record("", 0, 0, 0xFFFF)]
  }

  lemma {:induction false} HeavySum(n: nat)
    ensures Sum(HeavyRecords(n)) == 0xFFFF * n
  {
    if n > 0 {
      HeavySum(n - 1);
      var rs := HeavyRecords(n);
      assert rs[..n - 1] == HeavyRecords(n - 1);
    }
  }

  /** Of the heaviest records 32768 are the most that fit; with more, up to 65537, only the head is ever chosen. */
  lemma LargeGroupsOutOfRange(n: nat)
    requires n > 32768
    ensures !SharesHold(HeavyRecords(n))
    ensures n <= 65537 ==> OnlyHead(HeavyRecords(n))
  {
    HeavySum(n);
    SharesAreExact(HeavyRecords(n));
    if n <= 65537 {
      HeadBeyondRange(HeavyRecords(n));
    }
  }

  lemma HeadBeyondRange(rs: seq<Record>)
    requires rs != [] && HALF <= Sum(rs) + 1 <= WORD
    ensures OnlyHead(rs)
  {
    HeadIsAlwaysPicked(rs);
  }

  // ----- Sorting: one priority after the other -----

  /** The records of one priority in the order the weighted picks see them: zero weights first. */
  function Arrange(run: seq<Record>): (out: seq<Record>)
    ensures multiset(out) == multiset(run) && |out| == |run|
  {
    if run == [] then []
    else
      var init, r := run[..|run| - 1], run[|run| - 1];
      assert run == init + [r];
      if r.weight == 0 then [r] + Arrange(init) else Arrange(init) + [r]
  }

  /** How many records at the front have priority `p`. */
  function Lead(rs: seq<Record>, p: uint16): (n: nat)
    ensures n <= |rs|
    ensures forall i :: 0 <= i < n ==> rs[i].priority == p
    ensures n < |rs| ==> rs[n].priority != p
  {
    if rs == [] || rs[0].priority != p then 0 else 1 + Lead(rs[1..], p)
  }

  ghost predicate SortOrder(rs: seq<Record>, out: seq<Record>)
    decreases |rs|
  {
    if rs == [] then out == []
    else
      var k := Lead(rs, rs[0].priority);
      k <= |out| && WeightOrder(Arrange(rs[..k]), out[..k]) && SortOrder(rs[k..], out[k..])
  }

  /** The sorted records for these random numbers: group after group in the order of its picks. */
  function SortedBy(rs: seq<Record>, raw: seq<nat>): (out: seq<Record>)
    requires |rs| <= |raw|
    ensures |out| == |rs|
    decreases |rs|
  {
    if rs == [] then []
    else
      var k := Lead(rs, rs[0].priority);
      WeightSorted(Arrange(rs[..k]), raw[..k]) + SortedBy(rs[k..], raw[k..])
  }

  /** Random numbers lead to a sorted order. */
  lemma {:induction false} DrawsGiveSortOrder(rs: seq<Record>, raw: seq<nat>)
    requires |rs| <= |raw|
    ensures SortOrder(rs, SortedBy(rs, raw))
    decreases |rs|
  {
    if rs != [] {
      var k := Lead(rs, rs[0].priority);
      DrawsGiveOrder(Arrange(rs[..k]), raw[..k]);
      DrawsGiveSortOrder(rs[k..], raw[k..]);
      GroupThenTail(rs, WeightSorted(Arrange(rs[..k]), raw[..k]), SortedBy(rs[k..], raw[k..]));
    }
  }

  /** And every sorted order comes about by some random numbers. */
  lemma {:induction false} SortOrderHasDraws(rs: seq<Record>, out: seq<Record>) returns (raw: seq<nat>)
    requires SortOrder(rs, out)
    ensures |raw| == |rs| && SortedBy(rs, raw) == out
    decreases |rs|
  {
    raw := [];
    if rs != [] {
      var k := Lead(rs, rs[0].priority);
      SortOrderParts(rs, out);
      var front := OrderHasDraws(Arrange(rs[..k]), out[..k]);
      var back := SortOrderHasDraws(rs[k..], out[k..]);
      raw := front + back;
      FirstGroup(rs, front, back);
      FrontBack(out, k);
    }
  }

  lemma FrontBack<T>(s: seq<T>, k: nat)
    requires k <= |s|
    ensures s[..k] + s[k..] == s
  {
  }

  lemma SortOrderParts(rs: seq<Record>, out: seq<Record>)
    requires rs != [] && SortOrder(rs, out)
    ensures var k := Lead(rs, rs[0].priority);
      0 < k <= |out| && WeightOrder(Arrange(rs[..k]), out[..k]) && SortOrder(rs[k..], out[k..])
  {
  }

  lemma FirstGroup(rs: seq<Record>, front: seq<nat>, back: seq<nat>)
    requires rs != [] && |front| == Lead(rs, rs[0].priority) && |front| + |back| == |rs|
    ensures SortedBy(rs, front + back) == WeightSorted(Arrange(rs[..|front|]), front) + SortedBy(rs[|front|..], back)
  {
    var raw, k := front + back, |front|;
    assert raw[..k] == front && raw[k..] == back;
    FirstSorted(rs, raw);
  }

  lemma FirstSorted(rs: seq<Record>, raw: seq<nat>)
    requires rs != [] && |rs| <= |raw|
    ensures var k := Lead(rs, rs[0].priority);
      k <= |raw| && SortedBy(rs, raw) == WeightSorted(Arrange(rs[..k]), raw[..k]) + SortedBy(rs[k..], raw[k..])
  {
  }

  lemma GroupThenTail(left: seq<Record>, group: seq<Record>, tail: seq<Record>)
    requires left != []
    requires WeightOrder(Arrange(left[..Lead(left, left[0].priority)]), group)
    requires SortOrder(left[Lead(left, left[0].priority)..], tail)
    ensures SortOrder(left, group + tail)
  {
    var k := Lead(left, left[0].priority);
    WeightOrderIsPermutation(Arrange(left[..k]), group);
    assert |multiset(group)| == |multiset(left[..k])|;
    assert (group + tail)[..k] == group && (group + tail)[k..] == tail;
  }

  method RecordsSort(input: seq<Record>, raw: seq<nat>) returns (processed: seq<Record>)
    requires |input| <= |raw|
    ensures processed == SortedBy(input, raw)
  {
    var records, left := input, raw;
    processed := [];
    while records != []
      invariant |records| <= |left|
      invariant processed + SortedBy(records, left) == SortedBy(input, raw)
      decreases |records|
    {
      var tmp, rest := TakeGroup(records);
      var k := |tmp|;
      FirstSorted(records, left);
      tmp := ApplyWeightSort(tmp, left[..k]);
      Regroup(processed, tmp, SortedBy(rest, left[k..]));
      processed := processed + tmp;
      records, left := rest, left[k..];
    }
    assert processed + [] == processed;
  }

  lemma Regroup(a: seq<Record>, b: seq<Record>, c: seq<Record>)
    ensures a + (b + c) == a + b + c
  {
  }

  /** Moves the leading records of one priority into a list of their own. */
  method TakeGroup(whole: seq<Record>) returns (tmp: seq<Record>, records: seq<Record>)
    requires whole != []
    ensures var k := Lead(whole, whole[0].priority);
      k > 0 && tmp == Arrange(whole[..k]) && records == whole[k..]
  {
    var cur := whole[0].priority;
    tmp, records := [], whole;
    ghost var k := 0;
    while records != [] && records[0].priority == cur
      invariant k <= |whole| && records == whole[k..]
      invariant tmp == Arrange(whole[..k])
      invariant Lead(whole, cur) == k + Lead(records, cur)
      decreases |records|
    {
      var r := records[0];
      ArrangeOneMore(whole, k);
      records := records[1..];
      tmp := if r.weight == 0 then [r] + tmp else tmp + [r];
      k := k + 1;
    }
  }

  lemma ArrangeOneMore(rs: seq<Record>, k: nat)
    requires k < |rs|
    ensures Arrange(rs[..k + 1]) == if rs[k].weight == 0 then [rs[k]] + Arrange(rs[..k]) else Arrange(rs[..k]) + [rs[k]]
  {
    assert rs[..k + 1][..k] == rs[..k];
  }

  /** The records of a list that have weight zero, or those that have not. */
  function WithWeight(zero: bool, rs: seq<Record>): (out: seq<Record>) {
    if rs == [] then []
    else WithWeight(zero, rs[..|rs| - 1]) + if (rs[|rs| - 1].weight == 0) == zero then [rs[|rs| - 1]] else []
  }

  /** The weighted picks see the zero weights first, last one first, and then the others in order. */
  lemma {:induction false} ArrangeIs(run: seq<Record>)
    ensures Arrange(run) == Reverse(WithWeight(true, run)) + WithWeight(false, run)
  {
    if run != [] {
      var init, r := run[..|run| - 1], run[|run| - 1];
      ArrangeIs(init);
      ArrangeJoins(Arrange(init), WithWeight(true, init), WithWeight(false, init), r);
      NothingMore(WithWeight(r.weight != 0, init));
    }
  }

  lemma NothingMore(s: seq<Record>)
    ensures s + [] == s
  {
  }

  lemma ArrangeJoins(arranged: seq<Record>, zeros: seq<Record>, others: seq<Record>, r: Record)
    requires arranged == Reverse(zeros) + others
    ensures [r] + arranged == Reverse(zeros + [r]) + others
    ensures arranged + [r] == Reverse(zeros) + (others + [r])
  {
    ReverseConcat(zeros, [r]);
    ReverseOne(r);
    Regroup([r], Reverse(zeros), others);
    Regroup(Reverse(zeros), others, [r]);
  }

  lemma ReverseOne(r: Record)
    ensures Reverse([r]) == [r]
  {
    assert Reverse([r][1..]) == [];
  }

  lemma RemoveTakesOne(rs: seq<Record>, k: nat)
    requires k < |rs|
    ensures multiset(rs) == multiset{rs[k]} + multiset(Remove(rs, k))
  {
    assert rs == rs[..k] + [rs[k]] + rs[k + 1..];
  }

  lemma {:induction false} WeightOrderIsPermutation(rs: seq<Record>, out: seq<Record>)
    requires WeightOrder(rs, out)
    ensures multiset(out) == multiset(rs)
    decreases |rs|
  {
    if rs != [] {
      var magic :| LegalDraw(rs, magic) && PicksFirst(rs, magic, out);
      var k := Pick(rs, 0, magic);
      WeightOrderIsPermutation(Remove(rs, k), out[1..]);
      RemoveTakesOne(rs, k);
      assert out == [out[0]] + out[1..];
    }
  }

  lemma {:induction false} SortIsPermutation(rs: seq<Record>, out: seq<Record>)
    requires SortOrder(rs, out)
    ensures multiset(out) == multiset(rs)
    decreases |rs|
  {
    if rs != [] {
      var k := Lead(rs, rs[0].priority);
      WeightOrderIsPermutation(Arrange(rs[..k]), out[..k]);
      SortIsPermutation(rs[k..], out[k..]);
      SplitCounts(rs, k);
      SplitCounts(out, k);
    }
  }

  lemma SplitCounts(rs: seq<Record>, k: nat)
    requires k <= |rs|
    ensures multiset(rs) == multiset(rs[..k]) + multiset(rs[k..])
  {
    assert rs == rs[..k] + rs[k..];
  }

  lemma SamePriority(a: seq<Record>, b: seq<Record>, p: uint16)
    requires multiset(a) == multiset(b) && forall r :: r in b ==> r.priority == p
    ensures forall r :: r in a ==> r.priority == p
  {
    forall r | r in a
      ensures r.priority == p
    {
      assert r in multiset(a);
    }
  }

  lemma {:induction false} SortedStaysSorted(rs: seq<Record>, out: seq<Record>)
    requires Sorted(rs) && SortOrder(rs, out)
    ensures Sorted(out)
    decreases |rs|
  {
    if rs != [] {
      var p := rs[0].priority;
      var k := Lead(rs, p);
      WeightOrderIsPermutation(Arrange(rs[..k]), out[..k]);
      SamePriority(out[..k], rs[..k], p);
      SortedStaysSorted(rs[k..], out[k..]);
      SortIsPermutation(rs[k..], out[k..]);
      forall r | r in out[k..]
        ensures p <= r.priority
      {
        assert r in multiset(out[k..]);
        assert r in rs[k..];
      }
      GroupThenRest(out, k, p);
    }
  }

  lemma GroupThenRest(out: seq<Record>, k: nat, p: uint16)
    requires k <= |out| && Sorted(out[k..])
    requires forall r :: r in out[..k] ==> r.priority == p
    requires forall r :: r in out[k..] ==> p <= r.priority
    ensures Sorted(out)
  {
  }

  // ----- Records of weight zero -----

  /** The records of weight zero and priority `p`, in order. */
  function Zeros(p: uint16, rs: seq<Record>): (out: seq<Record>) {
    if rs == [] then []
    else (if rs[0].weight == 0 && rs[0].priority == p then [rs[0]] else []) + Zeros(p, rs[1..])
  }

  lemma {:induction false} ZerosConcat(p: uint16, a: seq<Record>, b: seq<Record>)
    ensures Zeros(p, a + b) == Zeros(p, a) + Zeros(p, b)
  {
    if a == [] {
      assert a + b == b;
    } else {
      assert (a + b)[1..] == a[1..] + b;
      ZerosConcat(p, a[1..], b);
    }
  }

  function Reverse<T>(s: seq<T>): (r: seq<T>) {
    if s == [] then [] else Reverse(s[1..]) + [s[0]]
  }

  lemma {:induction false} ReverseConcat<T>(a: seq<T>, b: seq<T>)
    ensures Reverse(a + b) == Reverse(b) + Reverse(a)
  {
    if a == [] {
      assert a + b == b;
    } else {
      assert (a + b)[1..] == a[1..] + b;
      ReverseConcat(a[1..], b);
    }
  }

  lemma {:induction false} ReverseTwice<T>(s: seq<T>)
    ensures Reverse(Reverse(s)) == s
  {
    if s != [] {
      ReverseConcat(Reverse(s[1..]), [s[0]]);
      ReverseTwice(s[1..]);
    }
  }

  /** A record of weight zero is only ever picked at the head of the list. */
  lemma ZeroIsPickedAtHead(rs: seq<Record>, magic: nat)
    requires rs != [] && LegalDraw(rs, magic) && rs[Pick(rs, 0, magic)].weight == 0
    ensures Pick(rs, 0, magic) == 0
  {
    if Pick(rs, 0, magic) > 0 {
      ZeroAddsNothing(rs, Pick(rs, 0, magic));
    }
  }

  lemma ZeroAddsNothing(rs: seq<Record>, k: nat)
    requires 0 < k < |rs| && rs[k].weight == 0
    ensures Running(rs, k) == Running(rs, k - 1)
  {
    assert rs[..k + 1][..k] == rs[..k];
  }

  lemma RemoveKeepsZeros(p: uint16, rs: seq<Record>, k: nat)
    requires k < |rs| && rs[k].weight != 0
    ensures Zeros(p, Remove(rs, k)) == Zeros(p, rs)
  {
    ZerosConcat(p, rs[..k], rs[k + 1..]);
    ZerosConcat(p, rs[..k], rs[k..]);
    assert rs == rs[..k] + rs[k..] && rs[k..][1..] == rs[k + 1..];
  }

  lemma {:induction false} PicksKeepZeros(p: uint16, rs: seq<Record>, out: seq<Record>)
    requires WeightOrder(rs, out)
    ensures Zeros(p, out) == Zeros(p, rs)
    decreases |rs|
  {
    if rs != [] {
      var magic :| LegalDraw(rs, magic) && PicksFirst(rs, magic, out);
      var k := Pick(rs, 0, magic);
      PicksKeepZeros(p, Remove(rs, k), out[1..]);
      if rs[k].weight == 0 {
        ZeroIsPickedAtHead(rs, magic);
        assert Remove(rs, k) == rs[1..];
      } else {
        RemoveKeepsZeros(p, rs, k);
      }
    }
  }

  lemma ZerosOfOne(p: uint16, r: Record)
    ensures Reverse(Zeros(p, [r])) == Zeros(p, [r])
    ensures r.weight != 0 ==> Zeros(p, [r]) == []
  {
  }

  lemma {:induction false} ArrangeReversesZeros(p: uint16, run: seq<Record>)
    ensures Zeros(p, Arrange(run)) == Reverse(Zeros(p, run))
  {
    if run != [] {
      var init, r := run[..|run| - 1], run[|run| - 1];
      assert run == init + [r];
      ArrangeReversesZeros(p, init);
      ZerosOfOne(p, r);
      calc {
        Reverse(Zeros(p, run));
        { ZerosConcat(p, init, [r]); }
        Reverse(Zeros(p, init) + Zeros(p, [r]));
        { ReverseConcat(Zeros(p, init), Zeros(p, [r])); }
        Zeros(p, [r]) + Zeros(p, Arrange(init));
        { ZerosConcat(p, [r], Arrange(init)); ZerosConcat(p, Arrange(init), [r]); }
        Zeros(p, Arrange(run));
      }
    }
  }

  lemma {:induction false} NoZeros(p: uint16, rs: seq<Record>)
    requires forall r :: r in rs ==> r.priority != p
    ensures Zeros(p, rs) == []
  {
    if rs != [] {
      NoZeros(p, rs[1..]);
    }
  }

  lemma OnePartHasZeros(p: uint16, rs: seq<Record>, k: nat)
    requires Sorted(rs) && rs != [] && k == Lead(rs, rs[0].priority)
    ensures Zeros(p, rs[..k]) == [] || Zeros(p, rs[k..]) == []
  {
    if p == rs[0].priority {
      NoZeros(p, rs[k..]);
    } else {
      NoZeros(p, rs[..k]);
    }
  }

  lemma ZerosOfGroups(p: uint16, rs: seq<Record>, k: nat)
    requires Sorted(rs) && rs != [] && k == Lead(rs, rs[0].priority)
    ensures Reverse(Zeros(p, rs)) == Reverse(Zeros(p, rs[..k])) + Reverse(Zeros(p, rs[k..]))
  {
    var front, back := Zeros(p, rs[..k]), Zeros(p, rs[k..]);
    OnePartHasZeros(p, rs, k);
    ZerosSplit(p, rs, k);
    assert front == [] ==> front + back == back;
    assert back == [] ==> front + back == front;
  }

  lemma SortedRest(rs: seq<Record>, k: nat)
    requires Sorted(rs) && k <= |rs|
    ensures Sorted(rs[k..])
  {
  }

  lemma GroupReversesZeros(p: uint16, run: seq<Record>, out: seq<Record>, k: nat)
    requires k <= |out| && WeightOrder(Arrange(run), out[..k])
    ensures Zeros(p, out) == Reverse(Zeros(p, run)) + Zeros(p, out[k..])
  {
    PicksReverseZeros(p, run, out[..k]);
    ZerosSplit(p, out, k);
  }

  lemma PicksReverseZeros(p: uint16, run: seq<Record>, out: seq<Record>)
    requires WeightOrder(Arrange(run), out)
    ensures Zeros(p, out) == Reverse(Zeros(p, run))
  {
    PicksKeepZeros(p, Arrange(run), out);
    ArrangeReversesZeros(p, run);
  }

  lemma ZerosSplit(p: uint16, rs: seq<Record>, k: nat)
    requires k <= |rs|
    ensures Zeros(p, rs) == Zeros(p, rs[..k]) + Zeros(p, rs[k..])
  {
    ZerosConcat(p, rs[..k], rs[k..]);
    assert rs == rs[..k] + rs[k..];
  }

  lemma {:induction false} SortReversesZeros(p: uint16, rs: seq<Record>, out: seq<Record>)
    requires Sorted(rs) && SortOrder(rs, out)
    ensures Zeros(p, out) == Reverse(Zeros(p, rs))
    decreases |rs|
  {
    if rs != [] {
      var k := Lead(rs, rs[0].priority);
      SortedRest(rs, k);
      SortReversesZeros(p, rs[k..], out[k..]);
      GroupReversesZeros(p, rs[..k], out, k);
      ZerosOfGroups(p, rs, k);
    }
  }

  lemma {:induction false} AddingPrependsZeros(p: uint16, rs: seq<Record>, r: Record)
    requires Sorted(rs)
    ensures Zeros(p, AddRecord(rs, r)) == Zeros(p, [r]) + Zeros(p, rs)
  {
    if rs != [] && r.priority > rs[0].priority {
      AddingPrependsZeros(p, rs[1..], r);
      if r.priority == p {
        assert Zeros(p, rs) == Zeros(p, rs[1..]);
      }
    } else {
      ZerosConcat(p, [r], rs);
    }
  }

  lemma {:induction false} AddAllSorted(added: seq<Record>)
    ensures Sorted(AddAll(added)) && multiset(AddAll(added)) == multiset(added)
  {
    if added != [] {
      var init, r := added[..|added| - 1], added[|added| - 1];
      assert added == init + [r];
      AddAllSorted(init);
      AddRecordSorted(AddAll(init), r);
    }
  }

  lemma {:induction false} AddAllReversesZeros(p: uint16, added: seq<Record>)
    ensures Zeros(p, AddAll(added)) == Reverse(Zeros(p, added))
  {
    if added != [] {
      var init, r := added[..|added| - 1], added[|added| - 1];
      assert added == init + [r];
      AddAllReversesZeros(p, init);
      AddAllSorted(init);
      AddingPrependsZeros(p, AddAll(init), r);
      ZerosOfOne(p, r);
      ZerosConcat(p, init, [r]);
      ReverseConcat(Zeros(p, init), Zeros(p, [r]));
    }
  }

  /**
   Whatever is added and whatever is drawn: the sorted list is a permutation of the records
   added, priorities never decrease along it, and the records of weight zero of one priority
   stand in the order they were added in.
   */
  lemma SortedRecords(added: seq<Record>, out: seq<Record>, p: uint16)
    requires SortOrder(AddAll(added), out)
    ensures multiset(out) == multiset(added)
    ensures Sorted(out)
    ensures Zeros(p, out) == Zeros(p, added)
  {
    AddAllSorted(added);
    AddAllReversesZeros(p, added);
    SortIsPermutation(AddAll(added), out);
    SortedStaysSorted(AddAll(added), out);
    SortReversesZeros(p, AddAll(added), out);
    ReverseTwice(Zeros(p, added));
  }
}

/** The step counter: the hub's count restarts when the hub resets, the reported one must not. */
module StepCounter {

  const WRAP := 0x1_0000_0000

  predicate Word(n: int) {
    0 <= n < WRAP
  }

  // ----- 32-bit stitching

  datatype Stitch = Stitch(last: int, offset: int)

  function Next(s: Stitch, raw: int): Stitch {
    var offset := if (raw + s.offset) % WRAP < s.last then s.last else s.offset;
    Stitch((raw + offset) % WRAP, offset)
  }

  /** The counts reported for a sequence of raw counts. */
  function Reports(s: Stitch, raws: seq<int>): seq<int>
    decreases |raws|
  {
    if raws == [] then [] else [Next(s, raws[0]).last] + Reports(Next(s, raws[0]), raws[1..])
  }

  // ----- the steps really taken

  /** The steps between two raw counts: all of the new count when it dropped. */
  function Increase(prev: int, raw: int): int {
    if raw < prev then raw else raw - prev
  }

  function Total(prev: int, raws: seq<int>): int
    decreases |raws|
  {
    if raws == [] then 0 else Increase(prev, raws[0]) + Total(raws[0], raws[1..])
  }

  /** The running totals, starting from `base`. */
  function Totals(base: int, prev: int, raws: seq<int>): seq<int>
    decreases |raws|
  {
    if raws == [] then []
    else [base + Increase(prev, raws[0])] + Totals(base + Increase(prev, raws[0]), raws[0], raws[1..])
  }

  ghost predicate Words(raws: seq<int>) {
    forall i :: 0 <= i < |raws| ==> Word(raws[i])
  }

  /** Counts that never fall below their predecessor, nor the first below `from`. */
  predicate Climbs(from: int, counts: seq<int>)
    decreases |counts|
  {
    counts == [] || (from <= counts[0] && Climbs(counts[0], counts[1..]))
  }

  /** The stitch has followed the raw counts up to `prev` and a total that still fits. */
  predicate Follows(s: Stitch, prev: int, total: int) {
    s.last == total && s.offset + prev == total && Word(total) && Word(prev) && 0 <= s.offset
  }

  lemma {:induction false} TotalNonNegative(prev: int, raws: seq<int>)
    requires Words(raws)
    ensures 0 <= Total(prev, raws)
    decreases |raws|
  {
    if raws != [] {
      TotalNonNegative(raws[0], raws[1..]);
    }
  }

  /** As long as the total fits, a reading adds its steps. */
  lemma NextFollows(s: Stitch, prev: int, total: int, raw: int)
    requires Follows(s, prev, total) && Word(raw) && total + Increase(prev, raw) < WRAP
    ensures Follows(Next(s, raw), raw, total + Increase(prev, raw))
  {
    assert raw + s.offset < WRAP;
  }

  /** The reading at which the total no longer fits makes the reported count fall. */
  lemma NextOverflows(s: Stitch, prev: int, total: int, raw: int)
    requires Follows(s, prev, total) && Word(raw) && total + Increase(prev, raw) >= WRAP
    ensures Next(s, raw).last < total
  {
    assert (raw + s.offset) % WRAP < total;
    assert WRAP <= raw + total < 2 * WRAP;
  }

  lemma {:induction false} ReportsFollow(s: Stitch, prev: int, total: int, raws: seq<int>)
    requires Follows(s, prev, total) && Words(raws)
    ensures Climbs(total, Reports(s, raws)) <==> total + Total(prev, raws) < WRAP
    ensures total + Total(prev, raws) < WRAP ==> Reports(s, raws) == Totals(total, prev, raws)
    decreases |raws|
  {
    if raws != [] {
      TotalNonNegative(raws[0], raws[1..]);
      if total + Increase(prev, raws[0]) < WRAP {
        NextFollows(s, prev, total, raws[0]);
        ReportsFollow(Next(s, raws[0]), raws[0], total + Increase(prev, raws[0]), raws[1..]);
      } else {
        NextOverflows(s, prev, total, raws[0]);
      }
    }
  }

  /** The reported count never decreases if and only if the total fits 32 bits, and then it is the
      running total of the steps. */
  lemma ReportedIsTotal(raws: seq<int>)
    requires Words(raws)
    ensures Climbs(0, Reports(Stitch(0, 0), raws)) <==> Total(0, raws) < 0x1_0000_0000
    ensures Total(0, raws) < 0x1_0000_0000 ==> Reports(Stitch(0, 0), raws) == Totals(0, 0, raws)
  {
    ReportsFollow(Stitch(0, 0), 0, 0, raws);
  }

  // ----- the stateful code

  /** The count in a record of four bytes, most significant first. */
  function RawCount(data: seq<bv8>): (raw: int)
    requires |data| == 4
    ensures Word(raw)
  {
    data[0] as int * 0x100_0000 + data[1] as int * 0x1_0000 + data[2] as int * 0x100 + data[3] as int
  }

  /** The bytes count from the most significant on: the first difference decides. With the range this
      leaves only one possible value for every record. */
  lemma RawCountOrders(a: seq<bv8>, b: seq<bv8>, i: nat)
    requires |a| == |b| == 4 && i < 4 && a[i] as int < b[i] as int
    requires forall j :: 0 <= j < i ==> a[j] == b[j]
    ensures 0 <= RawCount(a) < RawCount(b) < 0x1_0000_0000
  {
    assert i > 0 ==> a[0] == b[0];
    assert i > 1 ==> a[1] == b[1];
    assert i > 2 ==> a[2] == b[2];
  }

  class StepCounter {
    var lastStepcount: int
    var stepOffset: int

    ghost predicate Valid()
      reads this
    {
      Word(lastStepcount) && Word(stepOffset)
    }

    ghost function Value(): Stitch
      reads this
    {
      Stitch(lastStepcount, stepOffset)
    }

    constructor ()
      ensures Valid() && Value() == Stitch(0, 0)
    {
      lastStepcount, stepOffset := 0, 0;
    }

    method Count(data: seq<bv8>) returns (steps: int)
      requires Valid() && |data| == 4
      modifies this
      ensures Valid()
      ensures Value() == Next(old(Value()), RawCount(data)) && steps == lastStepcount
    {
      var stepcount := RawCount(data);
      if (stepcount + stepOffset) % WRAP < lastStepcount {
        stepOffset := lastStepcount;
      }
      lastStepcount := (stepcount + stepOffset) % WRAP;
      return lastStepcount;
    }
  }

  function RawCounts(records: seq<seq<bv8>>): (raws: seq<int>)
    requires forall i :: 0 <= i < |records| ==> |records[i]| == 4
    ensures |raws| == |records| && Words(raws)
    ensures forall i :: 0 <= i < |records| ==> raws[i] == RawCount(records[i])
  {
    seq(|records|, i requires 0 <= i < |records| => RawCount(records[i]))
  }

  lemma ReportsFrom(s: Stitch, raws: seq<int>, i: nat, counts: seq<int>)
    requires i < |raws|
    ensures var next := Next(s, raws[i]);
      (counts + [next.last]) + Reports(next, raws[i + 1..]) == counts + Reports(s, raws[i..])
  {
    hide Next;
    assert raws[i..][0] == raws[i] && raws[i..][1..] == raws[i + 1..];
  }

  /** Any sequence of records from power-on. */
  method CountAll(records: seq<seq<bv8>>) returns (counts: seq<int>)
    requires forall i :: 0 <= i < |records| ==> |records[i]| == 4
    ensures Climbs(0, counts) <==> Total(0, RawCounts(records)) < WRAP
    ensures Total(0, RawCounts(records)) < WRAP ==> counts == Totals(0, 0, RawCounts(records))
  {
    ghost var raws := RawCounts(records);
    hide Next;
    hide RawCounts;
    hide RawCount;
    var counter := new StepCounter();
    counts := [];
    var i := 0;
    assert raws[0..] == raws;
    while i < |records|
      invariant 0 <= i <= |records| && counter.Valid()
      invariant counts + Reports(counter.Value(), raws[i..]) == Reports(Stitch(0, 0), raws)
    {
      ReportsFrom(counter.Value(), raws, i, counts);
      var steps := counter.Count(records[i]);
      counts := counts + [steps];
      i := i + 1;
    }
    assert counts == Reports(Stitch(0, 0), raws);
    ReportedIsTotal(raws);
  }
}

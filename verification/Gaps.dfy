/**
  The receiver's arithmetic over sequence numbers: what countGap adds up, in Go's
  uint64, and what the total means for the messages that never arrived.
 */
module Gaps {
  import opened Wire
  import opened ReplyStreams

  const TWO64: nat := 0x1_0000_0000_0000_0000

  type uint64 = x: nat | x < TWO64

  /** The two counters: the highest number seen, and how many numbers were skipped. */
  datatype Count = Count(highest: uint64, gaps: uint64)

  const FRESH := Count(0, 0)

  /** A sum or difference as a uint64 holds it. */
  function Wrap(x: int): (r: uint64)
    ensures 0 <= x < TWO64 ==> r == x
  {
    x % TWO64
  }

  /** One step of countGap, wrapping where uint64 does. */
  function Step(c: Count, n: uint64): Count {
    var gaps := if n > Wrap(c.highest + 1) then Wrap(c.gaps + n - c.highest - 1) else c.gaps;
    Count(if n > c.highest then n else c.highest, gaps)
  }

  function CountAll(ns: seq<uint64>): Count {
    if ns == [] then FRESH else Step(CountAll(ns[..|ns| - 1]), ns[|ns| - 1])
  }

  /** How many of the numbers, as they arrived, went past everything before them. */
  function NewMaxima(ns: seq<uint64>): nat {
    if ns == [] then 0
    else NewMaxima(ns[..|ns| - 1]) + if ns[|ns| - 1] > Highest(ns[..|ns| - 1]) then 1 else 0
  }

  function Highest(ns: seq<uint64>): (h: uint64)
    ensures forall n :: n in ns ==> n <= h
    ensures h == 0 || h in ns
  {
    if ns == [] then 0
    else
      var before := Highest(ns[..|ns| - 1]);
      var last := ns[|ns| - 1];
      assert ns == ns[..|ns| - 1] + [last];
      if last > before then last else before
  }

  /** The numbers up to the highest that never arrived. */
  function Missing(ns: seq<uint64>): set<nat> {
    set k: nat | 1 <= k <= Highest(ns) && k !in ns
  }

  /** The numbers that arrived for the first time after a higher one had. */
  function Late(ns: seq<uint64>): set<nat> {
    if ns == [] then {}
    else
      var before := ns[..|ns| - 1];
      var last := ns[|ns| - 1];
      Late(before) + if 0 < last < Highest(before) && last !in before then {last as nat} else {}
  }

  predicate InRange(ns: seq<uint64>) {
    forall i :: 0 <= i < |ns| ==> ns[i] < TWO64 - 1
  }

  /**
    Under any reorder and any duplication, the skipped count and the number of new maxima
    add up to the highest number seen, so the counter neither overflows nor undercounts.
   */
  lemma {:induction false} GapsPlusMaxima(ns: seq<uint64>)
    requires InRange(ns)
    ensures CountAll(ns).highest == Highest(ns)
    ensures CountAll(ns).gaps + NewMaxima(ns) == Highest(ns)
  {
    if ns != [] {
      var before, last := ns[..|ns| - 1], ns[|ns| - 1];
      GapsPlusMaxima(before);
      StepInRange(CountAll(before), last);
    }
  }

  lemma StepInRange(c: Count, n: uint64)
    requires c.gaps <= c.highest < TWO64 - 1 && n < TWO64 - 1
    ensures Step(c, n) == if n > c.highest then Count(n, c.gaps + n - c.highest - 1) else c
  {
  }

  lemma MissingAfterJump(before: seq<uint64>, last: uint64)
    requires last > Highest(before)
    ensures |Missing(before + [last])| == |Missing(before)| + last - Highest(before) - 1
  {
    hide Between;
    var ns := before + [last];
    assert ns[..|ns| - 1] == before;
    var skipped := Between(Highest(before), last);
    forall k: nat ensures k in Missing(ns) <==> k in Missing(before) || k in skipped {
      assert k in before ==> k <= Highest(before);
    }
    assert Missing(ns) == Missing(before) + skipped;
    assert Missing(before) !! skipped;
  }

  lemma MissingAfterOld(before: seq<uint64>, last: uint64)
    requires last <= Highest(before)
    ensures Missing(before + [last]) == Missing(before) - {last as nat}
    ensures last as nat in Missing(before) <==> 0 < last && last !in before
  {
    var ns := before + [last];
    assert ns[..|ns| - 1] == before;
  }

  /** What the count is: the numbers that never arrived, and those that arrived late. */
  lemma {:induction false} GapsCountMissingAndLate(ns: seq<uint64>)
    requires InRange(ns)
    ensures CountAll(ns).gaps == |Missing(ns)| + |Late(ns)|
    ensures forall k :: k in Late(ns) ==> k in ns && k < Highest(ns)
  {
    if ns == [] {
      assert Missing(ns) == {};
    } else {
      var before, last := ns[..|ns| - 1], ns[|ns| - 1];
      assert ns == before + [last];
      GapsCountMissingAndLate(before);
      GapsPlusMaxima(before);
      StepInRange(CountAll(before), last);
      if last > Highest(before) {
        MissingAfterJump(before, last);
      } else {
        MissingAfterOld(before, last);
        LateGrowsByOne(before, last);
      }
    }
  }

  lemma LateGrowsByOne(before: seq<uint64>, last: uint64)
    requires last <= Highest(before)
    requires forall k :: k in Late(before) ==> k in before && k < Highest(before)
    ensures var first := 0 < last && last !in before;
            Late(before + [last]) == Late(before) + (if first then {last as nat} else {}) &&
            |Late(before + [last])| == |Late(before)| + if first then 1 else 0
  {
    assert (before + [last])[..|before|] == before;
  }

  /** The numbers strictly between two, of which there are high - low - 1. */
  function Between(low: nat, high: nat): (s: set<nat>)
    requires low < high
    ensures forall k :: k in s <==> low < k < high
    ensures |s| == high - low - 1
    decreases high
  {
    if high == low + 1 then {} else Between(low, high - 1) + {high - 1}
  }

  // ----- a lossy channel in front of a numbered set

  /** What a channel delivers: the messages it did not lose, in order. */
  function Deliver(sent: seq<Sent>, kept: seq<bool>): seq<Sent>
    requires |sent| == |kept|
  {
    if sent == [] then []
    else Deliver(sent[..|sent| - 1], kept[..|sent| - 1]) + if kept[|sent| - 1] then [sent[|sent| - 1]] else []
  }

  function Numbers(ms: seq<Sent>): (ns: seq<uint64>)
    requires forall m :: m in ms ==> m.number < TWO64
    ensures |ns| == |ms| && forall i :: 0 <= i < |ms| ==> ns[i] == ms[i].number
  {
    seq(|ms|, i requires 0 <= i < |ms| => ms[i].number)
  }

  predicate Increasing(ns: seq<uint64>) {
    forall i, j :: 0 <= i < j < |ns| ==> ns[i] < ns[j]
  }

  lemma {:induction false} IncreasingCount(ns: seq<uint64>)
    requires Increasing(ns) && InRange(ns) && (ns != [] ==> 0 < ns[0])
    ensures ns != [] ==> CountAll(ns) == Count(ns[|ns| - 1], CountAll(ns).gaps)
    ensures ns != [] ==> CountAll(ns).gaps + |ns| == ns[|ns| - 1]
  {
    if |ns| > 1 {
      IncreasingCount(ns[..|ns| - 1]);
      StepInRange(CountAll(ns[..|ns| - 1]), ns[|ns| - 1]);
    } else if |ns| == 1 {
      assert ns[..0] == [];
      StepInRange(FRESH, ns[0]);
    }
  }

  predicate OrderedBelow(ms: seq<Sent>, top: nat) {
    && (forall i :: 0 <= i < |ms| ==> 1 <= ms[i].number <= top)
    && forall i, j :: 0 <= i < j < |ms| ==> ms[i].number < ms[j].number
  }

  lemma {:induction false} DeliverKeepsOrder(sent: seq<Sent>, kept: seq<bool>)
    requires |sent| == |kept| && Numbered(sent)
    ensures OrderedBelow(Deliver(sent, kept), |sent|)
    ensures sent != [] && kept[|sent| - 1] ==>
            var got := Deliver(sent, kept); got != [] && got[|got| - 1] == sent[|sent| - 1]
  {
    if sent != [] {
      var last := |sent| - 1;
      var before := Deliver(sent[..last], kept[..last]);
      DeliverKeepsOrder(sent[..last], kept[..last]);
      assert OrderedBelow(before, last);
      assert sent[last].number == |sent|;
      assert OrderedBelow(before + [sent[last]], |sent|);
      assert OrderedBelow(before, |sent|);
      assert before + [] == before;
    }
  }

  /**
    Across a channel that loses but does not reorder, a reader holding the last message of
    a set has counted exactly the messages it was not given: sent minus delivered. The set
    is any a ReplyStream can produce.
   */
  lemma GapsAtTerminal(calls: seq<Call>, kept: seq<bool>)
    requires var sent := Run(calls); |kept| == |sent| && 0 < |sent| < TWO64 - 1 && kept[|sent| - 1]
    ensures var sent := Run(calls);
            (forall m :: m in Deliver(sent, kept) ==> m.number < TWO64) &&
            CountAll(Numbers(Deliver(sent, kept))).gaps == |sent| - |Deliver(sent, kept)|
  {
    var sent := Run(calls);
    NumberingIsGapFree(calls);
    DeliverKeepsOrder(sent, kept);
    IncreasingCount(Numbers(Deliver(sent, kept)));
  }

  // ----- where uint64 matters

  /** The same step over numbers that never wrap. */
  function UnboundedGaps(c: Count, n: uint64): nat {
    if n > c.highest + 1 then c.gaps + n - c.highest - 1 else c.gaps
  }

  /**
    The uint64 step is the unbounded one exactly while the highest number seen is not the
    last a uint64 holds: there highest+1 wraps to zero and every later number, a duplicate
    included, is counted as a hole.
   */
  lemma WrapsOnlyAtTheLastNumber(c: Count, n: uint64)
    requires c.gaps <= c.highest
    ensures Step(c, n).gaps == UnboundedGaps(c, n) <==> !(c.highest == TWO64 - 1 && n > 0)
  {
  }
}

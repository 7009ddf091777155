/** What the bisecting fetch guarantees: exact tiling, total work, and its cost under a log cap. */
module BisectionLaws {
  import opened Wrappers
  import opened Bisection
  import opened Spans

  // ----- Exact tiling -----

  /** The leaves cover [from, to] in ascending order without gap or overlap. */
  ghost predicate Tiles(leaves: seq<Leaf>, from: int, to: int) {
    if leaves == [] then from > to
    else
      && leaves[0].range.from == from
      && from <= leaves[0].range.to <= to
      && Tiles(leaves[1..], leaves[0].range.to + 1, to)
  }

  /** What the provider returned for the leaves, in order. */
  ghost function Collect<L>(fetch: Fetcher<L>, leaves: seq<Leaf>): seq<L>
    requires Accepted(fetch, leaves)
  {
    if leaves == [] then []
    else fetch(leaves[0].call, leaves[0].range.from, leaves[0].range.to).value + Collect(fetch, leaves[1..])
  }

  ghost predicate Accepted<L>(fetch: Fetcher<L>, leaves: seq<Leaf>) {
    forall i :: 0 <= i < |leaves| ==> fetch(leaves[i].call, leaves[i].range.from, leaves[i].range.to).Ok?
  }

  lemma {:induction false} TilesAppend(a: seq<Leaf>, b: seq<Leaf>, from: int, mid: int, to: int)
    requires from <= mid + 1 && mid <= to
    requires Tiles(a, from, mid) && Tiles(b, mid + 1, to)
    ensures Tiles(a + b, from, to)
  {
    if a == [] {
      assert a + b == b;
    } else {
      TilesAppend(a[1..], b, a[0].range.to + 1, mid, to);
      assert (a + b)[1..] == a[1..] + b;
    }
  }

  lemma {:induction false} CollectAppend<L>(fetch: Fetcher<L>, a: seq<Leaf>, b: seq<Leaf>)
    requires Accepted(fetch, a) && Accepted(fetch, b)
    ensures Accepted(fetch, a + b)
    ensures Collect(fetch, a + b) == Collect(fetch, a) + Collect(fetch, b)
  {
    if a == [] {
      assert a + b == b;
    } else {
      assert (a + b)[1..] == a[1..] + b;
      CollectAppend(fetch, a[1..], b);
    }
  }

  /** A successful call is a tiling of the range by accepted sub-requests, and returns their concatenation. */
  lemma {:induction false} SuccessTilesTheRange<L>(fetch: Fetcher<L>, call: nat, from: u64, to: u64)
    requires from <= to
    requires Bisect(fetch, call, from, to).result.Ok?
    ensures var o := Bisect(fetch, call, from, to);
            && Tiles(o.leaves, from, to)
            && Accepted(fetch, o.leaves)
            && o.result.value == Collect(fetch, o.leaves)
            && |o.leaves| == o.splits + 1
    decreases (to - from)
  {
    if fetch(call, from, to).Ok? {
      var leaf := Leaf(call, Range(from, to));
      assert [leaf][1..] == [];
      assert Collect(fetch, [leaf][1..]) == [];
      assert Bisect(fetch, call, from, to).leaves == [leaf];
    } else {
      var mid := Midpoint(from, to);
      var left := Bisect(fetch, call + 1, from, mid);
      var right := Bisect(fetch, left.calls, mid + 1, to);
      SuccessTilesTheRange(fetch, call + 1, from, mid);
      SuccessTilesTheRange(fetch, left.calls, mid + 1, to);
      TilesAppend(left.leaves, right.leaves, from, mid, to);
      CollectAppend(fetch, left.leaves, right.leaves);
    }
  }

  // ----- Agreement with one unsplit fetch -----

  /** Whatever the provider accepts, it answers truthfully: the logs of the range, in any order. */
  ghost predicate Truthful<L(!new)>(chain: nat -> seq<L>, fetch: Fetcher<L>) {
    forall n: nat, a: u64, b: u64 :: TruthfulAt(chain, fetch, n, a, b)
  }

  ghost predicate TruthfulAt<L>(chain: nat -> seq<L>, fetch: Fetcher<L>, call: nat, from: u64, to: u64) {
    fetch(call, from, to).Ok? ==> multiset(fetch(call, from, to).value) == multiset(Span(chain, from, to + 1))
  }

  /** A truthful provider that also answers in block order. */
  ghost predicate InBlockOrder<L(!new)>(chain: nat -> seq<L>, fetch: Fetcher<L>) {
    forall n: nat, a: u64, b: u64 :: InBlockOrderAt(chain, fetch, n, a, b)
  }

  ghost predicate InBlockOrderAt<L>(chain: nat -> seq<L>, fetch: Fetcher<L>, call: nat, from: u64, to: u64) {
    fetch(call, from, to).Ok? ==> fetch(call, from, to).value == Span(chain, from, to + 1)
  }

  lemma HalvesTogether<L>(chain: nat -> seq<L>, from: nat, mid: nat, to: nat, left: seq<L>, right: seq<L>)
    requires from <= mid <= to
    requires multiset(left) == multiset(Span(chain, from, mid + 1))
    requires multiset(right) == multiset(Span(chain, mid + 1, to + 1))
    ensures multiset(left + right) == multiset(Span(chain, from, to + 1))
  {
    SpanJoin(chain, from, mid + 1, to + 1);
  }

  /** The two successful halves of a rejected range. */
  lemma SuccessfulHalves<L>(fetch: Fetcher<L>, call: nat, from: u64, to: u64) returns (mid: u64, second: nat)
    requires fetch(call, from, to).Err?
    requires Bisect(fetch, call, from, to).result.Ok?
    ensures from <= mid < to
    ensures var left, right := Bisect(fetch, call + 1, from, mid), Bisect(fetch, second, mid + 1, to);
            && left.result.Ok? && right.result.Ok?
            && Bisect(fetch, call, from, to).result.value == left.result.value + right.result.value
  {
    mid := Midpoint(from, to);
    second := Bisect(fetch, call + 1, from, mid).calls;
  }

  ghost predicate ReturnsTheRange<L>(chain: nat -> seq<L>, fetch: Fetcher<L>, call: nat, from: u64, to: u64) {
    var o := Bisect(fetch, call, from, to);
    o.result.Ok? ==> multiset(o.result.value) == multiset(Span(chain, from, to + 1))
  }

  lemma ReturnsTheRangeStep<L>(chain: nat -> seq<L>, fetch: Fetcher<L>, call: nat, from: u64, to: u64, mid: u64,
      second: nat)
    requires from <= mid < to
    requires Bisect(fetch, call + 1, from, mid).result.Ok? && Bisect(fetch, second, mid + 1, to).result.Ok?
    requires Bisect(fetch, call, from, to).result.Ok?
    requires Bisect(fetch, call, from, to).result.value
             == Bisect(fetch, call + 1, from, mid).result.value + Bisect(fetch, second, mid + 1, to).result.value
    requires ReturnsTheRange(chain, fetch, call + 1, from, mid) && ReturnsTheRange(chain, fetch, second, mid + 1, to)
    ensures ReturnsTheRange(chain, fetch, call, from, to)
  {
    HalvesTogether(chain, from, mid, to,
      Bisect(fetch, call + 1, from, mid).result.value, Bisect(fetch, second, mid + 1, to).result.value);
  }

  lemma LeafReturnsTheRange<L(!new)>(chain: nat -> seq<L>, fetch: Fetcher<L>, call: nat, from: u64, to: u64)
    requires Truthful(chain, fetch) && fetch(call, from, to).Ok?
    ensures ReturnsTheRange(chain, fetch, call, from, to)
  {
    assert TruthfulAt(chain, fetch, call, from, to);
  }

  lemma FailureReturnsNothing<L(!new)>(chain: nat -> seq<L>, fetch: Fetcher<L>, call: nat, from: u64, to: u64)
    requires Bisect(fetch, call, from, to).result.Err?
    ensures ReturnsTheRange(chain, fetch, call, from, to)
  {
  }

  /** However the range was cut up, success returns exactly the logs of the range. */
  lemma {:induction false} SuccessReturnsTheRange<L(!new)>(chain: nat -> seq<L>, fetch: Fetcher<L>, call: nat,
      from: u64, to: u64)
    requires Truthful(chain, fetch)
    ensures ReturnsTheRange(chain, fetch, call, from, to)
    decreases if from <= to then to - from else 0
  {
    if fetch(call, from, to).Ok? {
      LeafReturnsTheRange(chain, fetch, call, from, to);
    } else if Bisect(fetch, call, from, to).result.Err? {
      FailureReturnsNothing(chain, fetch, call, from, to);
    } else {
      var mid, second := SuccessfulHalves(fetch, call, from, to);
      SuccessReturnsTheRange(chain, fetch, call + 1, from, mid);
      SuccessReturnsTheRange(chain, fetch, second, mid + 1, to);
      ReturnsTheRangeStep(chain, fetch, call, from, to, mid, second);
    }
  }

  lemma LeafInOrder<L(!new)>(chain: nat -> seq<L>, fetch: Fetcher<L>, call: nat, from: u64, to: u64)
    requires InBlockOrder(chain, fetch) && fetch(call, from, to).Ok?
    ensures Bisect(fetch, call, from, to).result == Ok(Span(chain, from, to + 1))
  {
    assert InBlockOrderAt(chain, fetch, call, from, to);
  }

  lemma HalvesInOrder<L>(chain: nat -> seq<L>, fetch: Fetcher<L>, call: nat, from: u64, to: u64, mid: u64, second: nat)
    requires from <= mid < to
    requires Bisect(fetch, call + 1, from, mid).result == Ok(Span(chain, from, mid + 1))
    requires Bisect(fetch, second, mid + 1, to).result == Ok(Span(chain, mid + 1, to + 1))
    requires Bisect(fetch, call, from, to).result.Ok?
    requires Bisect(fetch, call, from, to).result.value
             == Bisect(fetch, call + 1, from, mid).result.value + Bisect(fetch, second, mid + 1, to).result.value
    ensures Bisect(fetch, call, from, to).result == Ok(Span(chain, from, to + 1))
  {
    SpanJoin(chain, from, mid + 1, to + 1);
  }

  /** From a provider that answers in block order, splitting is invisible: the result is the unsplit fetch. */
  lemma {:induction false} SplittingIsInvisible<L(!new)>(chain: nat -> seq<L>, fetch: Fetcher<L>, call: nat,
      from: u64, to: u64)
    requires InBlockOrder(chain, fetch)
    requires Bisect(fetch, call, from, to).result.Ok?
    ensures Bisect(fetch, call, from, to).result == Ok(Span(chain, from, to + 1))
    decreases if from <= to then to - from else 0
  {
    if fetch(call, from, to).Ok? {
      LeafInOrder(chain, fetch, call, from, to);
    } else {
      var mid, second := SuccessfulHalves(fetch, call, from, to);
      SplittingIsInvisible(chain, fetch, call + 1, from, mid);
      SplittingIsInvisible(chain, fetch, second, mid + 1, to);
      HalvesInOrder(chain, fetch, call, from, to, mid, second);
    }
  }

  // ----- Total work -----

  /** Whatever the errors: at most 2n - 1 requests for n blocks, and exactly 2s + 1 on success with s splits. */
  lemma {:induction false} TotalWork<L>(fetch: Fetcher<L>, call: nat, from: u64, to: u64)
    ensures var o := Bisect(fetch, call, from, to);
            && call < o.calls <= call + Range(from, to).Weight()
            && o.calls <= call + 2 * o.splits + 1
            && (o.result.Ok? ==> o.calls == call + 2 * o.splits + 1)
    decreases if from <= to then to - from else 0
  {
    if fetch(call, from, to).Err? && fetch(call, from, to).error.tooLarge && from < to {
      var mid := Midpoint(from, to);
      var left := Bisect(fetch, call + 1, from, mid);
      TotalWork(fetch, call + 1, from, mid);
      if left.result.Ok? {
        TotalWork(fetch, left.calls, mid + 1, to);
      }
    }
  }

  // ----- A provider with a log cap -----

  ghost function Total(counts: nat -> nat, from: nat, to: int): nat
    decreases (to + 1 - from)
  {
    if from > to then 0 else Total(counts, from, to - 1) + counts(to)
  }

  lemma {:induction false} TotalJoin(counts: nat -> nat, from: nat, mid: int, to: int)
    requires from <= mid + 1 && mid <= to
    ensures Total(counts, from, to) == Total(counts, from, mid) + Total(counts, mid + 1, to)
    decreases (to - mid)
  {
    if mid < to {
      TotalJoin(counts, from, mid, to - 1);
    }
  }

  lemma {:induction false} TotalContains(counts: nat -> nat, from: nat, to: int, block: nat)
    requires from <= block <= to
    ensures counts(block) <= Total(counts, from, to)
    decreases (to - from)
  {
    if block < to {
      TotalContains(counts, from, to - 1, block);
    }
  }

  /** The provider rejects a range exactly when it holds more than `cap` logs, and never fails otherwise. */
  ghost predicate Capped<L(!new)>(fetch: Fetcher<L>, counts: nat -> nat, cap: nat) {
    forall n: nat, a: u64, b: u64 :: CappedAt(fetch, counts, cap, n, a, b)
  }

  ghost predicate CappedAt<L>(fetch: Fetcher<L>, counts: nat -> nat, cap: nat, call: nat, from: u64, to: u64) {
    if Total(counts, from, to) > cap then fetch(call, from, to).Err? && fetch(call, from, to).error.tooLarge
    else fetch(call, from, to).Ok?
  }

  /** The call succeeds exactly when every single block fits; otherwise it stops at a block that does not. */
  lemma {:induction false} CappedCompleteness<L(!new)>(fetch: Fetcher<L>, counts: nat -> nat, cap: nat, call: nat,
      from: u64, to: u64)
    requires Capped(fetch, counts, cap) && from <= to
    ensures Bisect(fetch, call, from, to).result.Ok? <==> forall b: nat :: from <= b <= to ==> counts(b) <= cap
    decreases (to - from)
  {
    assert CappedAt(fetch, counts, cap, call, from, to);
    if fetch(call, from, to).Ok? {
      forall b: nat | from <= b <= to
        ensures counts(b) <= cap
      {
        TotalContains(counts, from, to, b);
      }
    } else if from == to {
      assert Total(counts, from, to) == Total(counts, from, to - 1) + counts(from);
    } else {
      var mid := Midpoint(from, to);
      var left := Bisect(fetch, call + 1, from, mid);
      CappedCompleteness(fetch, counts, cap, call + 1, from, mid);
      if left.result.Ok? {
        CappedCompleteness(fetch, counts, cap, left.calls, mid + 1, to);
      }
    }
  }

  /**
   For any provider: an error is the answer to the last request made, for a range inside the whole one, and a
   too-large error only ever comes out of a one-block request.
   */
  lemma {:induction false} TooLargeIsIrreducible<L>(fetch: Fetcher<L>, call: nat, from: u64, to: u64) returns (n: nat)
    requires from <= to
    requires Bisect(fetch, call, from, to).result.Err?
    ensures var o := Bisect(fetch, call, from, to);
            && from <= o.last.from <= o.last.to <= to
            && call <= n == o.calls - 1 && fetch(n, o.last.from, o.last.to) == o.result
            && (o.result.error.tooLarge ==> o.last.from == o.last.to)
    decreases (to - from)
  {
    TotalWork(fetch, call, from, to);
    n := call;
    if fetch(call, from, to).error.tooLarge && from < to {
      var mid := Midpoint(from, to);
      var left := Bisect(fetch, call + 1, from, mid);
      if left.result.Err? {
        n := TooLargeIsIrreducible(fetch, call + 1, from, mid);
      } else {
        TotalWork(fetch, call + 1, from, mid);
        n := TooLargeIsIrreducible(fetch, left.calls, mid + 1, to);
      }
    }
  }

  /** Each split answers a rejection of its own: a request for several blocks that the provider found too large. */
  ghost predicate Rejections<L>(fetch: Fetcher<L>, from: u64, to: u64, first: nat, next: nat, rejected: seq<Leaf>) {
    && (forall i :: 0 <= i < |rejected| ==> first <= rejected[i].call < next && Rejection(fetch, from, to, rejected[i]))
    && (forall i, j :: 0 <= i < j < |rejected| ==> rejected[i].call < rejected[j].call)
  }

  ghost predicate Rejection<L>(fetch: Fetcher<L>, from: u64, to: u64, leaf: Leaf) {
    && from <= leaf.range.from < leaf.range.to <= to
    && fetch(leaf.call, leaf.range.from, leaf.range.to).Err?
    && fetch(leaf.call, leaf.range.from, leaf.range.to).error.tooLarge
  }

  lemma JoinRejections<L>(fetch: Fetcher<L>, call: nat, from: u64, mid: u64, to: u64, second: nat, next: nat,
      left: seq<Leaf>, right: seq<Leaf>)
    requires from <= mid < to && call < second <= next
    requires Rejection(fetch, from, to, Leaf(call, Range(from, to)))
    requires Rejections(fetch, from, mid, call + 1, second, left)
    requires Rejections(fetch, mid + 1, to, second, next, right)
    ensures Rejections(fetch, from, to, call, next, [Leaf(call, Range(from, to))] + left + right)
  {
  }

  /** There is one rejection for every split, and no other error is ever answered by a split. */
  lemma {:induction false} SplitsAnswerRejections<L>(fetch: Fetcher<L>, call: nat, from: u64, to: u64)
    returns (rejected: seq<Leaf>)
    requires from <= to
    ensures var o := Bisect(fetch, call, from, to);
            && call < o.calls && |rejected| == o.splits
            && Rejections(fetch, from, to, call, o.calls, rejected)
    decreases (to - from)
  {
    if !(fetch(call, from, to).Err? && fetch(call, from, to).error.tooLarge && from < to) {
      rejected := [];
    } else {
      var mid := Midpoint(from, to);
      var left := Bisect(fetch, call + 1, from, mid);
      var first := SplitsAnswerRejections(fetch, call + 1, from, mid);
      var second, next := [], left.calls;
      if left.result.Ok? {
        second := SplitsAnswerRejections(fetch, left.calls, mid + 1, to);
        next := Bisect(fetch, left.calls, mid + 1, to).calls;
      }
      rejected := [Leaf(call, Range(from, to))] + first + second;
      JoinRejections(fetch, call, from, mid, to, left.calls, next, first, second);
      assert next == Bisect(fetch, call, from, to).calls;
    }
  }

  lemma MulMonotone(d: nat, a: nat, b: nat)
    ensures a <= b ==> d * a <= d * b
  {
  }

  lemma DivAtLeast(x: nat, d: nat, k: nat)
    requires d > 0 && d * k <= x
    ensures k <= x / d
  {
    var q := x / d;
    assert x == d * q + x % d;
    assert d * (q + 1) == d * q + d;
    MulMonotone(d, q + 1, k);
  }

  lemma DivAtMost(x: nat, d: nat)
    requires d > 0
    ensures d * (x / d) <= x
  {
    assert x == d * (x / d) + x % d;
  }

  lemma MulDistributes(d: nat, a: nat, b: nat)
    ensures d * (a + b) == d * a + d * b
  {
  }

  lemma DivAdds(a: nat, b: nat, d: nat)
    requires d > 0
    ensures a / d + b / d <= (a + b) / d
  {
    DivAtMost(a, d);
    DivAtMost(b, d);
    MulDistributes(d, a / d, b / d);
    DivAtLeast(a + b, d, a / d + b / d);
  }

  /** One level of the induction behind the split bound. */
  lemma SplitBoundStep(levels: nat, l: nat, r: nat, whole: nat, sl: nat, sr: nat, dr: nat)
    requires l + r <= whole && 1 <= whole
    requires dr <= levels
    requires sl <= levels * l && sr <= dr * r
    ensures 1 + sl + sr <= (levels + 1) * whole
  {
    MulMonotone(r, dr, levels);
    MulDistributes(levels, l, r);
    MulMonotone(levels, l + r, whole);
    assert (levels + 1) * whole == levels * whole + whole;
  }

  ghost function SplitLimit(counts: nat -> nat, cap: nat, from: u64, to: u64): nat {
    CeilLog2(Range(from, to).Size()) * (Total(counts, from, to) / (cap + 1))
  }

  /** The limits of the two halves, and the rejection itself, fit into the limit of a rejected range. */
  lemma SplitLimitHalves(counts: nat -> nat, cap: nat, from: u64, to: u64, sl: nat, sr: nat)
    requires from < to && Total(counts, from, to) > cap
    requires var mid := Midpoint(from, to);
             sl <= SplitLimit(counts, cap, from, mid) && sr <= SplitLimit(counts, cap, mid + 1, to)
    ensures 1 + sl + sr <= SplitLimit(counts, cap, from, to)
  {
    var mid := Midpoint(from, to);
    var dl, dr := CeilLog2(Range(from, mid).Size()), CeilLog2(Range(mid + 1, to).Size());
    TotalJoin(counts, from, mid, to);
    CeilLog2Monotone(Range(mid + 1, to).Size(), Range(from, mid).Size());
    HalvedLog(from, to);
    HalvesArithmetic(dl, dr, Total(counts, from, mid), Total(counts, mid + 1, to), cap, sl, sr);
  }

  lemma HalvesArithmetic(dl: nat, dr: nat, tl: nat, tr: nat, cap: nat, sl: nat, sr: nat)
    requires dr <= dl && tl + tr > cap
    requires sl <= dl * (tl / (cap + 1)) && sr <= dr * (tr / (cap + 1))
    ensures 1 + sl + sr <= (dl + 1) * ((tl + tr) / (cap + 1))
  {
    DivAdds(tl, tr, cap + 1);
    RejectedHoldsOne(tl + tr, cap);
    SplitBoundStep(dl, tl / (cap + 1), tr / (cap + 1), (tl + tr) / (cap + 1), sl, sr, dr);
  }

  lemma HalvedLog(from: u64, to: u64)
    requires from < to
    ensures CeilLog2(Range(from, to).Size()) == CeilLog2(Range(from, Midpoint(from, to)).Size()) + 1
  {
  }

  /** Halvings under a cap: on each of ceil(log2 n) levels at most floor(T / (cap + 1)) ranges are rejected. */
  lemma {:induction false} SplitBound<L(!new)>(fetch: Fetcher<L>, counts: nat -> nat, cap: nat, call: nat, from: u64,
      to: u64)
    requires Capped(fetch, counts, cap)
    ensures Bisect(fetch, call, from, to).splits <= SplitLimit(counts, cap, from, to)
    decreases if from <= to then to - from else 0
  {
    assert CappedAt(fetch, counts, cap, call, from, to);
    if fetch(call, from, to).Err? && from < to {
      var mid := Midpoint(from, to);
      var left := Bisect(fetch, call + 1, from, mid);
      SplitBound(fetch, counts, cap, call + 1, from, mid);
      if left.result.Ok? {
        SplitBound(fetch, counts, cap, left.calls, mid + 1, to);
        SplitLimitHalves(counts, cap, from, to, left.splits, Bisect(fetch, left.calls, mid + 1, to).splits);
      } else {
        SplitLimitHalves(counts, cap, from, to, left.splits, 0);
      }
    }
  }

  lemma RejectedHoldsOne(t: nat, cap: nat)
    requires t > cap
    ensures t / (cap + 1) >= 1
  {
    DivAtLeast(t, cap + 1, 1);
  }

  /** Requests under a cap: at most 1 + 2 * ceil(log2 n) * floor(T / (cap + 1)) for n blocks holding T logs. */
  lemma FetchBound<L(!new)>(fetch: Fetcher<L>, counts: nat -> nat, cap: nat, from: u64, to: u64)
    requires Capped(fetch, counts, cap)
    ensures var n := Range(from, to).Size();
            Bisect(fetch, 0, from, to).calls <= 1 + 2 * (CeilLog2(n) * (Total(counts, from, to) / (cap + 1)))
  {
    TotalWork(fetch, 0, from, to);
    SplitBound(fetch, counts, cap, 0, from, to);
  }

  /** CeilLog2 is the logarithm: n blocks need that many halvings and no fewer. */
  lemma {:induction false} CeilLog2IsTheLogarithm(n: nat)
    requires n >= 1
    ensures n <= Pow2(CeilLog2(n)) < 2 * n
    decreases n
  {
    if n > 1 {
      CeilLog2IsTheLogarithm((n + 1) / 2);
      var p := Pow2(CeilLog2((n + 1) / 2));
      assert Pow2(CeilLog2(n)) == 2 * p;
      PowIsOneOrEven(CeilLog2((n + 1) / 2));
    }
  }

  ghost function Pow2(k: nat): nat {
    if k == 0 then 1 else 2 * Pow2(k - 1)
  }

  lemma PowIsOneOrEven(k: nat)
    ensures Pow2(k) == 1 || Pow2(k) % 2 == 0
  {
  }
}

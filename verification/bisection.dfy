/**
 Bisecting log fetch: a block range that the provider rejects as too large is halved until every
 piece is accepted. The source runs an explicit work stack; `Bisect` is the recursion it stands for.
 */
module Bisection {
  import opened Wrappers

  /** A provider error; `tooLarge` is the answer of `is_log_response_too_large`. */
  datatype ChainError = ChainError(tooLarge: bool, detail: string)

  /**
   The provider as seen by one call of the loop: the answer to the `call`-th request for [from, to].
   The call number lets the same range be answered differently at different times.
   */
  type Fetcher<!L> = (nat, u64, u64) -> Result<seq<L>, ChainError>

  datatype Range = Range(from: u64, to: u64) {
    function Size(): nat {
      if from <= to then to - from + 1 else 0
    }

    /** An upper bound on the requests this range can still cost. */
    function Weight(): nat {
      if from <= to then 2 * Size() - 1 else 1
    }
  }

  /** A successful sub-request and the call number that served it. */
  datatype Leaf = Leaf(call: nat, range: Range)

  datatype Outcome<L> = Outcome(
    result: Result<seq<L>, ChainError>,
    calls: nat,        // number of the next request
    splits: nat,       // ranges that were halved
    leaves: seq<Leaf>, // accepted sub-ranges, in the order they were fetched
    last: Range        // the range of the last request
  )

  function Midpoint(from: u64, to: u64): (mid: u64)
    requires from < to
    ensures from <= mid < to
    ensures mid - from + 1 == (to - from + 2) / 2
  {
    from + (to - from) / 2
  }

  function CeilLog2(n: nat): nat {
    if n <= 1 then 0 else 1 + CeilLog2((n + 1) / 2)
  }

  /** The recursive reading of the algorithm: left half first, stop at the first error. */
  function Bisect<L>(fetch: Fetcher<L>, call: nat, from: u64, to: u64): Outcome<L>
    decreases if from <= to then to - from else 0
  {
    match fetch(call, from, to)
    case Ok(batch) => Outcome(Ok(batch), call + 1, 0, [Leaf(call, Range(from, to))], Range(from, to))
    case Err(e) =>
      if e.tooLarge && from < to then
        var mid := Midpoint(from, to);
        var left := Bisect(fetch, call + 1, from, mid);
        if left.result.Err? then left.(splits := left.splits + 1)
        else Join(left, Bisect(fetch, left.calls, mid + 1, to), 1)
      else Outcome(Err(e), call + 1, 0, [], Range(from, to))
  }

  function Join<L>(left: Outcome<L>, right: Outcome<L>, extraSplits: nat): Outcome<L>
    requires left.result.Ok?
  {
    Outcome(
      if right.result.Ok? then Ok(left.result.value + right.result.value) else right.result,
      right.calls,
      extraSplits + left.splits + right.splits,
      left.leaves + right.leaves,
      right.last)
  }

  // ----- The work stack -----

  /** What the loop still has to do: bisect the ranges of the stack from its top downwards. */
  ghost function Pending<L>(fetch: Fetcher<L>, call: nat, stack: seq<Range>, logs: seq<L>, last: Range): Outcome<L>
    decreases |stack|
  {
    if stack == [] then Outcome(Ok(logs), call, 0, [], last)
    else
      var top := stack[|stack| - 1];
      var o := Bisect(fetch, call, top.from, top.to);
      if o.result.Err? then o
      else
        var rest := Pending(fetch, o.calls, stack[..|stack| - 1], logs + o.result.value, o.last);
        rest.(splits := o.splits + rest.splits, leaves := o.leaves + rest.leaves)
  }

  ghost function StackWeight(stack: seq<Range>): nat {
    if stack == [] then 0 else StackWeight(stack[..|stack| - 1]) + stack[|stack| - 1].Weight()
  }

  /** Ranges high on the stack are small: this is what bounds its height. */
  ghost predicate Shrinking(stack: seq<Range>, depth: nat) {
    forall i :: 0 <= i < |stack| ==> i + CeilLog2(stack[i].Size()) <= depth
  }

  lemma {:induction false} CeilLog2Monotone(a: nat, b: nat)
    requires a <= b
    ensures CeilLog2(a) <= CeilLog2(b)
    decreases b
  {
    if a > 1 {
      CeilLog2Monotone((a + 1) / 2, (b + 1) / 2);
    }
  }

  lemma PopTwo<T>(rest: seq<T>, second: T, top: T)
    ensures (rest + [second])[..|rest|] == rest
    ensures (rest + [second, top])[..|rest| + 1] == rest + [second]
  {
  }

  /** Replacing a rejected top by its two halves leaves the pending work unchanged, one call later. */
  lemma PendingSplit<L>(fetch: Fetcher<L>, call: nat, rest: seq<Range>, from: u64, to: u64, logs: seq<L>, last: Range)
    requires from < to
    requires fetch(call, from, to).Err? && fetch(call, from, to).error.tooLarge
    ensures var mid := Midpoint(from, to);
            var before := Pending(fetch, call, rest + [Range(from, to)], logs, last);
            var after := Pending(fetch, call + 1, rest + [Range(mid + 1, to), Range(from, mid)], logs, Range(from, to));
            before == after.(splits := after.splits + 1)
  {
    var mid := Midpoint(from, to);
    var whole := rest + [Range(from, to)];
    var two := rest + [Range(mid + 1, to), Range(from, mid)];
    PopTwo(rest, Range(mid + 1, to), Range(from, mid));
    PopTwo(rest, Range(from, to), Range(from, to));
    var left := Bisect(fetch, call + 1, from, mid);
    if left.result.Ok? {
      var right := Bisect(fetch, left.calls, mid + 1, to);
      if right.result.Ok? {
        Associative(logs, left.result.value, right.result.value);
        var tail := Pending(fetch, right.calls, rest, logs + left.result.value + right.result.value, right.last);
        Associative(left.leaves, right.leaves, tail.leaves);
      } else {
        assert Pending(fetch, left.calls, rest + [Range(mid + 1, to)], logs + left.result.value, left.last) == right;
      }
    }
  }

  /** The halves are lighter than the whole, and small enough for the higher places they take. */
  lemma HalvesFit(rest: seq<Range>, from: u64, to: u64, depth: nat)
    requires from < to
    requires Shrinking(rest + [Range(from, to)], depth)
    ensures var mid := Midpoint(from, to);
            var two := rest + [Range(mid + 1, to), Range(from, mid)];
            && Shrinking(two, depth)
            && |two| <= depth + 1
            && StackWeight(two) + 1 == StackWeight(rest + [Range(from, to)])
  {
    var mid := Midpoint(from, to);
    var whole, right, left := Range(from, to), Range(mid + 1, to), Range(from, mid);
    var two := rest + [right, left];
    assert (rest + [whole])[..|rest|] == rest;
    assert two[..|two| - 1] == rest + [right];
    assert (rest + [right])[..|rest|] == rest;
    assert (rest + [whole])[|rest|] == whole;
    assert |rest| + CeilLog2(whole.Size()) <= depth;
    CeilLog2Monotone(right.Size(), left.Size());
    assert CeilLog2(whole.Size()) == 1 + CeilLog2(left.Size());
    forall i | 0 <= i < |two|
      ensures i + CeilLog2(two[i].Size()) <= depth
    {
      if i < |rest| {
        assert two[i] == (rest + [whole])[i];
      }
    }
  }

  /** The two halves take the place of the top, the left one on top. */
  function Halved(rest: seq<Range>, top: Range): seq<Range>
    requires top.from < top.to
  {
    var mid := Midpoint(top.from, top.to);
    rest + [Range(mid + 1, top.to), Range(top.from, mid)]
  }

  /** The state of the loop: what is still pending leads to `goal`, and the counters keep their bounds. */
  ghost predicate OnCourse<L>(
    goal: Outcome<L>, fetch: Fetcher<L>, whole: Range,
    stack: seq<Range>, logs: seq<L>, leaves: seq<Leaf>, last: Range, calls: nat, splits: nat, peak: nat)
  {
    var p := Pending(fetch, calls, stack, logs, last);
    var depth := CeilLog2(whole.Size());
    && p.result == goal.result && p.calls == goal.calls && splits + p.splits == goal.splits &&
        leaves + p.leaves == goal.leaves
    && Shrinking(stack, depth) && peak <= depth + 1
    && calls + StackWeight(stack) <= whole.Weight()
  }

  lemma OnCourseAtStart<L>(fetch: Fetcher<L>, whole: Range)
    ensures OnCourse(Bisect(fetch, 0, whole.from, whole.to), fetch, whole, [whole], [], [], whole, 0, 0, 1)
  {
    var goal := Bisect(fetch, 0, whole.from, whole.to);
    assert [whole][..0] == [];
    assert [] + goal.leaves == goal.leaves && goal.leaves + [] == goal.leaves;
    if goal.result.Ok? {
      assert [] + goal.result.value == goal.result.value;
    }
  }

  lemma OnCourseAfterOk<L>(
    goal: Outcome<L>, fetch: Fetcher<L>, whole: Range,
    rest: seq<Range>, top: Range, logs: seq<L>, leaves: seq<Leaf>, last: Range, calls: nat, splits: nat, peak: nat)
    requires OnCourse(goal, fetch, whole, rest + [top], logs, leaves, last, calls, splits, peak)
    requires fetch(calls, top.from, top.to).Ok?
    ensures OnCourse(goal, fetch, whole, rest, logs + fetch(calls, top.from, top.to).value,
        leaves + [Leaf(calls, top)], top, calls + 1, splits, peak)
  {
    var after := Pending(fetch, calls + 1, rest, logs + fetch(calls, top.from, top.to).value, top);
    Associative(leaves, [Leaf(calls, top)], after.leaves);
    assert (rest + [top])[..|rest|] == rest;
    assert forall i :: 0 <= i < |rest| ==> rest[i] == (rest + [top])[i];
  }

  lemma OnCourseAfterSplit<L>(
    goal: Outcome<L>, fetch: Fetcher<L>, whole: Range,
    rest: seq<Range>, top: Range, logs: seq<L>, leaves: seq<Leaf>, last: Range, calls: nat, splits: nat, peak: nat)
    requires OnCourse(goal, fetch, whole, rest + [top], logs, leaves, last, calls, splits, peak)
    requires top.from < top.to && fetch(calls, top.from, top.to).Err? && fetch(calls, top.from, top.to).error.tooLarge
    ensures var stack := Halved(rest, top);
            OnCourse(goal, fetch, whole, stack, logs, leaves, top, calls + 1, splits + 1, Max(peak, |stack|))
  {
    PendingSplit(fetch, calls, rest, top.from, top.to, logs, last);
    HalvesFit(rest, top.from, top.to, CeilLog2(whole.Size()));
  }

  /** An error that is not answered by a split is the result of the whole call. */
  lemma OnCourseAtError<L>(
    goal: Outcome<L>, fetch: Fetcher<L>, whole: Range,
    rest: seq<Range>, top: Range, logs: seq<L>, leaves: seq<Leaf>, last: Range, calls: nat, splits: nat, peak: nat)
    requires OnCourse(goal, fetch, whole, rest + [top], logs, leaves, last, calls, splits, peak)
    requires fetch(calls, top.from, top.to).Err?
    requires !(fetch(calls, top.from, top.to).error.tooLarge && top.from < top.to)
    ensures goal.result == fetch(calls, top.from, top.to) && goal.calls == calls + 1 && goal.splits == splits &&
        goal.leaves == leaves
    ensures calls + 1 <= whole.Weight()
  {
    assert (rest + [top])[..|rest|] == rest;
  }

  lemma SplitTop<T>(stack: seq<T>)
    requires stack != []
    ensures stack == stack[..|stack| - 1] + [stack[|stack| - 1]]
  {
  }

  method SplitLogsOnError<L>(fromBlock: u64, toBlock: u64, fetch: Fetcher<L>)
    returns (r: Result<seq<L>, ChainError>, calls: nat, splits: nat, peak: nat, ghost leaves: seq<Leaf>)
    ensures var o := Bisect(fetch, 0, fromBlock, toBlock);
            r == o.result && calls == o.calls && splits == o.splits && leaves == o.leaves
    ensures calls <= Range(fromBlock, toBlock).Weight()
    ensures peak <= CeilLog2(Range(fromBlock, toBlock).Size()) + 1
  {
    var logs: seq<L> := [];
    var whole := Range(fromBlock, toBlock);
    var stack := [whole];
    calls, splits, peak, leaves := 0, 0, 1, [];
    ghost var goal := Bisect(fetch, 0, fromBlock, toBlock);
    ghost var last := whole;
    OnCourseAtStart(fetch, whole);
    while stack != []
      invariant OnCourse(goal, fetch, whole, stack, logs, leaves, last, calls, splits, peak)
      decreases whole.Weight() - calls
    {
      var top := stack[|stack| - 1];
      var rest := stack[..|stack| - 1];
      SplitTop(stack);
      var fetched := fetch(calls, top.from, top.to);
      match fetched {
        case Ok(batch) =>
          OnCourseAfterOk(goal, fetch, whole, rest, top, logs, leaves, last, calls, splits, peak);
          logs := logs + batch;
          leaves := leaves + [Leaf(calls, top)];
          stack := rest;
        case Err(e) =>
          if e.tooLarge && top.from < top.to {
            OnCourseAfterSplit(goal, fetch, whole, rest, top, logs, leaves, last, calls, splits, peak);
            stack := Halved(rest, top);
            splits := splits + 1;
            peak := Max(peak, |stack|);
          } else {
            OnCourseAtError(goal, fetch, whole, rest, top, logs, leaves, last, calls, splits, peak);
            return Err(e), calls + 1, splits, peak, leaves;
          }
      }
      last := top;
      calls := calls + 1;
    }
    return Ok(logs), calls, splits, peak, leaves;
  }
}

/** Per-block sequences (logs, events, messages) concatenated over a span of blocks. */
module Spans {

  /** f(lo) + f(lo + 1) + ... + f(hi - 1) */
  ghost function Span<T>(f: nat -> seq<T>, lo: nat, hi: int): seq<T>
    decreases hi - lo
  {
    if hi <= lo then [] else Span(f, lo, hi - 1) + f(hi - 1)
  }

  lemma {:induction false} SpanJoin<T>(f: nat -> seq<T>, lo: nat, mid: nat, hi: int)
    requires lo <= mid <= hi
    ensures Span(f, lo, hi) == Span(f, lo, mid) + Span(f, mid, hi)
    decreases hi - mid
  {
    if mid == hi {
      assert Span(f, mid, hi) == [];
    } else {
      SpanJoin(f, lo, mid, hi - 1);
    }
  }

  lemma {:induction false} SpanContains<T>(f: nat -> seq<T>, lo: nat, hi: int, block: nat, x: T)
    requires lo <= block < hi && x in f(block)
    ensures x in Span(f, lo, hi)
    decreases hi - lo
  {
    if block < hi - 1 {
      SpanContains(f, lo, hi - 1, block, x);
    }
  }

  lemma {:induction false} SpanOrigin<T>(f: nat -> seq<T>, lo: nat, hi: int, x: T) returns (block: nat)
    requires x in Span(f, lo, hi)
    ensures lo <= block < hi && x in f(block)
    decreases hi - lo
  {
    if x in f(hi - 1) {
      block := hi - 1;
    } else {
      block := SpanOrigin(f, lo, hi - 1, x);
    }
  }
}

/** Exactly when the stream is in canonical order: over failures, over restarts, and over everything. */
module OrderExact {
  import opened Spans
  import opened Protocol
  import opened Safety
  import opened Guarantees
  import opened Order
  import opened Stream
  import opened Runs

  // ----- Configurations that publish nothing -----

  /** Nothing ever starts, no batch ever covers a block, or the buffer is full although it is empty. */
  ghost predicate Silent(c: Config) {
    c.initial == 0 || c.batchSize == 0 || c.capacity == 0
  }

  ghost predicate SilentInv(c: Config, s: State) {
    && s.sent == {} && s.stored == [] && s.buffer == []
    && !s.pc.Offered? && !s.pc.InFlight? && !s.pc.Flushing?
    && (c.batchSize == 0 && s.pc.Publishing? ==> s.pc.todo == [])
    && (c.initial == 0 ==> NeverStarted(s))
  }

  lemma SilentBatch(c: Config, s: State, step: Step)
    requires Silent(c) && SilentInv(c, s) && Enabled(c, s, step)
    requires step.BeginBatch? || step.EndBatch? || step.Cancel? || step.Offer?
    ensures SilentInv(c, Apply(c, s, step))
  {
  }

  lemma SilentLoop(c: Config, s: State, step: Step)
    requires SilentInv(c, s) && Enabled(c, s, step)
    requires step.DelayOver? || step.NothingNew? || step.StateChange? || step.NatsUp? || step.NatsDown?
    ensures SilentInv(c, Apply(c, s, step))
  {
  }

  lemma SilentHandler(c: Config, s: State, step: Step)
    requires SilentInv(c, s) && Enabled(c, s, step)
    requires step.HandleChange? || step.TryResume?
    ensures SilentInv(c, Apply(c, s, step))
  {
  }

  lemma SilentFlush(c: Config, s: State, step: Step)
    requires SilentInv(c, s) && Enabled(c, s, step)
    requires step.Drain? || step.Resume? || step.Settle?
    ensures SilentInv(c, Apply(c, s, step))
  {
  }

  lemma SilentPersist(c: Config, s: State, step: Step)
    requires SilentInv(c, s) && Enabled(c, s, step)
    requires step.Tick? || step.Shutdown? || step.Rename?
    ensures SilentInv(c, Apply(c, s, step))
  {
  }

  lemma SilentPersistFailed(c: Config, s: State)
    requires SilentInv(c, s) && Enabled(c, s, PersistFailed)
    ensures SilentInv(c, Apply(c, s, PersistFailed))
  {
  }

  lemma SilentSync(c: Config, s: State, ok: bool)
    requires SilentInv(c, s) && Enabled(c, s, SyncDirectory(ok))
    ensures SilentInv(c, Apply(c, s, SyncDirectory(ok)))
  {
  }

  lemma SilentCrash(c: Config, s: State, step: Step)
    requires SilentInv(c, s) && Enabled(c, s, step)
    requires step.Kill? || step.PowerLoss? || step.Start?
    ensures SilentInv(c, Apply(c, s, step))
  {
  }

  lemma SilentStep(c: Config, s: State, step: Step)
    requires Silent(c) && SilentInv(c, s) && Enabled(c, s, step)
    ensures SilentInv(c, Apply(c, s, step))
  {
    if step.BeginBatch? || step.EndBatch? || step.Cancel? || step.Offer? {
      SilentBatch(c, s, step);
    } else if step.DelayOver? || step.NothingNew? || step.StateChange? || step.NatsUp? || step.NatsDown? {
      SilentLoop(c, s, step);
    } else if step.HandleChange? || step.TryResume? {
      SilentHandler(c, s, step);
    } else if step.Drain? || step.Resume? || step.Settle? {
      SilentFlush(c, s, step);
    } else if step.Kill? || step.PowerLoss? || step.Start? {
      SilentCrash(c, s, step);
    } else if step.Tick? || step.Shutdown? || step.Rename? {
      SilentPersist(c, s, step);
    } else if step.PersistFailed? {
      SilentPersistFailed(c, s);
    } else {
      SilentSync(c, s, step.ok);
    }
  }

  lemma {:induction false} SilentRun(c: Config, s: State, steps: seq<Step>)
    requires Silent(c) && SilentInv(c, s) && Legal(c, s, steps)
    ensures SilentInv(c, Exec(c, s, steps))
    decreases |steps|
  {
    if steps != [] {
      SilentStep(c, s, steps[0]);
      SilentRun(c, Apply(c, s, steps[0]), steps[1..]);
    }
  }

  lemma SilentReachable(c: Config, s: State)
    requires Silent(c) && Reachable(c, s)
    ensures SilentInv(c, s)
  {
    var steps :| Legal(c, Init(), steps) && Exec(c, Init(), steps) == s;
    SilentRun(c, Init(), steps);
  }

  lemma SilentStoresNothing(c: Config, s: State)
    requires Silent(c) && Reachable(c, s)
    ensures s.stored == [] && PrefixOfCanon(c, s.stored)
  {
    SilentReachable(c, s);
    assert [] <= Span(c.canon, c.initial, 0);
  }

  // ----- Chains with at most one message -----

  ghost predicate AtMostOneMessage(c: Config) {
    forall a: nat, b: nat, m, n :: c.initial <= a && c.initial <= b && m in c.canon(a) && n in c.canon(b) ==> m == n
  }

  lemma OneMessageIsInOrder(c: Config, s: State)
    requires DistinctMessages(c) && Reachable(c, s) && AtMostOneMessage(c)
    ensures PrefixOfCanon(c, s.stored)
  {
    assert [] <= Span(c.canon, c.initial, 0);
    if s.stored != [] {
      ReachableInv(c, s);
      var m := s.stored[0];
      assert m in s.stored && IsCanon(c, m);
      var b, i := CanonPosition(c, m);
      var w := Span(c.canon, c.initial, b + 1);
      SpanIsCanon(c, c.initial, b + 1);
      assert w[0] in w && w[0] == m;
      AllTheSame(c, s);
      assert s.stored <= w;
    }
  }

  lemma AllTheSame(c: Config, s: State)
    requires DistinctMessages(c) && Reachable(c, s) && AtMostOneMessage(c) && s.stored != []
    ensures s.stored == [s.stored[0]]
  {
    ReachableInv(c, s);
    if |s.stored| > 1 {
      assert s.stored[1] in s.stored && s.stored[0] in s.stored;
      assert IsCanon(c, s.stored[1]) && IsCanon(c, s.stored[0]);
      assert s.stored[1] == s.stored[0];
      EachStoredOnce(c, s);
      assert false;
    }
  }

  // ----- What stands first -----

  /** The first message of the chain is the first of every span that reaches it. */
  lemma FirstOfSpan(c: Config, first: nat, hi: nat)
    requires c.initial <= first && EmptyBetween(c, c.initial, first) && c.canon(first) != []
    ensures Span(c.canon, c.initial, hi) == [] || Span(c.canon, c.initial, hi)[0] == c.canon(first)[0]
  {
    if hi <= first {
      EmptySpan(c, c.initial, hi);
    } else {
      EmptySpan(c, c.initial, first);
      SpanPrefix(c, c.initial, first + 1, hi);
      assert Span(c.canon, c.initial, first + 1) == c.canon(first);
    }
  }

  lemma {:induction false} EmptySpan(c: Config, lo: nat, hi: nat)
    requires EmptyBetween(c, lo, hi)
    ensures Span(c.canon, lo, hi) == []
    decreases hi
  {
    if lo < hi {
      EmptySpan(c, lo, hi - 1);
    }
  }

  lemma NotFirst(c: Config, first: nat, m: Message)
    requires c.initial <= first && EmptyBetween(c, c.initial, first) && c.canon(first) != []
    requires m != c.canon(first)[0]
    ensures !PrefixOfCanon(c, [m])
  {
    forall hi: nat
      ensures !([m] <= Span(c.canon, c.initial, hi))
    {
      FirstOfSpan(c, first, hi);
    }
  }

  // ----- A failure breaks the order -----

  /** A message is stored at once, whatever the buffer holds. */
  lemma StoresNext(c: Config, s: State, t: State) returns (u: State)
    requires Ahead(c, s, t) && t.conn.Connected? && |t.buffer| < c.capacity && t.stored == []
    requires t.pc.Publishing? && t.pc.todo != []
    ensures Ahead(c, s, u) && u.stored == [t.pc.todo[0]] && u.buffer == t.buffer && u.runs == t.runs &&
        u.clean == t.clean
  {
    u := Hands(c, s, t);
    u := Goes(c, s, u, Store(u.pc.m));
  }

  /** The first message's publishing fails. */
  lemma FirstFails(c: Config, first: nat) returns (s: State)
    requires !Silent(c) && c.initial <= first && EmptyBetween(c, c.initial, first) && c.canon(first) != []
    ensures Ahead(c, Init(), s) && s.conn.Connected? && s.stored == [] && s.nextBlock == first && s.runs == 1
    ensures s.buffer == [c.canon(first)[0]] && s.pc == Publishing(c.canon(first)[1..], Batch(first, first))
  {
    s := FirstRun(c);
    s := CrossesEmptyBlocks(c, Init(), s, first);
    s := Begins(c, Init(), s);
    s := Hands(c, Init(), s);
    s := Goes(c, Init(), s, NoAck);
  }

  /** The change handler's flush fails too, and resumes the reader all the same. */
  lemma FailedFlushResumes(c: Config, s: State, t: State) returns (u: State)
    requires Ahead(c, s, t) && t.pc.Idle? && !t.needsDelay && t.conn.Connected? && t.buffer != []
    ensures Ahead(c, s, u) && Ready(u) && u.conn.Connected? && u.buffer == t.buffer && u.stored == t.stored
    ensures u.nextBlock == t.nextBlock && u.runs == t.runs
  {
    u := FlushBegins(c, s, t);
    u := Goes(c, s, u, FlushNoAck);
    assert u.buffer == t.buffer;
    u := ResumesAfterFlush(c, s, u);
  }

  lemma ResumesAfterFlush(c: Config, s: State, t: State) returns (u: State)
    requires Ahead(c, s, t) && t.pc.Flushed? && t.pc.flusher.OnChange? && t.buffer != []
    ensures Ahead(c, s, u) && u == t.(pc := Idle, paused := false)
  {
    u := Goes(c, s, t, Resume);
    u := Goes(c, s, u, Settle);
  }

  lemma FlushBegins(c: Config, s: State, t: State) returns (u: State)
    requires Ahead(c, s, t) && t.pc.Idle? && !t.needsDelay && t.conn.Connected? && t.buffer != []
    ensures Ahead(c, s, u) && !u.needsDelay && !u.unseen && u.conn.Connected?
    ensures u.pc == Flushing(OnChange, t.buffer) && u.buffer == []
    ensures u.stored == t.stored && u.nextBlock == t.nextBlock && u.runs == t.runs
  {
    u := Goes(c, s, t, NatsUp);
    u := Goes(c, s, u, StateChange);
    u := Goes(c, s, u, HandleChange);
    u := Goes(c, s, u, Drain);
  }

  /** The second message of the chain overtakes the first one, which waits in the buffer. */
  lemma Overtakes(c: Config, first: nat, second: nat) returns (s: State)
    requires DistinctMessages(c) && !Silent(c) && c.capacity >= 2
    requires c.initial <= first && EmptyBetween(c, c.initial, first) && c.canon(first) != []
    requires if |c.canon(first)| > 1 then second == first
             else first < second && EmptyBetween(c, first + 1, second) && c.canon(second) != []
    ensures Reachable(c, s) && s.runs <= 1 && s.buffer == [c.canon(first)[0]]
    ensures s.stored == [c.canon(second)[if second == first then 1 else 0]]
  {
    s := FirstFails(c, first);
    if second > first {
      s := Ends(c, Init(), s);
      s := FailedFlushResumes(c, Init(), s);
      s := CrossesEmptyBlocks(c, Init(), s, second);
      s := Begins(c, Init(), s);
    }
    s := StoresNext(c, Init(), s);
  }

  /** Two messages on the chain: the first of all, and one after it. */
  lemma FirstTwo(c: Config) returns (first: nat, second: nat)
    requires DistinctMessages(c) && !AtMostOneMessage(c)
    ensures c.initial <= first && EmptyBetween(c, c.initial, first) && c.canon(first) != []
    ensures if |c.canon(first)| > 1 then second == first
            else first < second && EmptyBetween(c, first + 1, second) && c.canon(second) != []
  {
    var a: nat, b: nat, m, n :| c.initial <= a && c.initial <= b && m in c.canon(a) && n in c.canon(b) && m != n;
    first := FirstNonEmpty(c, c.initial, a);
    second := first;
    if |c.canon(first)| <= 1 {
      var other := if a == first then b else a;
      assert other != first;
      assert EmptyBetween(c, c.initial, first) && other >= c.initial && c.canon(other) != [];
      second := FirstNonEmpty(c, first + 1, other);
    }
  }

  /**
   With room for two in the buffer, one failed publish loses the order: the failed message waits while
   the next one, the connection still being up, is sent at once; if that is in a later batch, a failed
   flush has resumed the reader.
   */
  lemma FailureBreaksOrder(c: Config) returns (s: State)
    requires DistinctMessages(c) && !Silent(c) && c.capacity >= 2 && !AtMostOneMessage(c)
    ensures Reachable(c, s) && s.runs <= 1 && s.buffer != [] && !PrefixOfCanon(c, s.stored)
  {
    var first, second := FirstTwo(c);
    s := Overtakes(c, first, second);
    var m := s.stored[0];
    assert m != c.canon(first)[0] by {
      assert c.canon(first)[0] in c.canon(first) && m in c.canon(second);
      OneBlock(c, first, second, m);
    }
    NotFirst(c, first, m);
  }

  // ----- A restart breaks the order -----

  /** A restart that skips the initial block lets a later message in first. */
  lemma RestartBreaksOrder(c: Config) returns (s: State)
    requires DistinctMessages(c) && !Silent(c) && !SkippingIsHarmless(c)
    ensures Reachable(c, s) && s.clean && !PrefixOfCanon(c, s.stored)
  {
    var b: nat :| b > c.initial && c.canon(b) != [];
    var next := FirstNonEmpty(c, c.initial + 1, b);
    s := SecondRun(c);
    s := CrossesEmptyBlocks(c, Init(), s, next);
    s := Begins(c, Init(), s);
    s := StoresNext(c, Init(), s);
    var m := c.canon(next)[0];
    assert m != c.canon(c.initial)[0] by {
      assert c.canon(c.initial)[0] in c.canon(c.initial) && m in c.canon(next);
      OneBlock(c, c.initial, next, m);
    }
    NotFirst(c, c.initial, m);
  }

  // ----- The exact conditions -----

  /**
   The order survives every failure of the first run exactly when the buffer holds at most one message, or
   there is no second one.
   */
  lemma FailuresKeepOrderExactly(c: Config)
    requires DistinctMessages(c)
    ensures (forall s :: Reachable(c, s) && s.runs <= 1 ==> PrefixOfCanon(c, s.stored))
            <==> Silent(c) || c.capacity <= 1 || AtMostOneMessage(c)
  {
    if Silent(c) || c.capacity <= 1 || AtMostOneMessage(c) {
      forall s | Reachable(c, s) && s.runs <= 1
        ensures PrefixOfCanon(c, s.stored)
      {
        KeepsOrder(c, s);
      }
    } else {
      var s := FailureBreaksOrder(c);
    }
  }

  lemma KeepsOrder(c: Config, s: State)
    requires DistinctMessages(c) && Reachable(c, s)
    requires Silent(c) || AtMostOneMessage(c) || Orderly(c, s)
    ensures PrefixOfCanon(c, s.stored)
  {
    if Silent(c) {
      SilentStoresNothing(c, s);
    } else if AtMostOneMessage(c) {
      OneMessageIsInOrder(c, s);
    } else {
      OrderlyMeansPrefix(c, s);
    }
  }

  /**
   The order survives every restart of failure-free histories exactly when the initial block, or all later
   ones, are empty.
   */
  lemma RestartsKeepOrderExactly(c: Config)
    requires DistinctMessages(c)
    ensures (forall s :: Reachable(c, s) && s.clean ==> PrefixOfCanon(c, s.stored))
            <==> Silent(c) || SkippingIsHarmless(c)
  {
    if Silent(c) || SkippingIsHarmless(c) {
      forall s | Reachable(c, s) && s.clean
        ensures PrefixOfCanon(c, s.stored)
      {
        KeepsOrder(c, s);
      }
    } else {
      var s := RestartBreaksOrder(c);
    }
  }

  /** The stream is in canonical order after every history exactly when neither failures nor restarts can break it. */
  lemma OrderHoldsExactly(c: Config)
    requires DistinctMessages(c)
    ensures (forall s :: Reachable(c, s) ==> PrefixOfCanon(c, s.stored))
            <==> Silent(c) || (SkippingIsHarmless(c) && (c.capacity <= 1 || AtMostOneMessage(c)))
  {
    if Silent(c) || (SkippingIsHarmless(c) && (c.capacity <= 1 || AtMostOneMessage(c))) {
      forall s | Reachable(c, s)
        ensures PrefixOfCanon(c, s.stored)
      {
        KeepsOrder(c, s);
      }
    } else {
      FailuresKeepOrderExactly(c);
      RestartsKeepOrderExactly(c);
    }
  }
}

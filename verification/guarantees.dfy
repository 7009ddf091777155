/** The guarantees of the protocol, for every reachable state or every run. */
module Guarantees {
  import opened Wrappers
  import opened Protocol
  import opened Safety

  // ----- No message is lost -----

  /** Every version of the state file that can be read back vouches only for messages already on the stream. */
  ghost predicate FileIsSafe(c: Config, s: State, from: nat) {
    forall i, b: nat, m :: 0 <= i < |s.disk| && s.disk[i].Some? && from <= b <= s.disk[i].value && m in c.canon(b) ==>
      m in s.acked && m in s.stored
  }

  /**
   Crash-safe cursor: whatever batches, cancellations, connection changes, publish failures, ticks,
   crashes, power losses and restarts came before, every message of every block strictly above the
   initial block and at most the persisted cursor is on the stream, acknowledged.
   */
  lemma CrashSafeCursor(c: Config, s: State)
    requires DistinctMessages(c) && Reachable(c, s)
    ensures FileIsSafe(c, s, c.initial + 1)
  {
    ReachableInv(c, s);
    forall i, b: nat, m | 0 <= i < |s.disk| && s.disk[i].Some? && c.initial + 1 <= b <= s.disk[i].value &&
        m in c.canon(b)
      ensures m in s.acked && m in s.stored
    {
      assert SafeUpTo(c, s.acked, s.disk[i].value);
    }
  }

  /** A persist before the first batch records the initial block as done. */
  lemma PersistBeforeFirstBatch(c: Config) returns (s: State)
    requires c.initial > 0
    ensures Reachable(c, s) && s.disk == [None, Some(c.initial)] && s.acked == {}
    ensures !s.pc.Down? && s.clean && s.stored == []
  {
    var s0 := Init();
    InitIsReachable(c);
    var s1 := Apply(c, s0, Start);
    ReachableStep(c, s0, Start);
    var s2 := Apply(c, s1, Tick);
    ReachableStep(c, s1, Tick);
    s := Apply(c, s2, Rename);
    ReachableStep(c, s2, Rename);
  }

  /**
   The initial block itself is covered by the same guarantee exactly when it holds no message (or
   when no initial block is configured, so that nothing ever starts without a file).
   */
  lemma InitialBlockIsCoveredExactlyWhenEmpty(c: Config)
    requires DistinctMessages(c)
    ensures (forall s :: Reachable(c, s) ==> FileIsSafe(c, s, c.initial)) <==>
        c.initial == 0 || c.canon(c.initial) == []
  {
    if c.initial == 0 || c.canon(c.initial) == [] {
      forall s | Reachable(c, s)
        ensures FileIsSafe(c, s, c.initial)
      {
        CrashSafeCursor(c, s);
        if c.initial == 0 {
          NothingStarts(c, s);
        }
      }
    } else {
      var s := PersistBeforeFirstBatch(c);
      var m := c.canon(c.initial)[0];
      assert s.disk[1].Some? && m in c.canon(c.initial) && m !in s.acked;
      assert !FileIsSafe(c, s, c.initial);
    }
  }

  ghost predicate NeverStarted(s: State) {
    s.pc.Down? && s.disk != [] && forall i :: 0 <= i < |s.disk| ==> s.disk[i].None?
  }

  lemma NothingStarts(c: Config, s: State)
    requires c.initial == 0 && Reachable(c, s)
    ensures NeverStarted(s)
  {
    var steps :| Legal(c, Init(), steps) && Exec(c, Init(), steps) == s;
    NothingStartsRun(c, Init(), steps);
  }

  lemma {:induction false} NothingStartsRun(c: Config, s: State, steps: seq<Step>)
    requires c.initial == 0 && NeverStarted(s) && Legal(c, s, steps)
    ensures NeverStarted(Exec(c, s, steps))
    decreases |steps|
  {
    if steps != [] {
      NothingStartsRun(c, Apply(c, s, steps[0]), steps[1..]);
    }
  }

  /** Accounting: each message of each block from the run's start up to the next block is acknowledged or held. */
  lemma NoMessageIsLost(c: Config, s: State, b: nat, m: Message)
    requires DistinctMessages(c) && Reachable(c, s) && !s.pc.Down?
    requires s.start <= b < s.nextBlock && m in c.canon(b)
    ensures m in s.acked || m in s.buffer || m in Drained(s)
    ensures m in s.acked ==> m in s.stored
    ensures !s.pc.Flushing? ==> m in s.acked || m in s.buffer
  {
    ReachableInv(c, s);
    assert Covered(s, m);
  }

  /** Once the buffer is empty outside a flush, everything below the next block and above the initial one is stored. */
  lemma EmptyBufferMeansStored(c: Config, s: State, b: nat, m: Message)
    requires DistinctMessages(c) && Reachable(c, s) && !s.pc.Down?
    requires s.buffer == [] && !s.pc.Flushing?
    requires c.initial < b < s.nextBlock && m in c.canon(b)
    ensures m in s.acked && m in s.stored
  {
    ReachableInv(c, s);
    EmptyBufferIsSafe(c, s, s.nextBlock);
  }

  // ----- The cursor -----

  /** In the middle of a connection change or of a flush. */
  ghost predicate InHandler(s: State) {
    s.pc.Changed? || s.pc.Draining? || s.pc.Flushing? || s.pc.Flushed?
  }

  /** Outside a handler an empty buffer means a caught-up cursor, and the cursor never runs ahead. */
  lemma TightCursor(c: Config, s: State)
    requires DistinctMessages(c) && Reachable(c, s) && !s.pc.Down?
    ensures s.buffer == [] && !InHandler(s) && !s.pc.Settling? ==> s.cursor >= s.nextBlock - 1
    ensures s.cursor <= Max(s.nextBlock - 1, c.initial)
    ensures s.disk != [] && NoLater(Visible(s.disk), Some(s.cursor))
  {
    ReachableInv(c, s);
  }

  /** The state file and the record of what was loaded from it. */
  ghost predicate SameHistory(s: State, t: State) {
    t.disk == s.disk && t.loads == s.loads
  }

  lemma EnvironmentHistory(c: Config, s: State, step: Step)
    requires Enabled(c, s, step) && (step.NatsUp? || step.NatsDown? || step.Store? || step.Kill?)
    ensures SameHistory(s, Apply(c, s, step))
  {
  }

  lemma LoopHistory(c: Config, s: State, step: Step)
    requires Enabled(c, s, step) &&
        (step.DelayOver? || step.NothingNew? || step.Shutdown? || step.StateChange? || step.Tick? || step.Cancel?)
    ensures SameHistory(s, Apply(c, s, step))
  {
  }

  lemma BatchHistory(c: Config, s: State, step: Step)
    requires Enabled(c, s, step) && (step.BeginBatch? || step.Offer? || step.Ack? || step.EndBatch?)
    ensures SameHistory(s, Apply(c, s, step))
  {
  }

  lemma PublishHistory(c: Config, s: State, step: Step)
    requires Enabled(c, s, step) && (step.Send? || step.NoAck?)
    ensures SameHistory(s, Apply(c, s, step))
  {
  }

  lemma HandlerHistory(c: Config, s: State, step: Step)
    requires Enabled(c, s, step) && (step.HandleChange? || step.TryResume? || step.Resume? || step.Settle?)
    ensures SameHistory(s, Apply(c, s, step))
  {
  }

  lemma FlushHistory(c: Config, s: State, step: Step)
    requires Enabled(c, s, step) && (step.Drain? || step.FlushAck? || step.FlushNoAck? || step.PersistFailed?)
    ensures SameHistory(s, Apply(c, s, step))
  {
  }

  ghost predicate TouchesFile(step: Step) {
    step.Rename? || step.SyncDirectory? || step.PowerLoss? || step.Start?
  }

  lemma HistoryUntouched(c: Config, s: State, step: Step)
    requires Enabled(c, s, step) && !TouchesFile(step)
    ensures SameHistory(s, Apply(c, s, step))
  {
    if step.NatsUp? || step.NatsDown? || step.Store? || step.Kill? {
      EnvironmentHistory(c, s, step);
    } else if step.DelayOver? || step.NothingNew? || step.Shutdown? || step.StateChange? || step.Tick? || step.Cancel? {
      LoopHistory(c, s, step);
    } else if step.BeginBatch? || step.Offer? || step.Ack? || step.EndBatch? {
      BatchHistory(c, s, step);
    } else if step.Send? || step.NoAck? {
      PublishHistory(c, s, step);
    } else if step.HandleChange? || step.TryResume? || step.Resume? || step.Settle? {
      HandlerHistory(c, s, step);
    } else {
      FlushHistory(c, s, step);
    }
  }

  lemma FileStepDurable(c: Config, s: State, step: Step)
    requires DiskInv(c, s) && Enabled(c, s, step) && TouchesFile(step)
    ensures var t := Apply(c, s, step); t.disk != [] && NoLater(s.disk[0], t.disk[0])
  {
    match step
    case Rename =>
    case SyncDirectory(ok) => SyncDurable(c, s, ok);
    case PowerLoss(version) => PowerLossDurable(c, s, version);
    case Start =>
  }

  lemma SyncDurable(c: Config, s: State, ok: bool)
    requires DiskInv(c, s) && Enabled(c, s, SyncDirectory(ok))
    ensures var t := Apply(c, s, SyncDirectory(ok)); t.disk != [] && NoLater(s.disk[0], t.disk[0])
  {
  }

  lemma PowerLossDurable(c: Config, s: State, version: nat)
    requires DiskInv(c, s) && Enabled(c, s, PowerLoss(version))
    ensures var t := Apply(c, s, PowerLoss(version)); t.disk != [] && NoLater(s.disk[0], t.disk[0])
  {
  }

  lemma DurableStep(c: Config, s: State, step: Step)
    requires DiskInv(c, s) && Enabled(c, s, step)
    ensures Apply(c, s, step).disk != [] && NoLater(s.disk[0], Apply(c, s, step).disk[0])
  {
    if TouchesFile(step) {
      FileStepDurable(c, s, step);
    } else {
      HistoryUntouched(c, s, step);
    }
  }

  /** The durable version of the state file never goes back, whatever happens, power losses included. */
  lemma {:induction false} DurableCursorNeverDecreases(c: Config, s: State, steps: seq<Step>)
    requires DistinctMessages(c) && Inv(c, s) && Legal(c, s, steps)
    ensures var t := Exec(c, s, steps); t.disk != [] && NoLater(s.disk[0], t.disk[0])
    decreases |steps|
  {
    if steps != [] {
      var t := Apply(c, s, steps[0]);
      DurableStep(c, s, steps[0]);
      InvStep(c, s, steps[0]);
      DurableCursorNeverDecreases(c, t, steps[1..]);
    }
  }

  // ----- Buffer and pause -----

  /** The buffer never exceeds its capacity, and no publish of the main loop is ever rejected. */
  lemma BoundedBuffer(c: Config, s: State)
    requires DistinctMessages(c) && Reachable(c, s) && !s.pc.Down?
    ensures |s.buffer| + |Drained(s)| <= c.capacity
    ensures s.rejected == 0
    ensures s.pc.Offered? || s.pc.InFlight? ==> !Full(c, s)
  {
    ReachableInv(c, s);
  }

  /** Outside a running handler a set pause flag implies buffered messages, a lost connection or a pending change. */
  lemma NeverStuckPaused(c: Config, s: State)
    requires DistinctMessages(c) && Reachable(c, s) && !s.pc.Down? && !InHandler(s) && s.paused
    ensures s.buffer != [] || s.conn.Disconnected? || s.unseen
  {
    ReachableInv(c, s);
  }
}

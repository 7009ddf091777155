/** Exactly when the ingestor can get past the block it starts from. */
module Progress {
  import opened Spans
  import opened Protocol
  import opened Safety
  import opened Guarantees
  import opened Runs

  /** Nothing starts, no batch covers a block, or neither the initial block nor the next can be published at all. */
  ghost predicate Stuck(c: Config) {
    || c.initial == 0 || c.batchSize == 0
    || (c.capacity == 0 && c.canon(c.initial) != [] && c.canon(c.initial + 1) != [])
  }

  ghost predicate NoCursorAbove(s: State, block: nat) {
    forall i :: 0 <= i < |s.disk| && s.disk[i].Some? ==> s.disk[i].value <= block
  }

  /** A batch under way covers no block, or its first block's messages are all still to come. */
  ghost predicate BatchStuck(c: Config, s: State) {
    InBatch(s) ==>
      || s.pc.batch.last < s.nextBlock
      || (c.batchSize > 0 && s.pc.Publishing? && s.pc.todo != [])
  }

  ghost predicate StuckInv(c: Config, s: State) {
    && (c.initial == 0 ==> NeverStarted(s))
    && (!s.pc.Down? ==> s.nextBlock == s.start && BatchStuck(c, s))
    && (c.batchSize > 0 ==> NoCursorAbove(s, c.initial) && (!s.pc.Down? ==> s.start <= c.initial + 1))
  }

  /** Nothing that the invariant speaks of has changed. */
  ghost predicate StaysStuck(s: State, t: State) {
    t.disk == s.disk && t.start == s.start && t.nextBlock == s.nextBlock && !s.pc.Down? && !InBatch(t)
  }

  lemma BeginStuck(c: Config, s: State, latest: nat)
    requires Stuck(c) && Inv(c, s) && StuckInv(c, s) && Enabled(c, s, BeginBatch(latest))
    ensures StuckInv(c, Apply(c, s, BeginBatch(latest)))
  {
    var t := Apply(c, s, BeginBatch(latest));
    if c.batchSize > 0 {
      assert s.nextBlock == c.initial || s.nextBlock == c.initial + 1;
      var m := c.canon(s.nextBlock)[0];
      SpanContains(c.canon, s.nextBlock, t.pc.batch.last + 1, s.nextBlock, m);
    }
  }

  lemma EndStuck(c: Config, s: State)
    requires StuckInv(c, s) && Enabled(c, s, EndBatch)
    ensures StuckInv(c, Apply(c, s, EndBatch))
  {
  }

  lemma RenameStuck(c: Config, s: State)
    requires Inv(c, s) && StuckInv(c, s) && Enabled(c, s, Rename)
    ensures StuckInv(c, Apply(c, s, Rename))
  {
  }

  lemma SyncStuck(c: Config, s: State, ok: bool)
    requires StuckInv(c, s) && Enabled(c, s, SyncDirectory(ok))
    ensures StuckInv(c, Apply(c, s, SyncDirectory(ok)))
  {
  }

  lemma CrashStuck(c: Config, s: State, step: Step)
    requires StuckInv(c, s) && Enabled(c, s, step)
    requires step.Kill? || step.PowerLoss? || step.PersistFailed?
    ensures StuckInv(c, Apply(c, s, step))
  {
  }

  lemma StartStuck(c: Config, s: State)
    requires StuckInv(c, s) && Enabled(c, s, Start)
    ensures StuckInv(c, Apply(c, s, Start))
  {
  }

  /** The environment moves, or a batch is dropped; with no room for a message none is ever offered. */
  lemma BatchStaysStuck(c: Config, s: State, step: Step)
    requires Stuck(c) && Inv(c, s) && StuckInv(c, s) && Enabled(c, s, step)
    requires step.Cancel? || step.Offer? || step.Send? || step.Ack? || step.NoAck?
    ensures StuckInv(c, Apply(c, s, step))
  {
  }

  lemma EnvironmentStuck(c: Config, s: State, step: Step)
    requires StuckInv(c, s) && Enabled(c, s, step)
    requires step.NatsUp? || step.NatsDown? || step.Store?
    ensures StuckInv(c, Apply(c, s, step))
  {
  }

  lemma LoopStuck(c: Config, s: State, step: Step)
    requires Enabled(c, s, step)
    requires step.DelayOver? || step.NothingNew? || step.Shutdown? || step.StateChange? || step.Tick?
    ensures StaysStuck(s, Apply(c, s, step))
  {
  }

  lemma HandlerStuck(c: Config, s: State, step: Step)
    requires Enabled(c, s, step)
    requires step.HandleChange? || step.TryResume?
    ensures StaysStuck(s, Apply(c, s, step))
  {
  }

  lemma FlushStuck(c: Config, s: State, step: Step)
    requires Enabled(c, s, step)
    requires step.Drain? || step.FlushAck? || step.FlushNoAck?
    ensures StaysStuck(s, Apply(c, s, step))
  {
  }

  lemma SettleStuck(c: Config, s: State, step: Step)
    requires Enabled(c, s, step)
    requires step.Resume? || step.Settle?
    ensures StaysStuck(s, Apply(c, s, step))
  {
  }

  lemma StuckStep(c: Config, s: State, step: Step)
    requires Stuck(c) && Inv(c, s) && StuckInv(c, s) && Enabled(c, s, step)
    ensures StuckInv(c, Apply(c, s, step))
  {
    if step.BeginBatch? {
      BeginStuck(c, s, step.latest);
    } else if step.EndBatch? {
      EndStuck(c, s);
    } else if step.Rename? {
      RenameStuck(c, s);
    } else if step.SyncDirectory? {
      SyncStuck(c, s, step.ok);
    } else if step.Start? {
      StartStuck(c, s);
    } else if step.Kill? || step.PowerLoss? || step.PersistFailed? {
      CrashStuck(c, s, step);
    } else if step.Cancel? || step.Offer? || step.Send? || step.Ack? || step.NoAck? {
      BatchStaysStuck(c, s, step);
    } else if step.NatsUp? || step.NatsDown? || step.Store? {
      EnvironmentStuck(c, s, step);
    } else {
      QuietlyStuck(c, s, step);
    }
  }

  lemma QuietlyStuck(c: Config, s: State, step: Step)
    requires StuckInv(c, s) && Enabled(c, s, step)
    requires step.DelayOver? || step.NothingNew? || step.Shutdown? || step.StateChange? || step.Tick? ||
        step.HandleChange? || step.TryResume? || step.Resume? || step.Settle? || step.Drain? || step.FlushAck? ||
        step.FlushNoAck?
    ensures StuckInv(c, Apply(c, s, step))
  {
    if step.HandleChange? || step.TryResume? {
      HandlerStuck(c, s, step);
    } else if step.Resume? || step.Settle? {
      SettleStuck(c, s, step);
    } else if step.Drain? || step.FlushAck? || step.FlushNoAck? {
      FlushStuck(c, s, step);
    } else {
      LoopStuck(c, s, step);
    }
  }

  lemma {:induction false} StuckRun(c: Config, s: State, steps: seq<Step>)
    requires DistinctMessages(c) && Stuck(c) && Inv(c, s) && StuckInv(c, s) && Legal(c, s, steps)
    ensures StuckInv(c, Exec(c, s, steps))
    decreases |steps|
  {
    if steps != [] {
      StuckStep(c, s, steps[0]);
      InvStep(c, s, steps[0]);
      StuckRun(c, Apply(c, s, steps[0]), steps[1..]);
    }
  }

  /** A run that completes a batch and gets past its first block. */
  lemma GetsOn(c: Config) returns (s: State)
    requires !Stuck(c)
    ensures Reachable(c, s) && !s.pc.Down? && s.nextBlock > s.start
  {
    if c.canon(c.initial) == [] {
      s := FirstRun(c);
      s := CrossesEmptyBlock(c, Init(), s);
    } else if c.canon(c.initial + 1) == [] {
      s := SecondRun(c);
      s := CrossesEmptyBlock(c, Init(), s);
    } else {
      s := FirstRun(c);
      s := PublishesBlock(c, Init(), s);
    }
  }

  /**
   Some run gets past the block it starts from exactly when the configuration is not stuck; with batch size 0
   none does.
   */
  lemma NextBlockMovesExactly(c: Config)
    requires DistinctMessages(c)
    ensures (exists s :: Reachable(c, s) && !s.pc.Down? && s.nextBlock > s.start) <==> !Stuck(c)
  {
    if Stuck(c) {
      forall s | Reachable(c, s) && !s.pc.Down?
        ensures s.nextBlock == s.start
      {
        var steps :| Legal(c, Init(), steps) && Exec(c, Init(), steps) == s;
        StuckRun(c, Init(), steps);
      }
    } else {
      var s := GetsOn(c);
    }
  }
}

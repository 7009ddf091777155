/**
 Recovery: once connected, with publishes succeeding, handling the pending change and one tick leave
 the buffer empty, the reader unpaused and the cursor caught up. In every such run, whatever batches are
 read, published or dropped meanwhile, and some run exists.
 */
module Recovery {
  import opened Protocol
  import opened Safety

  /** The process lives on, the connection is stable and no publish fails. */
  ghost predicate Calm(step: Step) {
    !Disturbs(step)
  }

  ghost predicate Disturbs(step: Step) {
    step.NatsUp? || step.NatsDown? || step.NoAck? || step.FlushNoAck?
    || step.Shutdown? || step.Kill? || step.PowerLoss? || step.Start?
  }

  ghost predicate CalmRun(steps: seq<Step>) {
    forall i :: 0 <= i < |steps| ==> Calm(steps[i])
  }

  /** On the way from a tick to its attempt to drain the buffer. */
  ghost predicate WillDrain(s: State) {
    s.pc == Persisting(Periodic, s.cursor) || s.pc == Syncing(Periodic) || s.pc.Resuming? || s.pc.Draining?
  }

  ghost predicate Recovering(s: State, ticked: bool) {
    && s.conn.Connected? && !s.pc.Down?
    && (s.pc.Persisting? || s.pc.Syncing? ==> s.pc.persister.Periodic?)
    && (ticked ==> s.buffer == [] || WillDrain(s))
  }

  /** Recovery goes on, and the next block does not go back. */
  ghost predicate RecoversOn(s: State, ticked: bool, t: State) {
    Recovering(t, ticked) && t.nextBlock >= s.nextBlock
  }

  lemma PersistCalm(c: Config, s: State, step: Step, ticked: bool)
    requires Recovering(s, ticked) && PcInv(c, s) && Enabled(c, s, step)
    requires step.Rename? || step.PersistFailed? || step.SyncDirectory?
    ensures RecoversOn(s, ticked, Apply(c, s, step))
  {
  }

  lemma ChangeCalm(c: Config, s: State, step: Step, ticked: bool)
    requires Recovering(s, ticked) && PcInv(c, s) && Enabled(c, s, step)
    requires step.HandleChange? || step.StateChange?
    ensures RecoversOn(s, ticked, Apply(c, s, step))
  {
  }

  lemma TryResumeCalm(c: Config, s: State, ticked: bool)
    requires Recovering(s, ticked) && Enabled(c, s, TryResume)
    ensures RecoversOn(s, ticked, Apply(c, s, TryResume))
  {
  }

  lemma TickCalm(c: Config, s: State, ticked: bool)
    requires Recovering(s, ticked) && Enabled(c, s, Tick)
    ensures RecoversOn(s, true, Apply(c, s, Tick))
  {
  }

  lemma FlushCalm(c: Config, s: State, step: Step, ticked: bool)
    requires Recovering(s, ticked) && PcInv(c, s) && Enabled(c, s, step)
    requires step.Drain? || step.FlushAck?
    ensures RecoversOn(s, ticked, Apply(c, s, step))
  {
  }

  lemma SettleCalm(c: Config, s: State, step: Step, ticked: bool)
    requires Recovering(s, ticked) && PcInv(c, s) && Enabled(c, s, step)
    requires step.Resume? || step.Settle?
    ensures RecoversOn(s, ticked, Apply(c, s, step))
  {
  }

  lemma PublishCalm(c: Config, s: State, step: Step, ticked: bool)
    requires Recovering(s, ticked) && Enabled(c, s, step)
    requires step.Offer? || step.Send? || step.Ack?
    ensures RecoversOn(s, ticked, Apply(c, s, step))
  {
  }

  lemma BatchCalm(c: Config, s: State, step: Step, ticked: bool)
    requires Recovering(s, ticked) && Enabled(c, s, step)
    requires step.BeginBatch? || step.EndBatch? || step.Cancel?
    ensures RecoversOn(s, ticked, Apply(c, s, step))
  {
  }

  lemma IdleCalm(c: Config, s: State, step: Step, ticked: bool)
    requires Recovering(s, ticked) && Enabled(c, s, step)
    requires step.Store? || step.DelayOver? || step.NothingNew?
    ensures RecoversOn(s, ticked, Apply(c, s, step))
  {
  }

  lemma CalmStep(c: Config, s: State, step: Step, ticked: bool)
    requires Recovering(s, ticked) && PcInv(c, s) && Enabled(c, s, step) && Calm(step)
    ensures RecoversOn(s, ticked || step.Tick?, Apply(c, s, step))
  {
    if step.Rename? || step.PersistFailed? || step.SyncDirectory? {
      PersistCalm(c, s, step, ticked);
    } else if step.HandleChange? || step.StateChange? {
      ChangeCalm(c, s, step, ticked);
    } else if step.TryResume? {
      TryResumeCalm(c, s, ticked);
    } else if step.Tick? {
      TickCalm(c, s, ticked);
    } else if step.Drain? || step.FlushAck? {
      FlushCalm(c, s, step, ticked);
    } else if step.Resume? || step.Settle? {
      SettleCalm(c, s, step, ticked);
    } else if step.Offer? || step.Send? || step.Ack? {
      PublishCalm(c, s, step, ticked);
    } else if step.BeginBatch? || step.EndBatch? || step.Cancel? {
      BatchCalm(c, s, step, ticked);
    } else {
      IdleCalm(c, s, step, ticked);
    }
  }

  lemma {:induction false} CalmSteps(c: Config, s: State, steps: seq<Step>, ticked: bool)
    requires DistinctMessages(c) && Inv(c, s) && Recovering(s, ticked) && Legal(c, s, steps) && CalmRun(steps)
    ensures Inv(c, Exec(c, s, steps)) && RecoversOn(s, ticked || Tick in steps, Exec(c, s, steps))
    decreases |steps|
  {
    if steps != [] {
      var step := steps[0];
      assert Calm(step);
      CalmStep(c, s, step, ticked);
      InvStep(c, s, step);
      CalmSteps(c, Apply(c, s, step), steps[1..], ticked || step.Tick?);
      assert steps == [step] + steps[1..];
    }
  }

  /**
   Every calm run that handles the pending change and a tick has recovered, wherever it started, at the
   loop head and in a batch alike.
   */
  lemma CalmRunRecovers(c: Config, s: State, steps: seq<Step>)
    requires DistinctMessages(c) && Reachable(c, s) && s.conn.Connected? && !s.pc.Down? && !ShuttingDown(s)
    requires Legal(c, s, steps) && CalmRun(steps) && Tick in steps
    requires var t := Exec(c, s, steps); (t.pc.Idle? || t.pc.Preempted? || InBatch(t)) && !t.unseen
    ensures var t := Exec(c, s, steps);
            t.buffer == [] && !t.paused && t.cursor >= t.nextBlock - 1 && t.nextBlock >= s.nextBlock
  {
    ReachableInv(c, s);
    CalmSteps(c, s, steps, false);
  }

  // ----- Such a run exists -----

  /** A calm run from s to t. */
  ghost predicate Calmly(c: Config, s: State, steps: seq<Step>, t: State) {
    Legal(c, s, steps) && CalmRun(steps) && Exec(c, s, steps) == t
  }

  lemma Then(c: Config, s: State, a: seq<Step>, t: State, step: Step) returns (b: seq<Step>, u: State)
    requires DistinctMessages(c) && Calmly(c, s, a, t) && Inv(c, t) && Enabled(c, t, step) && Calm(step)
    ensures u == Apply(c, t, step) && Calmly(c, s, b, u) && b == a + [step] && Inv(c, u)
  {
    u := Apply(c, t, step);
    b := a + [step];
    LegalAppend(c, s, a, step);
    InvStep(c, t, step);
  }

  /** The stream stores the message in flight, if it has not done so before. */
  lemma Stores(c: Config, s: State, a: seq<Step>, t: State, m: Message) returns (b: seq<Step>, u: State)
    requires DistinctMessages(c) && Calmly(c, s, a, t) && Inv(c, t) && m in t.sent
    ensures Calmly(c, s, b, u) && Inv(c, u) && u == t.(stored := u.stored) && HasId(u.stored, m)
    ensures a <= b
  {
    b, u := a, t;
    if !HasId(t.stored, m) {
      b, u := Then(c, s, a, t, Store(m));
      assert m in u.stored;
    }
  }

  /** A handler keeps the connection and the flags of the main loop. */
  ghost predicate SameFlags(t: State, u: State) {
    u.conn == t.conn && u.unseen == t.unseen && u.needsDelay == t.needsDelay
  }

  /** The rest of a flush. */
  lemma {:induction false} Flushes(c: Config, s: State, a: seq<Step>, t: State) returns (b: seq<Step>, u: State)
    requires DistinctMessages(c) && Calmly(c, s, a, t) && Inv(c, t) && t.pc.Flushing?
    ensures Calmly(c, s, b, u) && Inv(c, u) && a <= b
    ensures u.pc == Flushed(t.pc.flusher, true) && SameFlags(t, u)
    decreases |t.pc.todo|
  {
    b, u := Stores(c, s, a, t, t.pc.todo[0]);
    b, u := Then(c, s, b, u, FlushAck);
    if u.pc.Flushing? {
      b, u := Flushes(c, s, b, u);
    }
  }

  lemma Resumes(c: Config, s: State, a: seq<Step>, t: State) returns (b: seq<Step>, u: State)
    requires DistinctMessages(c) && Calmly(c, s, a, t) && Inv(c, t) && t.pc.Flushed?
    ensures Calmly(c, s, b, u) && Inv(c, u) && a <= b && u.pc.Settling? && SameFlags(t, u)
  {
    b, u := Then(c, s, a, t, Resume);
  }

  lemma CatchesUp(c: Config, s: State, a: seq<Step>, t: State) returns (b: seq<Step>, u: State)
    requires DistinctMessages(c) && Calmly(c, s, a, t) && Inv(c, t) && t.pc.Settling?
    ensures Calmly(c, s, b, u) && Inv(c, u) && a <= b && u.pc.Idle? && SameFlags(t, u)
  {
    b, u := Then(c, s, a, t, Settle);
  }

  /** From a successful flush back to the main loop. */
  lemma Settles(c: Config, s: State, a: seq<Step>, t: State) returns (b: seq<Step>, u: State)
    requires DistinctMessages(c) && Calmly(c, s, a, t) && Inv(c, t) && t.pc.Flushed?
    ensures Calmly(c, s, b, u) && Inv(c, u) && a <= b && u.pc.Idle? && SameFlags(t, u)
  {
    b, u := Resumes(c, s, a, t);
    b, u := CatchesUp(c, s, b, u);
  }

  /** From entering `flush_buffer` back to the main loop. */
  lemma Drains(c: Config, s: State, a: seq<Step>, t: State) returns (b: seq<Step>, u: State)
    requires DistinctMessages(c) && Calmly(c, s, a, t) && Inv(c, t) && t.pc.Draining?
    ensures Calmly(c, s, b, u) && Inv(c, u) && a <= b && u.pc.Idle? && SameFlags(t, u)
  {
    b, u := FlushesAll(c, s, a, t);
    b, u := Settles(c, s, b, u);
  }

  lemma FlushesAll(c: Config, s: State, a: seq<Step>, t: State) returns (b: seq<Step>, u: State)
    requires DistinctMessages(c) && Calmly(c, s, a, t) && Inv(c, t) && t.pc.Draining?
    ensures Calmly(c, s, b, u) && Inv(c, u) && a <= b && u.pc.Flushed? && SameFlags(t, u)
  {
    b, u := Then(c, s, a, t, Drain);
    if u.pc.Flushing? {
      b, u := Flushes(c, s, b, u);
    }
  }

  lemma HandlesChange(c: Config, s: State, a: seq<Step>, t: State) returns (b: seq<Step>, u: State)
    requires DistinctMessages(c) && Calmly(c, s, a, t) && Inv(c, t) && t.pc.Idle? && !t.needsDelay &&
        t.conn.Connected? && t.unseen
    ensures Calmly(c, s, b, u) && Inv(c, u) && u.pc.Idle? && SameFlags(t.(unseen := false), u)
  {
    b, u := Then(c, s, a, t, StateChange);
    b, u := Then(c, s, b, u, HandleChange);
    b, u := Drains(c, s, b, u);
  }

  lemma Ticks(c: Config, s: State, a: seq<Step>, t: State) returns (b: seq<Step>, u: State)
    requires DistinctMessages(c) && Calmly(c, s, a, t) && Inv(c, t) && Selects(t) && !t.unseen && t.conn.Connected?
    ensures Calmly(c, s, b, u) && Inv(c, u) && u.pc.Idle? && SameFlags(t, u) && Tick in b
  {
    b, u := TicksOnce(c, s, a, t);
    var ticked := b;
    b, u := TriesToResume(c, s, b, u);
    assert Tick in ticked && ticked <= b;
  }

  /** The tick up to the end of its persist. */
  lemma TicksOnce(c: Config, s: State, a: seq<Step>, t: State) returns (b: seq<Step>, u: State)
    requires DistinctMessages(c) && Calmly(c, s, a, t) && Inv(c, t) && Selects(t) && !t.unseen && t.conn.Connected?
    ensures Calmly(c, s, b, u) && Inv(c, u) && u.pc.Resuming? && SameFlags(t, u) && Tick in b
  {
    b, u := Then(c, s, a, t, Tick);
    var ticked := b;
    b, u := Then(c, s, b, u, PersistFailed);
    assert ticked[|a|] == Tick && ticked <= b;
  }

  /** The rest of the tick. */
  lemma TriesToResume(c: Config, s: State, a: seq<Step>, t: State) returns (b: seq<Step>, u: State)
    requires DistinctMessages(c) && Calmly(c, s, a, t) && Inv(c, t) && t.pc.Resuming?
    ensures Calmly(c, s, b, u) && Inv(c, u) && u.pc.Idle? && SameFlags(t, u) && a <= b
  {
    b, u := LooksAtBuffer(c, s, a, t);
    if u.pc.Draining? {
      b, u := Drains(c, s, b, u);
    }
  }

  lemma LooksAtBuffer(c: Config, s: State, a: seq<Step>, t: State) returns (b: seq<Step>, u: State)
    requires DistinctMessages(c) && Calmly(c, s, a, t) && Inv(c, t) && t.pc.Resuming?
    ensures Calmly(c, s, b, u) && Inv(c, u) && (u.pc.Idle? || u.pc.Draining?) && SameFlags(t, u) && a <= b
  {
    b, u := Then(c, s, a, t, TryResume);
  }

  /** A run as required by `CalmRunRecovers` exists from every connected state between two iterations. */
  lemma RecoveryIsPossible(c: Config, s: State) returns (steps: seq<Step>)
    requires DistinctMessages(c) && Reachable(c, s) && s.pc.Idle? && s.conn.Connected?
    ensures Legal(c, s, steps) && CalmRun(steps) && Tick in steps
    ensures Exec(c, s, steps).pc.Idle? && !Exec(c, s, steps).unseen
  {
    ReachableInv(c, s);
    steps := [];
    var t := s;
    if t.needsDelay {
      steps, t := Then(c, s, steps, t, DelayOver);
    }
    if t.unseen {
      steps, t := HandlesChange(c, s, steps, t);
    }
    steps, t := Ticks(c, s, steps, t);
  }
}

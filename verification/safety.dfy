/** What every reachable state keeps: no message is lost, the cursor is safe and tight, the buffer bounded. */
module Safety {
  import opened Wrappers
  import opened Spans
  import opened Protocol

  // ----- The parts of the invariant -----

  ghost predicate IsCanon(c: Config, m: Message) {
    exists b: nat :: b >= c.initial && m in c.canon(b)
  }

  ghost predicate AllCanon(c: Config, ms: seq<Message>) {
    forall m :: m in ms ==> IsCanon(c, m)
  }

  /** Messages drained from the buffer and not yet acknowledged; they live in a local of `flush_buffer`. */
  ghost function Drained(s: State): seq<Message> {
    if s.pc.Flushing? then s.pc.todo else []
  }

  /** Messages of the current batch that branch 4 still has to deal with. */
  ghost function BatchTodo(s: State): seq<Message> {
    match s.pc
    case Publishing(todo, _) => todo
    case Offered(m, todo, _) => [m] + todo
    case InFlight(m, todo, _) => [m] + todo
    case _ => []
  }

  ghost predicate InBatch(s: State) {
    s.pc.Publishing? || s.pc.Offered? || s.pc.InFlight?
  }

  /** Acknowledged, buffered, or held by a running flush. */
  ghost predicate Covered(s: State, m: Message) {
    m in s.acked || m in s.buffer || m in Drained(s)
  }

  ghost predicate Accounted(c: Config, s: State, lo: nat, hi: int) {
    forall b: nat, m :: lo <= b < hi && m in c.canon(b) ==> Covered(s, m)
  }

  /** Every message of the blocks strictly above the initial block, up to `last`, has been acknowledged. */
  ghost predicate SafeUpTo(c: Config, acked: set<Message>, last: int) {
    forall b: nat, m :: c.initial < b <= last && m in c.canon(b) ==> m in acked
  }

  ghost predicate StreamInv(c: Config, s: State) {
    && (forall m :: m in s.acked ==> m in s.stored)
    && (forall m :: m in s.stored ==> m in s.sent)
    && (forall m :: m in s.sent ==> IsCanon(c, m))
  }

  ghost predicate NoLater(a: Option<nat>, b: Option<nat>) {
    a.None? || (b.Some? && a.value <= b.value)
  }

  ghost predicate DiskInv(c: Config, s: State) {
    && s.disk != []
    && (forall i :: 0 <= i < |s.disk| && s.disk[i].Some? ==>
        c.initial <= s.disk[i].value && SafeUpTo(c, s.acked, s.disk[i].value))
    && (forall i, j :: 0 <= i <= j < |s.disk| ==> NoLater(s.disk[i], s.disk[j]))
  }

  ghost predicate CursorInv(c: Config, s: State) {
    && 1 <= s.start <= s.nextBlock && c.initial <= s.start
    && c.initial <= s.cursor <= Max(s.nextBlock - 1, c.initial)
    && s.disk != [] && NoLater(Visible(s.disk), Some(s.cursor))
    && SafeUpTo(c, s.acked, s.start - 1)
    && SafeUpTo(c, s.acked, s.cursor)
  }

  /** An empty buffer means the cursor has caught up, except inside a flush that is about to do so. */
  ghost predicate Tight(s: State) {
    s.buffer == [] && !s.pc.Flushing? && !s.pc.Flushed? && s.pc != Settling(true) ==> s.cursor >= s.nextBlock - 1
  }

  ghost predicate BufferInv(c: Config, s: State) {
    && |s.buffer| + |Drained(s)| <= c.capacity
    && AllCanon(c, s.buffer) && AllCanon(c, Drained(s))
  }

  /** What the program counter says about the rest. */
  ghost predicate PcInv(c: Config, s: State) {
    && (s.pc.Persisting? ==> s.pc.value == s.cursor)
    && (s.pc.Offered? || s.pc.InFlight? ==> |s.buffer| < c.capacity)
    && (s.pc.Flushing? ==> s.buffer == [] && s.pc.todo != [] && s.pc.todo[0] in s.sent)
    && (s.pc.InFlight? ==> s.pc.m in s.sent)
    && (s.pc.Flushed? ==> (s.pc.ok <==> s.buffer == []))
  }

  /** The batch's messages before the remaining ones have been taken care of. */
  ghost predicate BatchInv(c: Config, s: State) {
    InBatch(s) ==>
      var whole := Span(c.canon, s.nextBlock, s.pc.batch.last + 1);
      var todo := BatchTodo(s);
      && s.nextBlock <= s.pc.batch.last + 1
      && |todo| <= |whole| && todo == whole[|whole| - |todo|..]
      && (forall i :: 0 <= i < |whole| - |todo| ==> Covered(s, whole[i]))
  }

  /** A set pause flag will be looked at again. */
  ghost predicate NotStuck(s: State) {
    s.paused && !s.pc.Changed? && !s.pc.Draining? && !s.pc.Flushing? && !s.pc.Flushed? ==>
      s.buffer != [] || s.conn.Disconnected? || s.unseen
  }

  ghost predicate RunInv(c: Config, s: State) {
    && CursorInv(c, s)
    && Accounted(c, s, s.start, s.nextBlock)
    && Tight(s)
    && BufferInv(c, s)
    && PcInv(c, s)
    && BatchInv(c, s)
    && NotStuck(s)
  }

  ghost predicate Inv(c: Config, s: State) {
    && StreamInv(c, s)
    && DiskInv(c, s)
    && s.rejected == 0
    && (!s.pc.Down? ==> RunInv(c, s))
  }

  // ----- Steps -----

  lemma StoredIsTheMessage(c: Config, s: State, m: Message)
    requires DistinctMessages(c) && StreamInv(c, s) && IsCanon(c, m) && HasId(s.stored, m)
    ensures m in s.stored
  {
    var n :| n in s.stored && n.Checksum() == m.Checksum();
    assert IsCanon(c, n);
  }

  /** Nothing but the program counter, the flags and the connection has changed. */
  ghost predicate SameData(s: State, t: State) {
    && t.disk == s.disk && t.sent == s.sent && t.stored == s.stored && t.acked == s.acked
    && t.buffer == s.buffer && Drained(t) == Drained(s) && t.rejected == s.rejected
    && t.start == s.start && t.nextBlock == s.nextBlock && t.cursor == s.cursor
  }

  lemma FlagsStep(c: Config, s: State, t: State)
    requires Inv(c, s) && SameData(s, t) && !s.pc.Down? && !t.pc.Down?
    requires Tight(t) && PcInv(c, t) && NotStuck(t)
    requires InBatch(t) ==> InBatch(s) && BatchTodo(t) == BatchTodo(s) && t.pc.batch == s.pc.batch
    ensures Inv(c, t)
  {
    assert forall m :: Covered(t, m) <==> Covered(s, m);
  }

  lemma CrashStep(c: Config, s: State, step: Step)
    requires Inv(c, s) && Enabled(c, s, step)
    requires step.Kill? || step.PowerLoss?
    ensures Inv(c, Apply(c, s, step))
  {
  }

  lemma StartStep(c: Config, s: State)
    requires Inv(c, s) && Enabled(c, s, Start)
    ensures Inv(c, Apply(c, s, Start))
  {
  }

  lemma ConnectionStep(c: Config, s: State, step: Step)
    requires Inv(c, s) && Enabled(c, s, step)
    requires step.NatsUp? || step.NatsDown?
    ensures Inv(c, Apply(c, s, step))
  {
    FlagsStep(c, s, Apply(c, s, step));
  }

  /** Steps taken at the top of the main loop. */
  lemma IdleStep(c: Config, s: State, step: Step)
    requires Inv(c, s) && Enabled(c, s, step)
    requires step.DelayOver? || step.NothingNew? || step.Shutdown? || step.StateChange? || step.Tick?
    ensures Inv(c, Apply(c, s, step))
  {
    FlagsStep(c, s, Apply(c, s, step));
  }

  lemma BatchControlStep(c: Config, s: State, step: Step)
    requires Inv(c, s) && Enabled(c, s, step)
    requires step.Cancel? || step.Offer?
    ensures Inv(c, Apply(c, s, step))
  {
    var t := Apply(c, s, step);
    if step.Offer? {
      assert BatchTodo(t) == BatchTodo(s);
    }
    FlagsStep(c, s, t);
  }

  lemma HandleChangeData(c: Config, s: State)
    requires Enabled(c, s, HandleChange)
    ensures var t := Apply(c, s, HandleChange); SameData(s, t) && !InBatch(t) && !t.pc.Down?
  {
  }

  lemma HandleChangeControl(c: Config, s: State)
    requires Enabled(c, s, HandleChange) && Tight(s)
    ensures var t := Apply(c, s, HandleChange); Tight(t) && PcInv(c, t) && NotStuck(t)
  {
  }

  lemma HandleChangeStep(c: Config, s: State)
    requires Inv(c, s) && Enabled(c, s, HandleChange)
    ensures Inv(c, Apply(c, s, HandleChange))
  {
    HandleChangeData(c, s);
    HandleChangeControl(c, s);
    FlagsStep(c, s, Apply(c, s, HandleChange));
  }

  lemma TryResumeData(c: Config, s: State)
    requires Enabled(c, s, TryResume)
    ensures var t := Apply(c, s, TryResume); SameData(s, t) && !InBatch(t) && !t.pc.Down?
  {
  }

  lemma TryResumeControl(c: Config, s: State)
    requires Enabled(c, s, TryResume) && Tight(s) && NotStuck(s)
    ensures var t := Apply(c, s, TryResume); Tight(t) && PcInv(c, t) && NotStuck(t)
  {
  }

  lemma TryResumeStep(c: Config, s: State)
    requires Inv(c, s) && Enabled(c, s, TryResume)
    ensures Inv(c, Apply(c, s, TryResume))
  {
    TryResumeData(c, s);
    TryResumeControl(c, s);
    FlagsStep(c, s, Apply(c, s, TryResume));
  }

  lemma ResumeData(c: Config, s: State)
    requires Enabled(c, s, Resume)
    ensures var t := Apply(c, s, Resume); SameData(s, t) && !InBatch(t) && !t.pc.Down?
  {
  }

  lemma ResumeControl(c: Config, s: State)
    requires Enabled(c, s, Resume) && PcInv(c, s)
    ensures var t := Apply(c, s, Resume); Tight(t) && PcInv(c, t) && NotStuck(t)
  {
  }

  lemma ResumeStep(c: Config, s: State)
    requires Inv(c, s) && Enabled(c, s, Resume)
    ensures Inv(c, Apply(c, s, Resume))
  {
    ResumeData(c, s);
    ResumeControl(c, s);
    FlagsStep(c, s, Apply(c, s, Resume));
  }

  lemma RenameStep(c: Config, s: State)
    requires Inv(c, s) && Enabled(c, s, Rename)
    ensures Inv(c, Apply(c, s, Rename))
  {
    var t := Apply(c, s, Rename);
    assert forall m :: Covered(t, m) <==> Covered(s, m);
    assert forall i :: 0 <= i < |s.disk| ==> t.disk[i] == s.disk[i] && NoLater(s.disk[i], Visible(s.disk));
  }

  lemma PersistedStep(c: Config, s: State, persister: Persister)
    requires Inv(c, s) && (s.pc.Persisting? || s.pc.Syncing?)
    ensures Inv(c, AfterPersist(s, persister))
  {
    if persister.Periodic? {
      FlagsStep(c, s, AfterPersist(s, persister));
    }
  }

  lemma SyncStep(c: Config, s: State)
    requires Inv(c, s) && s.pc.Syncing?
    ensures Inv(c, s.(disk := [Visible(s.disk)]))
  {
    var t := s.(disk := [Visible(s.disk)]);
    assert forall m :: Covered(t, m) <==> Covered(s, m);
  }

  lemma BeginBatchStep(c: Config, s: State, latest: nat)
    requires Inv(c, s) && Enabled(c, s, BeginBatch(latest))
    ensures Inv(c, Apply(c, s, BeginBatch(latest)))
  {
    FlagsStep(c, s, s.(pc := Resuming));
    var t := Apply(c, s, BeginBatch(latest));
    assert forall m :: Covered(t, m) <==> Covered(s, m);
  }

  lemma {:induction false} SpanIsCanon(c: Config, lo: nat, hi: int)
    requires lo >= c.initial
    ensures AllCanon(c, Span(c.canon, lo, hi))
    decreases hi - lo
  {
    if lo < hi {
      SpanIsCanon(c, lo, hi - 1);
    }
  }

  lemma BatchTodoIsCanon(c: Config, s: State)
    requires RunInv(c, s)
    ensures AllCanon(c, BatchTodo(s))
  {
    if InBatch(s) {
      var whole := Span(c.canon, s.nextBlock, s.pc.batch.last + 1);
      SpanIsCanon(c, s.nextBlock, s.pc.batch.last + 1);
      assert forall m :: m in BatchTodo(s) ==> m in whole;
    }
  }

  /** Taking the first remaining message off the batch once it is covered. */
  lemma BatchAdvances(c: Config, s: State, t: State)
    requires BatchInv(c, s) && InBatch(s) && InBatch(t)
    requires t.nextBlock == s.nextBlock && t.pc.batch == s.pc.batch
    requires BatchTodo(s) != [] && BatchTodo(t) == BatchTodo(s)[1..]
    requires Covered(t, BatchTodo(s)[0])
    requires forall m :: Covered(s, m) ==> Covered(t, m)
    ensures BatchInv(c, t)
  {
    var whole := Span(c.canon, s.nextBlock, s.pc.batch.last + 1);
    var todo := BatchTodo(s);
    assert whole[|whole| - |todo|] == todo[0];
    assert todo[1..] == whole[|whole| - |todo| + 1..];
  }

  /** Messages have been sent, stored, acknowledged, or moved between the buffer and a flush; none got lost. */
  lemma MessagesStep(c: Config, s: State, t: State)
    requires Inv(c, s) && !s.pc.Down? && !t.pc.Down?
    requires t.disk == s.disk && t.rejected == s.rejected
    requires t.start == s.start && t.nextBlock == s.nextBlock && t.cursor == s.cursor
    requires s.acked <= t.acked && StreamInv(c, t)
    requires forall m :: Covered(s, m) ==> Covered(t, m)
    requires BufferInv(c, t) && Tight(t) && PcInv(c, t) && NotStuck(t) && BatchInv(c, t)
    ensures Inv(c, t)
  {
  }

  lemma SameBatch(c: Config, s: State, t: State)
    requires BatchInv(c, s) && InBatch(s) && InBatch(t)
    requires t.nextBlock == s.nextBlock && t.pc.batch == s.pc.batch && BatchTodo(t) == BatchTodo(s)
    requires forall m :: Covered(s, m) ==> Covered(t, m)
    ensures BatchInv(c, t)
  {
  }

  lemma StoreStep(c: Config, s: State, m: Message)
    requires Inv(c, s) && Enabled(c, s, Store(m))
    ensures Inv(c, Apply(c, s, Store(m)))
  {
    var t := Apply(c, s, Store(m));
    if !s.pc.Down? {
      assert Drained(t) == Drained(s);
      if InBatch(s) {
        SameBatch(c, s, t);
      }
      MessagesStep(c, s, t);
    }
  }

  /** The message being published goes into the buffer, which has room for it. */
  lemma BufferedStep(c: Config, s: State)
    requires Inv(c, s) && (s.pc.Offered? || s.pc.InFlight?)
    ensures Inv(c, Push(c, s.(paused := true, clean := false, pc := Publishing(s.pc.todo, s.pc.batch)), s.pc.m))
  {
    BatchTodoIsCanon(c, s);
    assert s.pc.m in BatchTodo(s);
    var t := Push(c, s.(paused := true, clean := false, pc := Publishing(s.pc.todo, s.pc.batch)), s.pc.m);
    assert t.buffer == s.buffer + [s.pc.m];
    assert forall m :: Covered(t, m) <==> Covered(s, m) || m == s.pc.m;
    BatchAdvances(c, s, t);
  }

  lemma InFlightStep(c: Config, s: State)
    requires Inv(c, s) && s.pc.Offered?
    ensures Inv(c, s.(pc := InFlight(s.pc.m, s.pc.todo, s.pc.batch), sent := s.sent + {s.pc.m}))
  {
    BatchTodoIsCanon(c, s);
    assert s.pc.m in BatchTodo(s);
    var t := s.(pc := InFlight(s.pc.m, s.pc.todo, s.pc.batch), sent := s.sent + {s.pc.m});
    assert BatchTodo(t) == BatchTodo(s) && Drained(t) == Drained(s);
    SameBatch(c, s, t);
    MessagesStep(c, s, t);
  }

  lemma SendStep(c: Config, s: State)
    requires Inv(c, s) && Enabled(c, s, Send)
    ensures Inv(c, Apply(c, s, Send))
  {
    if s.conn.Connected? {
      InFlightStep(c, s);
    } else {
      BufferedStep(c, s);
    }
  }

  lemma AckStep(c: Config, s: State)
    requires DistinctMessages(c) && Inv(c, s) && Enabled(c, s, Ack)
    ensures Inv(c, Apply(c, s, Ack))
  {
    BatchTodoIsCanon(c, s);
    assert s.pc.m in BatchTodo(s);
    StoredIsTheMessage(c, s, s.pc.m);
    AckMoves(c, s);
    MessagesStep(c, s, Apply(c, s, Ack));
  }

  /** The acknowledged message is covered, and the batch goes on with the next one. */
  lemma AckMoves(c: Config, s: State)
    requires RunInv(c, s) && Enabled(c, s, Ack)
    ensures var t := Apply(c, s, Ack); BatchInv(c, t) && forall m :: Covered(s, m) ==> Covered(t, m)
  {
    var t := Apply(c, s, Ack);
    assert forall m :: Covered(t, m) <==> Covered(s, m) || m == s.pc.m;
    BatchAdvances(c, s, t);
  }

  /** A finished batch extends the accounted blocks by the batch's. */
  lemma EndBatchAccounts(c: Config, s: State)
    requires RunInv(c, s) && Enabled(c, s, EndBatch)
    ensures Accounted(c, s, s.start, s.pc.batch.last + 1)
  {
    var whole := Span(c.canon, s.nextBlock, s.pc.batch.last + 1);
    forall b: nat, m | s.start <= b < s.pc.batch.last + 1 && m in c.canon(b)
      ensures Covered(s, m)
    {
      if b >= s.nextBlock {
        SpanContains(c.canon, s.nextBlock, s.pc.batch.last + 1, b, m);
        assert m in whole;
      }
    }
  }

  /** With nothing buffered or drained, everything accounted for is acknowledged. */
  lemma EmptyBufferIsSafe(c: Config, s: State, hi: nat)
    requires CursorInv(c, s) && Accounted(c, s, s.start, hi)
    requires s.buffer == [] && Drained(s) == []
    ensures SafeUpTo(c, s.acked, hi - 1)
  {
    forall b: nat, m | c.initial < b <= hi - 1 && m in c.canon(b)
      ensures m in s.acked
    {
      if b >= s.start {
        assert Covered(s, m);
      }
    }
  }

  /** The cursor or the next block moves forward, over blocks that are accounted for. */
  lemma ForwardStep(c: Config, s: State, t: State)
    requires Inv(c, s) && !s.pc.Down? && !t.pc.Down? && !InBatch(t)
    requires SameData(s.(nextBlock := t.nextBlock, cursor := t.cursor), t)
    requires s.nextBlock <= t.nextBlock && Accounted(c, s, s.start, t.nextBlock)
    requires s.cursor <= t.cursor <= Max(t.nextBlock - 1, c.initial) && SafeUpTo(c, s.acked, t.cursor)
    requires Tight(t) && PcInv(c, t) && NotStuck(t)
    ensures Inv(c, t)
  {
    assert Drained(t) == Drained(s);
    assert forall m :: Covered(t, m) <==> Covered(s, m);
  }

  lemma EndBatchControl(c: Config, s: State)
    requires Enabled(c, s, EndBatch) && s.nextBlock <= s.pc.batch.last + 1
    requires Tight(s) && NotStuck(s) && s.cursor <= Max(s.nextBlock - 1, c.initial)
    ensures var t := Apply(c, s, EndBatch);
            && SameData(s.(nextBlock := t.nextBlock, cursor := t.cursor), t)
            && Tight(t) && PcInv(c, t) && NotStuck(t) && t.pc.Idle?
            && t.nextBlock == s.pc.batch.last + 1
            && s.cursor <= t.cursor <= Max(t.nextBlock - 1, c.initial)
            && (t.cursor == s.cursor || (s.buffer == [] && t.cursor == t.nextBlock - 1))
  {
  }

  lemma EndBatchStep(c: Config, s: State)
    requires Inv(c, s) && Enabled(c, s, EndBatch)
    ensures Inv(c, Apply(c, s, EndBatch))
  {
    EndBatchAccounts(c, s);
    EndBatchControl(c, s);
    if s.buffer == [] {
      EmptyBufferIsSafe(c, s, s.pc.batch.last + 1);
    }
    ForwardStep(c, s, Apply(c, s, EndBatch));
  }

  lemma DrainStep(c: Config, s: State)
    requires Inv(c, s) && Enabled(c, s, Drain)
    ensures Inv(c, Apply(c, s, Drain))
  {
    if s.buffer == [] {
      FlagsStep(c, s, Apply(c, s, Drain));
    } else {
      DrainsStep(c, s);
    }
  }

  lemma DrainsStep(c: Config, s: State)
    requires Inv(c, s) && Enabled(c, s, Drain) && s.buffer != []
    ensures Inv(c, Apply(c, s, Drain))
  {
    DrainMoves(c, s);
    MessagesStep(c, s, Apply(c, s, Drain));
  }

  lemma DrainMoves(c: Config, s: State)
    requires s.pc.Draining? && s.buffer != [] && BufferInv(c, s)
    ensures var t := Apply(c, s, Drain);
            && BufferInv(c, t) && PcInv(c, t) && IsCanon(c, s.buffer[0])
            && forall m :: Covered(s, m) ==> Covered(t, m)
  {
    assert s.buffer[0] in s.buffer;
  }

  /** Taking the acknowledged head off what a flush has drained. */
  lemma HeadAcked(c: Config, s: State, t: State)
    requires RunInv(c, s) && s.pc.Flushing?
    requires t.acked == s.acked + {s.pc.todo[0]} && t.buffer == s.buffer && Drained(t) == s.pc.todo[1..]
    ensures forall m :: Covered(t, m) <==> Covered(s, m)
    ensures AllCanon(c, Drained(t)) && IsCanon(c, s.pc.todo[0])
    ensures Drained(t) != [] ==> IsCanon(c, Drained(t)[0])
  {
    var todo := s.pc.todo;
    assert todo == [todo[0]] + todo[1..];
    assert todo[0] in Drained(s);
    assert todo[1..] != [] ==> todo[1..][0] in todo;
  }

  lemma FlushAckStep(c: Config, s: State)
    requires DistinctMessages(c) && Inv(c, s) && Enabled(c, s, FlushAck)
    ensures Inv(c, Apply(c, s, FlushAck))
  {
    var t := Apply(c, s, FlushAck);
    HeadAcked(c, s, t);
    StoredIsTheMessage(c, s, s.pc.todo[0]);
    MessagesStep(c, s, t);
  }

  lemma FlushNoAckStep(c: Config, s: State)
    requires Inv(c, s) && Enabled(c, s, FlushNoAck)
    ensures Inv(c, Apply(c, s, FlushNoAck))
  {
    var t := Apply(c, s, FlushNoAck);
    assert t.buffer == s.pc.todo;
    MessagesStep(c, s, t);
  }

  lemma SettleStep(c: Config, s: State)
    requires Inv(c, s) && Enabled(c, s, Settle)
    ensures Inv(c, Apply(c, s, Settle))
  {
    if s.buffer == [] {
      EmptyBufferIsSafe(c, s, s.nextBlock);
    }
    ForwardStep(c, s, Apply(c, s, Settle));
  }

  /** Steps of the environment, crashes and starts. */
  lemma OutsideStep(c: Config, s: State, step: Step)
    requires DistinctMessages(c) && Inv(c, s) && Enabled(c, s, step)
    requires step.Store? || step.Kill? || step.PowerLoss? || step.Start? || step.NatsUp? || step.NatsDown?
    ensures Inv(c, Apply(c, s, step))
  {
    match step
    case Store(m) => StoreStep(c, s, m);
    case Kill => CrashStep(c, s, step);
    case PowerLoss(_) => CrashStep(c, s, step);
    case Start => StartStep(c, s);
    case NatsUp => ConnectionStep(c, s, step);
    case NatsDown => ConnectionStep(c, s, step);
  }

  /** Steps of branch 4. */
  lemma BatchStep(c: Config, s: State, step: Step)
    requires DistinctMessages(c) && Inv(c, s) && Enabled(c, s, step)
    requires step.BeginBatch? || step.Offer? || step.Send? || step.Ack? || step.NoAck? || step.EndBatch? || step.Cancel?
    ensures Inv(c, Apply(c, s, step))
  {
    match step
    case BeginBatch(latest) => BeginBatchStep(c, s, latest);
    case Offer => BatchControlStep(c, s, step);
    case Send => SendStep(c, s);
    case Ack => AckStep(c, s);
    case NoAck => BufferedStep(c, s);
    case EndBatch => EndBatchStep(c, s);
    case Cancel => BatchControlStep(c, s, step);
  }

  /** Steps of a persist. */
  lemma PersistStep(c: Config, s: State, step: Step)
    requires Inv(c, s) && Enabled(c, s, step)
    requires step.Rename? || step.PersistFailed? || step.SyncDirectory?
    ensures Inv(c, Apply(c, s, step))
  {
    match step
    case Rename => RenameStep(c, s);
    case PersistFailed => PersistedStep(c, s, s.pc.persister);
    case SyncDirectory(ok) =>
      SyncStep(c, s);
      PersistedStep(c, if ok then s.(disk := [Visible(s.disk)]) else s, s.pc.persister);
  }

  /** Steps of the handlers of branches 2 and 3. */
  lemma HandlerStep(c: Config, s: State, step: Step)
    requires DistinctMessages(c) && Inv(c, s) && Enabled(c, s, step)
    requires step.HandleChange? || step.TryResume? || step.Drain? || step.FlushAck? || step.FlushNoAck? ||
        step.Resume? || step.Settle?
    ensures Inv(c, Apply(c, s, step))
  {
    match step
    case HandleChange => HandleChangeStep(c, s);
    case TryResume => TryResumeStep(c, s);
    case Drain => DrainStep(c, s);
    case FlushAck => FlushAckStep(c, s);
    case FlushNoAck => FlushNoAckStep(c, s);
    case Resume => ResumeStep(c, s);
    case Settle => SettleStep(c, s);
  }

  lemma InvStep(c: Config, s: State, step: Step)
    requires DistinctMessages(c) && Inv(c, s) && Enabled(c, s, step)
    ensures Inv(c, Apply(c, s, step))
  {
    if step.Store? || step.Kill? || step.PowerLoss? || step.Start? || step.NatsUp? || step.NatsDown? {
      OutsideStep(c, s, step);
    } else if step.BeginBatch? || step.Offer? || step.Send? || step.Ack? || step.NoAck? || step.EndBatch? ||
        step.Cancel? {
      BatchStep(c, s, step);
    } else if step.Rename? || step.PersistFailed? || step.SyncDirectory? {
      PersistStep(c, s, step);
    } else if step.DelayOver? || step.NothingNew? || step.Shutdown? || step.StateChange? || step.Tick? {
      IdleStep(c, s, step);
    } else {
      HandlerStep(c, s, step);
    }
  }

  lemma {:induction false} InvRun(c: Config, s: State, steps: seq<Step>)
    requires DistinctMessages(c) && Inv(c, s) && Legal(c, s, steps)
    ensures Inv(c, Exec(c, s, steps))
    decreases |steps|
  {
    if steps != [] {
      InvStep(c, s, steps[0]);
      InvRun(c, Apply(c, s, steps[0]), steps[1..]);
    }
  }

  /** The invariant holds after every history of runs, cancellations, failures, crashes and restarts. */
  lemma ReachableInv(c: Config, s: State)
    requires DistinctMessages(c) && Reachable(c, s)
    ensures Inv(c, s)
  {
    var steps :| Legal(c, Init(), steps) && Exec(c, Init(), steps) == s;
    InvRun(c, Init(), steps);
  }
}

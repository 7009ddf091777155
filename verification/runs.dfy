/** Runs from one state to another, and the building blocks that runs are put together from. */
module Runs {
  import opened Wrappers
  import opened Spans
  import opened Protocol
  import opened Safety

  /** Some run leads from s to t. */
  ghost predicate Leads(c: Config, s: State, t: State) {
    exists steps :: Legal(c, s, steps) && Exec(c, s, steps) == t
  }

  /** A reachable state that the process can get to from s. */
  ghost predicate Ahead(c: Config, s: State, t: State) {
    Reachable(c, t) && Leads(c, s, t)
  }

  lemma NowAhead(c: Config, s: State)
    requires Reachable(c, s)
    ensures Ahead(c, s, s)
  {
    assert Legal(c, s, []) && Exec(c, s, []) == s;
  }

  lemma Goes(c: Config, s: State, t: State, step: Step) returns (u: State)
    requires Ahead(c, s, t) && Enabled(c, t, step)
    ensures u == Apply(c, t, step) && Ahead(c, s, u)
  {
    u := Apply(c, t, step);
    ReachableStep(c, t, step);
    var steps :| Legal(c, s, steps) && Exec(c, s, steps) == t;
    LegalAppend(c, s, steps, step);
  }

  // ----- Reading on -----

  /** At the loop head, with nothing to see to before the next batch. */
  ghost predicate Ready(s: State) {
    Selects(s) && !s.unseen && !s.paused
  }

  /** Only the progress along the chain differs. */
  ghost predicate MovedTo(s: State, t: State, block: nat) {
    t == s.(nextBlock := block, cursor := t.cursor)
  }

  lemma OneBlockSpan(c: Config, block: nat)
    ensures Span(c.canon, block, block + 1) == c.canon(block)
  {
    assert Span(c.canon, block, block) == [];
  }

  /** A batch of one block is read. */
  lemma Begins(c: Config, s: State, t: State) returns (u: State)
    requires Ahead(c, s, t) && Ready(t) && c.batchSize >= 1
    ensures Ahead(c, s, u)
    ensures u == t.(pc := Publishing(c.canon(t.nextBlock), Batch(t.nextBlock, t.nextBlock)))
  {
    OneBlockSpan(c, t.nextBlock);
    u := Goes(c, s, t, BeginBatch(t.nextBlock));
  }

  /** A batch of one block is over, and the poll delay has passed. */
  lemma Ends(c: Config, s: State, t: State) returns (u: State)
    requires Ahead(c, s, t) && t.pc == Publishing([], Batch(t.nextBlock, t.nextBlock))
    ensures Ahead(c, s, u)
    ensures u == t.(pc := Idle, needsDelay := false, nextBlock := t.nextBlock + 1, cursor := u.cursor)
  {
    u := Goes(c, s, t, EndBatch);
    u := Goes(c, s, u, DelayOver);
  }

  lemma CrossesEmptyBlock(c: Config, s: State, t: State) returns (u: State)
    requires Ahead(c, s, t) && Ready(t) && c.batchSize >= 1 && c.canon(t.nextBlock) == []
    ensures Ahead(c, s, u) && MovedTo(t, u, t.nextBlock + 1)
  {
    u := Begins(c, s, t);
    u := Ends(c, s, u);
  }

  lemma {:induction false} CrossesEmptyBlocks(c: Config, s: State, t: State, block: nat) returns (u: State)
    requires Ahead(c, s, t) && Ready(t) && c.batchSize >= 1
    requires t.nextBlock <= block && EmptyBetween(c, t.nextBlock, block)
    ensures Ahead(c, s, u) && MovedTo(t, u, block)
    decreases block - t.nextBlock
  {
    u := t;
    if t.nextBlock < block {
      u := CrossesEmptyBlock(c, s, t);
      u := CrossesEmptyBlocks(c, s, u, block);
    }
  }

  ghost predicate EmptyBetween(c: Config, lo: nat, hi: nat) {
    forall b: nat :: lo <= b < hi ==> c.canon(b) == []
  }

  lemma {:induction false} FirstNonEmpty(c: Config, lo: nat, block: nat) returns (first: nat)
    requires lo <= block && c.canon(block) != []
    ensures lo <= first <= block && c.canon(first) != [] && EmptyBetween(c, lo, first)
    decreases block - lo
  {
    if c.canon(lo) != [] {
      first := lo;
    } else {
      first := FirstNonEmpty(c, lo + 1, block);
    }
  }

  // ----- Publishing -----

  /** The message about to be published is handed to the network. */
  lemma Hands(c: Config, s: State, t: State) returns (u: State)
    requires Ahead(c, s, t) && t.conn.Connected? && |t.buffer| < c.capacity
    requires t.pc.Publishing? && t.pc.todo != []
    ensures Ahead(c, s, u)
    ensures u == t.(pc := InFlight(t.pc.todo[0], t.pc.todo[1..], t.pc.batch), sent := t.sent + {t.pc.todo[0]})
  {
    u := Goes(c, s, t, Offer);
    u := Goes(c, s, u, Send);
  }

  /** Publishing has changed the stream and what is known of it, and nothing else. */
  ghost predicate StreamMoved(t: State, u: State) {
    u == t.(sent := u.sent, stored := u.stored, acked := u.acked)
  }

  lemma PublishesOne(c: Config, s: State, t: State) returns (u: State)
    requires Ahead(c, s, t) && t.conn.Connected? && |t.buffer| < c.capacity
    requires t.pc.Publishing? && t.pc.todo != []
    ensures Ahead(c, s, u) && StreamMoved(t.(pc := Publishing(t.pc.todo[1..], t.pc.batch)), u)
  {
    u := Hands(c, s, t);
    if !HasId(u.stored, u.pc.m) {
      u := Goes(c, s, u, Store(u.pc.m));
      assert u.pc.m in u.stored;
    }
    u := Goes(c, s, u, Ack);
  }

  lemma {:induction false} PublishesAll(c: Config, s: State, t: State) returns (u: State)
    requires Ahead(c, s, t) && t.conn.Connected? && |t.buffer| < c.capacity && t.pc.Publishing?
    ensures Ahead(c, s, u) && StreamMoved(t.(pc := Publishing([], t.pc.batch)), u)
    decreases |t.pc.todo|
  {
    u := t;
    if t.pc.todo != [] {
      u := PublishesOne(c, s, t);
      u := PublishesAll(c, s, u);
    }
  }

  /** The next block is read, and all its messages are published. */
  lemma PublishesBlock(c: Config, s: State, t: State) returns (u: State)
    requires Ahead(c, s, t) && Ready(t) && t.conn.Connected? && |t.buffer| < c.capacity && c.batchSize >= 1
    ensures Ahead(c, s, u) && Ready(u) && u.nextBlock == t.nextBlock + 1
    ensures StreamMoved(t.(nextBlock := u.nextBlock, cursor := u.cursor), u)
  {
    u := Begins(c, s, t);
    u := PublishesAll(c, s, u);
    u := Ends(c, s, u);
  }

  lemma {:induction false} PublishesUpTo(c: Config, s: State, t: State, block: nat) returns (u: State)
    requires Ahead(c, s, t) && Ready(t) && t.conn.Connected? && |t.buffer| < c.capacity && c.batchSize >= 1
    requires t.nextBlock <= block
    ensures Ahead(c, s, u) && Ready(u) && u.nextBlock == block
    ensures StreamMoved(t.(nextBlock := u.nextBlock, cursor := u.cursor), u)
    decreases block - t.nextBlock
  {
    u := t;
    if t.nextBlock < block {
      u := PublishesBlock(c, s, t);
      u := PublishesUpTo(c, s, u, block);
    }
  }

  // ----- The connection comes up -----

  /** The handler of a connection change, with nothing buffered. */
  lemma HandlesChange(c: Config, s: State, t: State) returns (u: State)
    requires Ahead(c, s, t) && t.pc.Changed? && t.conn.Connected? && t.buffer == []
    ensures Ahead(c, s, u) && u == t.(pc := Idle, paused := false, cursor := u.cursor)
  {
    u := Goes(c, s, t, HandleChange);
    u := Goes(c, s, u, Drain);
    u := Goes(c, s, u, Resume);
    u := Goes(c, s, u, Settle);
  }

  /** At the loop head, with nothing buffered, the connection comes up and the main loop sees to it. */
  lemma Connects(c: Config, s: State, t: State) returns (u: State)
    requires Ahead(c, s, t) && Selects(t) && t.buffer == []
    ensures Ahead(c, s, u) && Ready(u)
    ensures u == t.(conn := Connected, unseen := false, paused := false, cursor := u.cursor)
  {
    u := Goes(c, s, t, NatsUp);
    u := Goes(c, s, u, StateChange);
    u := HandlesChange(c, s, u);
  }

  // ----- Starting -----

  /** The first run starts, and the connection comes up. */
  lemma FirstRun(c: Config) returns (s: State)
    requires c.initial > 0
    ensures Ahead(c, Init(), s) && Ready(s) && s.conn.Connected? && s.start == s.nextBlock == c.initial
    ensures s == Load(c, Init()).(conn := Connected, cursor := s.cursor)
  {
    InitIsReachable(c);
    NowAhead(c, Init());
    s := Goes(c, Init(), Init(), Start);
    s := Connects(c, Init(), s);
  }

  /** A tick up to the rename, then a kill and a restart from the renamed file. */
  lemma RestartsFromCursor(c: Config, s: State, t: State) returns (u: State)
    requires Ahead(c, s, t) && Selects(t) && !t.unseen && t.disk != []
    ensures Ahead(c, s, u) && Ready(u) && u.disk == t.disk + [Some(t.cursor)] && u.start == u.nextBlock == t.cursor + 1
    ensures u.buffer == [] && u.clean == t.clean && u.stored == t.stored && u.sent == t.sent && u.acked == t.acked
    ensures u.loads == t.loads + [t.cursor]
  {
    u := Goes(c, s, t, Tick);
    u := Goes(c, s, u, Rename);
    u := Goes(c, s, u, Kill);
    u := Goes(c, s, u, Start);
  }

  /** A run ends before its first batch, its cursor persisted, and the next one comes up. */
  lemma SecondRun(c: Config) returns (s: State)
    requires c.initial > 0
    ensures Ahead(c, Init(), s) && Ready(s) && s.conn.Connected? && s.start == s.nextBlock == c.initial + 1
    ensures s.clean && s.buffer == [] && s.stored == [] && s.sent == {} && s.acked == {}
  {
    InitIsReachable(c);
    NowAhead(c, Init());
    s := Goes(c, Init(), Init(), Start);
    s := RestartsFromCursor(c, Init(), s);
    s := Connects(c, Init(), s);
  }

  // ----- Back to the loop head, whatever the process is doing -----

  /** Another state of the same run, which has not gone back. */
  ghost predicate SameRun(t: State, u: State) {
    u.start == t.start && u.nextBlock >= t.nextBlock && !u.pc.Down? && !ShuttingDown(u)
  }

  lemma DropsOffered(c: Config, s: State, t: State) returns (u: State)
    requires Ahead(c, s, t) && t.pc.Offered?
    ensures Ahead(c, s, u) && u.pc.Preempted? && SameRun(t, u)
  {
    u := Goes(c, s, t, NatsUp);
    u := Goes(c, s, u, Send);
    u := Goes(c, s, u, Cancel);
  }

  lemma LeavesBatch(c: Config, s: State, t: State) returns (u: State)
    requires Ahead(c, s, t) && InBatch(t)
    ensures Ahead(c, s, u) && (u.pc.Idle? || u.pc.Preempted?) && SameRun(t, u)
  {
    if t.pc.Offered? {
      u := DropsOffered(c, s, t);
    } else if Awaits(c, t) {
      u := Goes(c, s, t, Cancel);
    } else {
      u := LeavesPublishing(c, s, t);
    }
  }

  lemma LeavesPublishing(c: Config, s: State, t: State) returns (u: State)
    requires Ahead(c, s, t) && t.pc.Publishing? && !Full(c, t)
    ensures Ahead(c, s, u) && (u.pc.Idle? || u.pc.Preempted?) && SameRun(t, u)
  {
    if t.pc.todo == [] {
      u := Goes(c, s, t, EndBatch);
    } else {
      u := Goes(c, s, t, Offer);
      u := DropsOffered(c, s, u);
    }
  }

  lemma Settles(c: Config, s: State, t: State) returns (u: State)
    requires Ahead(c, s, t) && t.pc.Settling?
    ensures Ahead(c, s, u) && u.pc.Idle? && SameRun(t, u)
  {
    u := Goes(c, s, t, Settle);
  }

  lemma EndsFlush(c: Config, s: State, t: State) returns (u: State)
    requires Ahead(c, s, t) && t.pc.Flushed?
    ensures Ahead(c, s, u) && u.pc.Idle? && SameRun(t, u)
  {
    u := Goes(c, s, t, Resume);
    u := Settles(c, s, u);
  }

  lemma FlushFails(c: Config, s: State, t: State) returns (u: State)
    requires Ahead(c, s, t) && t.pc.Flushing?
    ensures Ahead(c, s, u) && u.pc.Flushed? && SameRun(t, u)
  {
    u := Goes(c, s, t, FlushNoAck);
  }

  lemma GivesUpFlush(c: Config, s: State, t: State) returns (u: State)
    requires Ahead(c, s, t) && (t.pc.Draining? || t.pc.Flushing? || t.pc.Flushed?)
    ensures Ahead(c, s, u) && u.pc.Idle? && SameRun(t, u)
  {
    u := t;
    if u.pc.Draining? {
      u := Goes(c, s, u, Drain);
    }
    if u.pc.Flushing? {
      u := FlushFails(c, s, u);
    }
    u := EndsFlush(c, s, u);
  }

  lemma LeavesChange(c: Config, s: State, t: State) returns (u: State)
    requires Ahead(c, s, t) && t.pc.Changed?
    ensures Ahead(c, s, u) && u.pc.Idle? && SameRun(t, u)
  {
    u := Goes(c, s, t, HandleChange);
    if u.pc.Draining? {
      u := GivesUpFlush(c, s, u);
    } else {
      u := Settles(c, s, u);
    }
  }

  lemma EndsTick(c: Config, s: State, t: State) returns (u: State)
    requires Ahead(c, s, t) && t.pc.Resuming?
    ensures Ahead(c, s, u) && u.pc.Idle? && SameRun(t, u)
  {
    u := LooksAtBuffer(c, s, t);
    if u.pc.Draining? {
      u := GivesUpFlush(c, s, u);
    }
  }

  lemma LooksAtBuffer(c: Config, s: State, t: State) returns (u: State)
    requires Ahead(c, s, t) && t.pc.Resuming?
    ensures Ahead(c, s, u) && (u.pc.Idle? || u.pc.Draining?) && SameRun(t, u)
  {
    u := Goes(c, s, t, TryResume);
  }

  lemma EndsPersist(c: Config, s: State, t: State) returns (u: State)
    requires Ahead(c, s, t) && (t.pc.Persisting? || t.pc.Syncing?) && t.pc.persister.Periodic? && t.disk != []
    ensures Ahead(c, s, u) && u.pc.Resuming? && SameRun(t, u)
  {
    if t.pc.Persisting? {
      u := Goes(c, s, t, PersistFailed);
    } else {
      u := Goes(c, s, t, SyncDirectory(false));
    }
  }

  /** Unless it is shutting down, the process can always come back to the main loop. */
  lemma ComesToLoop(c: Config, s: State, t: State) returns (u: State)
    requires Ahead(c, s, t) && !t.pc.Down? && !ShuttingDown(t) && t.disk != []
    ensures Ahead(c, s, u) && (u.pc.Idle? || u.pc.Preempted?) && SameRun(t, u)
  {
    match t.pc
    case Idle => u := t;
    case Preempted => u := t;
    case Publishing(_, _) => u := LeavesBatch(c, s, t);
    case Offered(_, _, _) => u := LeavesBatch(c, s, t);
    case InFlight(_, _, _) => u := LeavesBatch(c, s, t);
    case Changed => u := LeavesChange(c, s, t);
    case Draining(_) => u := GivesUpFlush(c, s, t);
    case Flushing(_, _) => u := GivesUpFlush(c, s, t);
    case Flushed(_, _) => u := EndsFlush(c, s, t);
    case Settling(_) => u := Settles(c, s, t);
    case Resuming => u := EndsTick(c, s, t);
    case Persisting(_, _) =>
      u := EndsPersist(c, s, t);
      u := EndsTick(c, s, u);
    case Syncing(_) =>
      u := EndsPersist(c, s, t);
      u := EndsTick(c, s, u);
  }

  // ----- A flush that succeeds -----

  lemma FlushesOne(c: Config, s: State, t: State) returns (u: State)
    requires DistinctMessages(c) && Ahead(c, s, t) && t.pc.Flushing?
    ensures t.pc.todo != [] && Ahead(c, s, u) && StreamMoved(t.(pc := u.pc), u)
    ensures u.pc == if t.pc.todo[1..] == [] then Flushed(t.pc.flusher, true) else Flushing(t.pc.flusher, t.pc.todo[1..])
  {
    ReachableInv(c, t);
    u := StoresHead(c, s, t);
    u := Goes(c, s, u, FlushAck);
  }

  lemma StoresHead(c: Config, s: State, t: State) returns (u: State)
    requires Ahead(c, s, t) && t.pc.Flushing? && PcInv(c, t)
    ensures Ahead(c, s, u) && u == t.(stored := u.stored) && HasId(u.stored, t.pc.todo[0])
  {
    u := t;
    if !HasId(u.stored, u.pc.todo[0]) {
      u := Goes(c, s, u, Store(u.pc.todo[0]));
      assert u.pc.todo[0] in u.stored;
    }
  }

  lemma {:induction false} FlushesAll(c: Config, s: State, t: State) returns (u: State)
    requires DistinctMessages(c) && Ahead(c, s, t) && t.pc.Flushing?
    ensures Ahead(c, s, u) && StreamMoved(t.(pc := u.pc), u) && u.pc == Flushed(t.pc.flusher, true)
    decreases |t.pc.todo|
  {
    u := FlushesOne(c, s, t);
    if u.pc.Flushing? {
      u := FlushesAll(c, s, u);
    }
  }

  /** From the main loop, the connection comes up again and the buffer is flushed. */
  lemma SeesChange(c: Config, s: State, t: State) returns (u: State)
    requires Ahead(c, s, t) && (t.pc.Idle? || t.pc.Preempted?)
    ensures Ahead(c, s, u) && u.pc == Draining(OnChange) && u.conn.Connected? && !u.unseen && SameRun(t, u)
  {
    u := SelectsAgain(c, s, t);
    u := Goes(c, s, u, StateChange);
    u := Goes(c, s, u, HandleChange);
  }

  lemma SelectsAgain(c: Config, s: State, t: State) returns (u: State)
    requires Ahead(c, s, t) && (t.pc.Idle? || t.pc.Preempted?)
    ensures Ahead(c, s, u) && u == t.(needsDelay := u.needsDelay, conn := Connected, unseen := true)
    ensures Selects(u) || u.pc.Preempted?
  {
    u := t;
    if u.pc.Idle? && u.needsDelay {
      u := Goes(c, s, u, DelayOver);
    }
    u := Goes(c, s, u, NatsUp);
  }

  lemma DrainsBuffer(c: Config, s: State, t: State) returns (u: State)
    requires DistinctMessages(c) && Ahead(c, s, t) && t.pc == Draining(OnChange) && t.conn.Connected? && !t.unseen
    ensures Ahead(c, s, u) && u.pc == Flushed(OnChange, true) && u.conn.Connected? && !u.unseen && SameRun(t, u)
  {
    u := Goes(c, s, t, Drain);
    if u.pc.Flushing? {
      u := FlushesRest(c, s, u);
    }
  }

  lemma FlushesRest(c: Config, s: State, t: State) returns (u: State)
    requires DistinctMessages(c) && Ahead(c, s, t) && t.pc.Flushing?
    ensures Ahead(c, s, u) && u.pc == Flushed(t.pc.flusher, true) && u.conn == t.conn && u.unseen == t.unseen &&
        SameRun(t, u)
  {
    u := FlushesAll(c, s, t);
  }

  lemma IsReady(c: Config, s: State, t: State) returns (u: State)
    requires DistinctMessages(c) && Ahead(c, s, t) && t.pc == Flushed(OnChange, true) && t.conn.Connected? && !t.unseen
    ensures Ahead(c, s, u) && Ready(u) && u.conn.Connected? && u.buffer == [] && SameRun(t, u)
  {
    ReachableInv(c, t);
    u := Goes(c, s, t, Resume);
    u := Goes(c, s, u, Settle);
    if u.needsDelay {
      u := Goes(c, s, u, DelayOver);
    }
  }

  /** Unless it is shutting down, the process can empty its buffer and read on, without a restart. */
  lemma Recovers(c: Config, s: State, t: State) returns (u: State)
    requires DistinctMessages(c) && Ahead(c, s, t) && !t.pc.Down? && !ShuttingDown(t)
    ensures Ahead(c, s, u) && Ready(u) && u.conn.Connected? && u.buffer == [] && SameRun(t, u)
  {
    ReachableInv(c, t);
    u := ComesToLoop(c, s, t);
    u := SeesChange(c, s, u);
    u := DrainsBuffer(c, s, u);
    u := IsReady(c, s, u);
  }
}

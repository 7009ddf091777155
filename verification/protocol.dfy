/**
 The ingestor as a state machine: one process that can be killed at any step, the NATS connection,
 the deduplicating stream and the state file. Steps are labelled; a label and a state determine the
 next state. Everything between two await points of the source is one step.
 */
module Protocol {
  import opened Wrappers
  import opened Events
  import opened Spans

  type Message = TransactionMessage

  datatype Connection = Connected | Disconnected

  datatype Config = Config(
    initial: nat,                 // configured initial block, 0 for none
    batchSize: nat,
    capacity: nat,                // buffer capacity after clamping
    canon: nat -> seq<Message>)   // the messages of each block

  /** Who is flushing the buffer: the state-change branch or the periodic tick. */
  datatype Flusher = OnChange | OnTick

  /** Who is persisting the cursor: the periodic tick or the shutdown path. */
  datatype Persister = Periodic | Final

  /** The range being published: last block of the batch and the head of the chain when it was read. */
  datatype Batch = Batch(last: int, latest: nat)

  datatype Pc =
    | Down                                                  // no process
    | Idle                                                  // top of the main loop
    | Publishing(todo: seq<Message>, batch: Batch)          // branch 4, between two messages
    | Offered(m: Message, todo: seq<Message>, batch: Batch) // branch 4, entering `publish`
    | InFlight(m: Message, todo: seq<Message>, batch: Batch) // branch 4, waiting for an acknowledgement
    | Preempted                                             // branch 4 dropped, one of branches 1 to 3 about to run
    | Changed                                               // branch 2, change seen, state not yet read
    | Draining(flusher: Flusher)                            // entering `flush_buffer`
    | Flushing(flusher: Flusher, todo: seq<Message>)        // the buffer is drained, the head of todo is in flight
    | Flushed(flusher: Flusher, ok: bool)
    | Settling(catchUp: bool)                               // about to catch the cursor up, if the buffer is empty
    | Persisting(persister: Persister, value: nat)          // branch 3 or shutdown, temporary file being written
    | Syncing(persister: Persister)                         // renamed, directory not yet synced
    | Resuming                                              // branch 3, entering `try_resume_if_connected`

  datatype State = State(
    pc: Pc,
    start: nat,                // first block of this run
    nextBlock: nat,
    cursor: nat,               // in-memory last synced block
    buffer: seq<Message>,
    paused: bool,
    needsDelay: bool,
    conn: Connection,          // watch channel: value and unseen-change flag of the main loop's receiver
    unseen: bool,
    disk: seq<Option<nat>>,    // versions of the state file: oldest that may survive a power loss .. visible one
    sent: set<Message>,        // handed to the network at some time
    stored: seq<Message>,      // the stream
    acked: set<Message>,       // acknowledged to some run
    rejected: nat,             // messages dropped by a full buffer
    clean: bool,               // no publish has failed or met a disconnect
    runs: nat,
    loads: seq<nat>)           // cursors read from the file, by the runs that found one

  datatype Step =
    // the environment
    | NatsUp | NatsDown | Store(m: Message)
    | Kill | PowerLoss(version: nat) | Start
    // the main loop
    | DelayOver | NothingNew | Shutdown
    | BeginBatch(latest: nat) | Offer | Send | Ack | NoAck | EndBatch | Cancel
    | StateChange | HandleChange
    | Tick | Rename | PersistFailed | SyncDirectory(ok: bool) | TryResume
    | Drain | FlushAck | FlushNoAck | Resume | Settle

  /** The stream already holds a message with this deduplication id. */
  ghost predicate HasId(stored: seq<Message>, m: Message) {
    exists n :: n in stored && n.Checksum() == m.Checksum()
  }

  /** `buffer.is_full()` */
  ghost predicate Full(c: Config, s: State) {
    |s.buffer| >= c.capacity
  }

  ghost function LastBlock(c: Config, s: State, latest: nat): int {
    Min(s.nextBlock + c.batchSize - 1, latest)
  }

  ghost function Visible(disk: seq<Option<nat>>): Option<nat>
    requires disk != []
  {
    disk[|disk| - 1]
  }

  /** On the shutdown path, out of the main loop. */
  ghost predicate ShuttingDown(s: State) {
    (s.pc.Persisting? || s.pc.Syncing?) && s.pc.persister.Final?
  }

  /** At the head of the loop, polling the biased select: branches 3 and 4 run only when no change is pending. */
  ghost predicate Selects(s: State) {
    s.pc.Idle? && !s.needsDelay
  }

  /** The points inside a batch where branch 4 waits, for room in the buffer or for an acknowledgement. */
  ghost predicate Awaits(c: Config, s: State) {
    (s.pc.Publishing? && Full(c, s)) || s.pc.InFlight?
  }

  ghost predicate Enabled(c: Config, s: State, step: Step) {
    match step
    case NatsUp => !s.pc.Down?
    case NatsDown => !s.pc.Down?
    case Store(m) => m in s.sent && !HasId(s.stored, m)
    case Kill => !s.pc.Down?
    case PowerLoss(version) => version < |s.disk|
    case Start => s.pc.Down? && s.disk != [] && (Visible(s.disk).Some? || c.initial > 0)
    case DelayOver => s.pc.Idle? && s.needsDelay
    case NothingNew => Selects(s) && !s.unseen && !s.paused
    case Shutdown => s.pc.Idle? || s.pc.Preempted?
    case BeginBatch(latest) => Selects(s) && !s.unseen && !s.paused && s.nextBlock <= latest
    case Offer => s.pc.Publishing? && s.pc.todo != [] && !Full(c, s)
    case Send => s.pc.Offered?
    case Ack => s.pc.InFlight? && HasId(s.stored, s.pc.m)
    case NoAck => s.pc.InFlight?
    case EndBatch => s.pc.Publishing? && s.pc.todo == []
    case Cancel => Awaits(c, s)
    case StateChange => (Selects(s) || s.pc.Preempted?) && s.unseen
    case HandleChange => s.pc.Changed?
    case Tick => (Selects(s) || s.pc.Preempted?) && !s.unseen
    case Rename => s.pc.Persisting?
    case PersistFailed => s.pc.Persisting?
    case SyncDirectory(ok) => s.pc.Syncing? && s.disk != []
    case TryResume => s.pc.Resuming?
    case Drain => s.pc.Draining?
    case FlushAck => s.pc.Flushing? && s.pc.todo != [] && HasId(s.stored, s.pc.todo[0])
    case FlushNoAck => s.pc.Flushing?
    case Resume => s.pc.Flushed?
    case Settle => s.pc.Settling?
  }

  /** `MessageBuffer::push` as the publisher uses it: a full buffer drops the message. */
  ghost function Push(c: Config, s: State, m: Message): State {
    if Full(c, s) then s.(rejected := s.rejected + 1) else s.(buffer := s.buffer + [m])
  }

  /** Everything held in memory is gone. */
  ghost function Stop(s: State): State {
    s.(pc := Down, buffer := [], paused := false, needsDelay := false, conn := Disconnected, unseen := false)
  }

  /** `StateStore::load` followed by `determine_start_block`. */
  ghost function Load(c: Config, s: State): State
    requires s.disk != []
  {
    var started := s.(pc := Idle, buffer := [], paused := false, needsDelay := false,
                    conn := Disconnected, unseen := false, runs := s.runs + 1);
    match Visible(s.disk)
    case Some(last) =>
      started.(cursor := last, nextBlock := last + 1, start := last + 1,
             loads := s.loads + [last])
    case None =>
      started.(cursor := c.initial, nextBlock := c.initial, start := c.initial)
  }

  ghost function AfterPersist(s: State, who: Persister): State {
    if who.Periodic? then s.(pc := Resuming) else Stop(s)
  }

  ghost function Apply(c: Config, s: State, step: Step): State
    requires Enabled(c, s, step)
  {
    match step
    case NatsUp => s.(conn := Connected, unseen := true)
    case NatsDown => s.(conn := Disconnected, unseen := true)
    case Store(m) => s.(stored := s.stored + [m])
    case Kill => Stop(s)
    case PowerLoss(version) => Stop(s).(disk := [s.disk[version]])
    case Start => Load(c, s)
    case DelayOver => s.(needsDelay := false)
    case NothingNew => s.(needsDelay := true)
    case Shutdown => s.(pc := Persisting(Final, s.cursor))
    case BeginBatch(latest) =>
      var last := LastBlock(c, s, latest);
      s.(pc := Publishing(Span(c.canon, s.nextBlock, last + 1), Batch(last, latest)))
    case Offer => s.(pc := Offered(s.pc.todo[0], s.pc.todo[1..], s.pc.batch))
    case Send =>
      var next := Publishing(s.pc.todo, s.pc.batch);
      if s.conn.Connected?
      then s.(pc := InFlight(s.pc.m, s.pc.todo, s.pc.batch), sent := s.sent + {s.pc.m})
      else Push(c, s.(paused := true, clean := false, pc := next), s.pc.m)
    case Ack => s.(pc := Publishing(s.pc.todo, s.pc.batch), acked := s.acked + {s.pc.m})
    case NoAck => Push(c, s.(paused := true, clean := false, pc := Publishing(s.pc.todo, s.pc.batch)), s.pc.m)
    case EndBatch =>
      var Batch(last, latest) := s.pc.batch;
      var t := if last >= s.nextBlock
               then s.(nextBlock := last + 1, cursor := if s.buffer == [] then Max(s.cursor, last) else s.cursor)
               else s;
      t.(pc := Idle, needsDelay := latest - last <= 1)
    case Cancel => s.(pc := Preempted)
    case StateChange => s.(pc := Changed, unseen := false)
    case HandleChange =>
      if s.conn.Connected? then s.(pc := Draining(OnChange)) else s.(paused := true, pc := Settling(true))
    case Tick => s.(pc := Persisting(Periodic, s.cursor))
    case Rename => s.(disk := s.disk + [Some(s.pc.value)], pc := Syncing(s.pc.persister))
    case PersistFailed => AfterPersist(s, s.pc.persister)
    case SyncDirectory(ok) => AfterPersist(if ok then s.(disk := [Visible(s.disk)]) else s, s.pc.persister)
    case TryResume =>
      if s.conn.Connected? && s.buffer != [] then s.(pc := Draining(OnTick)) else s.(pc := Idle)
    case Drain =>
      if s.buffer == [] then s.(pc := Flushed(s.pc.flusher, true))
      else s.(pc := Flushing(s.pc.flusher, s.buffer), buffer := [], sent := s.sent + {s.buffer[0]})
    case FlushAck =>
      var todo := s.pc.todo[1..];
      s.(acked := s.acked + {s.pc.todo[0]},
         sent := if todo == [] then s.sent else s.sent + {todo[0]},
         pc := if todo == [] then Flushed(s.pc.flusher, true) else Flushing(s.pc.flusher, todo))
    case FlushNoAck => s.(buffer := s.pc.todo + s.buffer, clean := false, pc := Flushed(s.pc.flusher, false))
    case Resume =>
      if s.pc.flusher.OnChange? || s.pc.ok then s.(paused := false, pc := Settling(true)) else s.(pc := Settling(false))
    case Settle =>
      s.(cursor := if s.pc.catchUp && s.buffer == [] && s.nextBlock > 0 then Max(s.cursor, s.nextBlock - 1)
          else s.cursor,
         pc := Idle)
  }

  /** No process has run yet: no state file, nothing on the stream. */
  ghost function Init(): State {
    State(Down, 0, 0, 0, [], false, false, Disconnected, false, [None], {}, [], {}, 0, true, 0, [])
  }

  // ----- Runs -----

  ghost predicate Legal(c: Config, s: State, steps: seq<Step>)
    decreases |steps|
  {
    steps == [] || (Enabled(c, s, steps[0]) && Legal(c, Apply(c, s, steps[0]), steps[1..]))
  }

  ghost function Exec(c: Config, s: State, steps: seq<Step>): State
    requires Legal(c, s, steps)
    decreases |steps|
  {
    if steps == [] then s else Exec(c, Apply(c, s, steps[0]), steps[1..])
  }

  /** Reached from the initial state by some history of runs, crashes and restarts. */
  ghost predicate Reachable(c: Config, s: State) {
    exists steps :: Legal(c, Init(), steps) && Exec(c, Init(), steps) == s
  }

  lemma {:induction false} LegalAppend(c: Config, s: State, steps: seq<Step>, step: Step)
    requires Legal(c, s, steps) && Enabled(c, Exec(c, s, steps), step)
    ensures Legal(c, s, steps + [step])
    ensures Exec(c, s, steps + [step]) == Apply(c, Exec(c, s, steps), step)
    decreases |steps|
  {
    if steps == [] {
      assert ([] + [step])[1..] == [];
    } else {
      assert (steps + [step])[1..] == steps[1..] + [step];
      LegalAppend(c, Apply(c, s, steps[0]), steps[1..], step);
    }
  }

  lemma ReachableStep(c: Config, s: State, step: Step)
    requires Reachable(c, s) && Enabled(c, s, step)
    ensures Reachable(c, Apply(c, s, step))
  {
    var steps :| Legal(c, Init(), steps) && Exec(c, Init(), steps) == s;
    LegalAppend(c, Init(), steps, step);
  }

  lemma InitIsReachable(c: Config)
    ensures Reachable(c, Init())
  {
    assert Legal(c, Init(), []) && Exec(c, Init(), []) == Init();
  }

  /** A transaction has one message on the chain, listed once. */
  ghost predicate DistinctMessages(c: Config) {
    && (forall a: nat, b: nat, m, n :: m in c.canon(a) && n in c.canon(b) && m.Checksum() == n.Checksum() ==>
        a == b && m == n)
    && (forall b: nat, i, j :: 0 <= i < j < |c.canon(b)| ==> c.canon(b)[i] != c.canon(b)[j])
  }
}

/**
 The main loop, with the objects it runs: every state that it passes through is a state of the protocol,
 so the guarantees proved there hold of its fields and of the state file.
 */
module Running {
  import opened Wrappers
  import opened Spans
  import opened Extraction
  import opened Protocol
  import opened Safety
  import opened Reader
  import opened Outside
  import opened Publishing
  import opened Storage
  import opened Turns

  datatype NoxError = NoInitialBlock

  /** How an iteration of the main loop ended. */
  datatype Iteration = Continues | Exits

  /** On a well-formed chain a transaction has one message, as the protocol assumes. */
  lemma ChainGivesDistinctMessages(c: Config, chainId: nat, parse: Parser, chain: nat -> seq<Log>)
    requires WellFormed(parse, chain) && c.canon == BlockMessages(chainId, parse, chain)
    ensures DistinctMessages(c)
  {
    forall a: nat, b: nat, m, n | m in c.canon(a) && n in c.canon(b) && m.Checksum() == n.Checksum()
      ensures a == b && m == n
    {
      ChecksumsAreUnique(chainId, parse, chain, a, b, m, n);
    }
    forall b: nat, i, j | 0 <= i < j < |c.canon(b)|
      ensures c.canon(b)[i] != c.canon(b)[j]
    {
      BlockMessagesAreDistinct(chainId, parse, chain, b);
    }
  }

  /** First block of a run: after the last one processed, or the configured one. */
  function DetermineStartBlock(lastSynced: u64, fromFile: bool): Result<u64, NoxError>
    requires lastSynced < U64_MAX
  {
    if lastSynced == 0 && !fromFile then Err(NoInitialBlock)
    else if fromFile then Ok(lastSynced + 1)
    else Ok(lastSynced)
  }

  ghost predicate Bounded(cursors: seq<Option<nat>>, horizon: nat) {
    forall i :: 0 <= i < |cursors| && cursors[i].Some? ==> cursors[i].value <= horizon
  }

  /** Replacing the file by a new cursor does to the protocol's versions what its steps do. */
  lemma CursorsReplaced(codec: Codec, horizon: nat, before: seq<Option<FileImage>>, image: Option<FileImage>,
      versions: seq<Option<FileImage>>, value: nat)
    requires Replacing(before, image, versions) && CursorOf(codec, image) == Some(value)
    requires Bounded(Cursors(codec, before), horizon) && value <= horizon
    ensures var old_, new_ := Cursors(codec, before), Cursors(codec, versions);
            (new_ == old_ || new_ == old_ + [Some(value)] || new_ == [Some(value)]) && Bounded(new_, horizon)
  {
  }

  lemma NextMessage(messages: seq<Message>, i: nat)
    requires i < |messages|
    ensures messages[i..] != [] && messages[i..][0] == messages[i] && messages[i..][1..] == messages[i + 1..]
  {
  }

  /** The versions of the state file are whole, and are those of the protocol state. */
  ghost predicate OnDisk(world: World, fs: FileSystem, codec: Codec, chainId: nat, horizon: nat)
    reads world, fs
  {
    && world.Valid() && fs.Valid() && RoundTrips(codec) && AllWhole(codec, chainId, fs.disk.versions)
    && world.sys.disk == Cursors(codec, fs.disk.versions)
    && Bounded(world.sys.disk, horizon)
  }

  class Application {
    const world: World
    const reader: BlockReader
    const publisher: Publisher
    const store: StateStore
    const horizon: u64 // the head of the chain stays at or below this block
    var nextBlock: u64
    var needsDelay: bool

    constructor (world: World, reader: BlockReader, publisher: Publisher, store: StateStore, horizon: u64,
        nextBlock: u64)
      ensures this.world == world && this.reader == reader && this.publisher == publisher && this.store == store
      ensures this.horizon == horizon && this.nextBlock == nextBlock && !needsDelay && fresh(this)
    {
      this.world := world;
      this.reader := reader;
      this.publisher := publisher;
      this.store := store;
      this.horizon := horizon;
      this.nextBlock := nextBlock;
      needsDelay := false;
    }

    /** The parts belong together, and block numbers stay within 64 bits; no step changes this. */
    ghost predicate Fits() {
      && reader.Valid()
      && world.cfg.canon == BlockMessages(reader.chainId, reader.parse, reader.chain) &&
          world.cfg.batchSize == reader.batchSize
      && world.cfg.initial <= horizon && horizon + reader.batchSize <= U64_MAX && horizon < U64_MAX
    }

    /** The fields are those of the protocol state. */
    ghost predicate Valid()
      reads this, world, publisher, publisher.buffer, store, store.fs
    {
      && publisher.world == world && publisher.Valid() && OnDisk(world, store.fs, store.codec, store.chainId, horizon)
      && world.sys.nextBlock == nextBlock && world.sys.cursor == store.lastSynced && world.sys.needsDelay == needsDelay
      && nextBlock <= horizon + 1 && store.lastSynced <= horizon
    }

    ghost function Setup(): Setting {
      Setting(world.cfg.canon, reader.batchSize, store.codec, store.chainId)
    }

    /** The fields of this object and its parts, the state file, and what the environment has decided. */
    ghost function Now(): Fields
      reads this, world`record, publisher, publisher.buffer, store, store.fs
    {
      Fields(nextBlock, store.lastSynced, needsDelay, publisher.paused, publisher.buffer.buffer,
             store.fs.disk.versions, store.fs.trouble, world.record)
    }

    /** The select is about to run one of branches 1 to 3, from the loop head or instead of branch 4. */
    ghost predicate AtSelect()
      reads world
    {
      Selects(world.sys) || world.sys.pc.Preempted?
    }

    ghost predicate OnFile()
      reads world, store.fs
    {
      OnDisk(world, store.fs, store.codec, store.chainId, horizon)
    }

    /** An await point: the environment may move, and nothing else does. */
    method Wait()
      requires Valid()
      modifies world`conn, world`unseen, world`sys
      ensures Valid() && world.sys.pc == old(world.sys.pc) && Now() == old(Now())
    {
      world.Await();
    }

    /** An await point of branch 4, which may be dropped there. */
    method Pause() returns (polled: bool)
      requires Valid()
      modifies world`conn, world`unseen, world`sys, world`patience, world`record
      ensures Valid() && world.sys.pc == old(world.sys.pc)
      ensures Now() == if polled then old(Now()) else Cut(old(Now()))
      ensures polled ==> !world.unseen && world.patience < old(world.patience)
    {
      polled := world.Waits();
    }

    // ----- Branch 2: the connection has changed -----

    /** The cursor catches up with everything read, if nothing is buffered. */
    method CatchUp()
      requires Fits() && Valid() && world.sys.pc == Settling(true)
      modifies world`sys, store
      ensures Valid() && world.sys.pc.Idle?
      ensures Now() == old(Now()).(cursor := CaughtUp(old(Now())))
    {
      assert nextBlock >= 1 by {
        ReachableInv(world.cfg, world.sys);
      }
      if publisher.buffer.buffer == [] && nextBlock > 0 {
        store.Update(nextBlock - 1);
      }
      world.Settles();
    }

    /** The change is taken note of, and the publisher deals with it; false if the process is killed in the flush. */
    method NoteChange() returns (alive: bool)
      requires Valid() && AtSelect() && world.unseen
      modifies world, publisher, publisher.buffer
      ensures !alive ==>
        OnFile() && world.sys.pc.Down? && old(world.conn).Connected? && KilledInFlush(old(Now()), Now())
      ensures alive ==> Valid() && world.sys.pc == Settling(true)
      ensures alive ==> ChangeNoted(old(Now()), Now(), old(world.conn))
    {
      world.SeeChange();
      alive := publisher.HandleStateChange();
    }

    /**
     Connected, the buffer is flushed until a message is refused, and the reader resumes; disconnected, it pauses.
     The cursor catches up if the buffer is empty. The process may be killed in the flush.
     */
    method HandleChange() returns (i: Iteration)
      requires Fits() && Valid() && AtSelect() && world.unseen
      modifies world, publisher, publisher.buffer, store
      ensures i.Exits? ==> OnFile() && world.sys.pc.Down?
      ensures i.Continues? ==> Valid() && world.sys.pc.Idle?
      ensures BranchDone(Setup(), old(Now()), Now(), Branch.Change(old(world.conn)), i.Exits?)
    {
      var alive := NoteChange();
      if !alive {
        return Exits;
      }
      CatchUp();
      return Continues;
    }

    // ----- Branch 3: the periodic tick -----

    /** The state file is replaced by the cursor, or left alone, as the file system's operations succeed. */
    method WriteFile(updatedAt: u64) returns (r: Persisted)
      requires store.Valid() && store.lastSynced <= horizon &&
          Bounded(Cursors(store.codec, store.fs.disk.versions), horizon)
      modifies store.fs
      ensures store.Valid()
      ensures Turns.Persisting(Setup(), old(Now()), Now(), updatedAt, r)
      ensures var before, after := old(Cursors(store.codec, store.fs.disk.versions)),
          Cursors(store.codec, store.fs.disk.versions);
              && (after == before || after == before + [Some(store.lastSynced)] || after == [Some(store.lastSynced)])
              && Bounded(after, horizon)
    {
      ghost var before := store.fs.disk.versions;
      r := store.Persist(updatedAt);
      CursorsReplaced(store.codec, horizon, before, store.Image(updatedAt), store.fs.disk.versions, store.lastSynced);
    }

    /** The state file is replaced by the cursor, or left alone, and so is the protocol's. */
    method WriteCursor(persister: Persister, updatedAt: u64) returns (r: Persisted)
      requires OnFile()
      requires world.sys.pc == Protocol.Persisting(persister, store.lastSynced) && store.lastSynced <= horizon
      modifies world`conn, world`unseen, world`sys, store.fs
      ensures OnFile()
      ensures ShutDownDone(Setup(), old(Now()), Now(), updatedAt, r)
      ensures world.sys == AfterPersist(old(world.sys).(disk := world.sys.disk), persister)
    {
      r := WriteFile(updatedAt);
      world.EndsPersist(persister, Cursors(store.codec, store.fs.disk.versions));
    }

    /**
     Persists the cursor. Shutdown ends the process whatever comes of it; the periodic persist goes on,
     unless the process ends in it.
     */
    method PersistCursor(persister: Persister, updatedAt: u64) returns (r: Persisted)
      requires Fits() && Valid() && (world.sys.pc.Idle? || world.sys.pc.Preempted?)
      requires persister.Periodic? ==> AtSelect() && !world.unseen
      modifies world`conn, world`unseen, world`sys, store.fs
      ensures OnFile()
      ensures ShutDownDone(Setup(), old(Now()), Now(), updatedAt, r)
      ensures persister.Periodic? ==> Valid() && world.sys.pc.Resuming?
      ensures persister.Final? ==> world.sys.pc.Down?
    {
      world.BeginsPersist(persister);
      Wait();
      r := WriteCursor(persister, updatedAt);
    }

    /** The attempt to drain the buffer, with what it means for pause flag and cursor. */
    method Retry() returns (i: Iteration, ghost conn: Connection)
      requires Fits() && Valid() && world.sys.pc.Resuming?
      modifies world, publisher, publisher.buffer, store
      ensures conn == old(world.conn)
      ensures i.Continues? ==> Valid() && world.sys.pc.Idle? && Retried(old(Now()), Now(), conn)
      ensures i.Exits? ==> OnFile() && world.sys.pc.Down? && KilledInFlush(old(Now()), Now())
    {
      conn := world.conn;
      var resumed := publisher.TryResumeIfConnected();
      if resumed.None? {
        return Exits, conn;
      }
      match resumed.value {
        case Ok(true) => CatchUp();
        case Ok(false) =>
        case Err(_) => world.Settles();
      }
      return Continues, conn;
    }

    /**
     The cursor is persisted, whatever comes of it; then a non-empty buffer is flushed if there is a connection,
     and if everything has gone out the reader resumes and the cursor catches up.
     */
    method HandleTick(updatedAt: u64) returns (i: Iteration, ghost branch: Branch)
      requires Fits() && Valid() && AtSelect() && !world.unseen
      modifies world, publisher, publisher.buffer, store, store.fs
      ensures OnFile()
      ensures i.Continues? ==> Valid() && world.sys.pc.Idle?
      ensures i.Exits? ==> world.sys.pc.Down?
      ensures branch.Tick? && branch.updatedAt == updatedAt
      ensures BranchDone(Setup(), old(Now()), Now(), branch, i.Exits?)
    {
      var r := PersistCursor(Periodic, updatedAt);
      if r.Abandoned? {
        branch := Branch.Tick(updatedAt, r, world.conn);
        world.Dies();
        return Exits, branch;
      }
      ghost var conn;
      i, conn := Retry();
      branch := Branch.Tick(updatedAt, r, conn);
    }

    // ----- Branch 4: the next batch; it may be dropped wherever it waits -----

    /** Returns false if the branch is dropped while the reader is paused. */
    method WaitUntilUnpaused() returns (unpaused: bool)
      requires Fits() && Valid() && world.sys.pc.Idle?
      modifies world`conn, world`unseen, world`sys, world`patience, world`record
      ensures Valid() && world.sys.pc.Idle? && unpaused == !publisher.paused
      ensures Now() == if unpaused then old(Now()) else Cut(old(Now()))
    {
      while publisher.paused
        invariant Valid() && world.sys.pc.Idle? && Now() == old(Now())
        decreases world.patience
      {
        var polled := Pause();
        if !polled {
          return false;
        }
      }
      return true;
    }

    /** Returns false if the branch is dropped, or shutdown is seen, while the buffer is full. */
    method WaitForRoom(ghost todo: seq<Message>, ghost batch: Protocol.Batch) returns (room: bool)
      requires Fits() && Valid() && world.sys.pc == Protocol.Publishing(todo, batch)
      modifies world`conn, world`unseen, world`sys, world`patience, world`record
      ensures Valid() && world.sys.pc == Protocol.Publishing(todo, batch) && room == !publisher.buffer.IsFull()
      ensures Now() == if room then old(Now()) else Cut(old(Now()))
    {
      while publisher.buffer.IsFull()
        invariant Valid() && world.sys.pc == Protocol.Publishing(todo, batch) && Now() == old(Now())
        decreases world.patience
      {
        var polled := Pause();
        if !polled {
          return false;
        }
      }
      return true;
    }

    /** Publishes a message for which there is room. */
    method OfferAndPublish(message: Message, ghost todo: seq<Message>, ghost batch: Protocol.Batch)
      returns (done: bool, ghost fate: bool)
      requires Valid() && world.sys.pc == Protocol.Publishing(todo, batch) && todo != [] && todo[0] == message
      requires !publisher.buffer.IsFull()
      modifies world, publisher, publisher.buffer
      ensures Valid() && (if done then world.sys.pc == Protocol.Publishing(todo[1..], batch)
          else world.sys.pc.InFlight?)
      ensures if done then Publishes(old(Now()), Now(), [message], [fate]) else Now() == Cut(old(Now()))
    {
      ghost var acknowledged := world.record.log;
      world.Offers();
      var published := publisher.Publish(message);
      done := published.Returned?;
      fate := world.record.log != acknowledged;
      OneFate(message, fate);
    }

    /** One message of the batch; false if the branch was dropped. */
    method PublishOne(message: Message, ghost todo: seq<Message>, ghost batch: Protocol.Batch)
      returns (done: bool, ghost fate: bool)
      requires Fits() && Valid() && world.sys.pc == Protocol.Publishing(todo, batch) && todo != [] && todo[0] == message
      modifies world, publisher, publisher.buffer
      ensures Valid() && world.sys.pc == if done then Protocol.Publishing(todo[1..], batch) else Preempted
      ensures if done then Publishes(old(Now()), Now(), [message], [fate]) else Now() == Cut(old(Now()))
    {
      fate := true;
      done := WaitForRoom(todo, batch);
      if done {
        done, fate := OfferAndPublish(message, todo, batch);
      }
      if !done {
        Drop();
      }
    }

    /** Branch 4 is dropped where it waits. */
    ghost method Drop()
      requires Valid() && Awaits(world.cfg, world.sys)
      modifies world`sys
      ensures Valid() && world.sys.pc == Preempted && Now() == old(Now())
    {
      world.Cancels();
    }

    /** All messages of the batch in order; false if the branch was dropped on the way. */
    method PublishBatch(transactions: seq<Message>, ghost batch: Protocol.Batch)
      returns (done: bool, ghost fates: seq<bool>)
      requires Fits() && Valid() && world.sys.pc == Protocol.Publishing(transactions, batch)
      modifies world, publisher, publisher.buffer
      ensures Valid() && world.sys.pc == if done then Protocol.Publishing([], batch) else Preempted
      ensures if done then Publishes(old(Now()), Now(), transactions, fates) && |fates| == |transactions|
          else PublishesPart(old(Now()), Now(), transactions, fates)
    {
      fates := [];
      for i := 0 to |transactions|
        invariant Valid() && world.sys.pc == Protocol.Publishing(transactions[i..], batch)
        invariant |fates| == i && Publishes(old(Now()), Now(), transactions, fates)
      {
        ghost var before := Now();
        ghost var fate;
        done, fate := PublishOne(transactions[i], transactions[i..], batch);
        if !done {
          return;
        }
        NextMessage(transactions, i);
        PublishesMore(old(Now()), before, Now(), transactions, fates, fate);
        fates := fates + [fate];
      }
      done := true;
    }

    /** The next block moves behind the batch, and the cursor with it if nothing is buffered. */
    method Advance(batch: BatchResult)
      requires Valid() && batch.startBlock == nextBlock <= batch.endBlock + 1 && batch.endBlock < U64_MAX
      modifies this`nextBlock, store
      ensures nextBlock == batch.endBlock + 1
      ensures store.lastSynced == if nextBlock > batch.startBlock && publisher.buffer.buffer == []
          then Max(old(store.lastSynced), batch.endBlock) else old(store.lastSynced)
    {
      if batch.endBlock >= batch.startBlock {
        nextBlock := batch.endBlock + 1;
        if publisher.buffer.buffer == [] {
          store.Update(batch.endBlock);
        }
      }
    }

    /** The bookkeeping after the last message. */
    method FinishBatch(batch: BatchResult, latest: u64)
      requires Fits() && Valid() && world.sys.pc == Protocol.Publishing([], Protocol.Batch(batch.endBlock, latest))
      requires batch.startBlock == nextBlock <= batch.endBlock + 1 && !needsDelay && batch.endBlock <= latest <= horizon
      modifies this, world`sys, store
      ensures Valid() && world.sys.pc.Idle?
      ensures Finishes(old(Now()), Now(), batch, latest)
    {
      Advance(batch);
      if latest - batch.endBlock <= 1 {
        needsDelay := true;
      }
      world.EndsBatch();
    }

    /** The batch that was read is the one the protocol begins. */
    method Begin(batch: BatchResult, latest: u64)
      requires Fits() && Valid() && Selects(world.sys) && !world.unseen && !publisher.paused
      requires IsNextBatch(Setup(), Now(), batch, latest)
      modifies world`sys
      ensures Valid() && Now() == old(Now())
      ensures world.sys.pc == Protocol.Publishing(batch.transactions, Protocol.Batch(batch.endBlock, latest))
    {
      assert LastBlock(world.cfg, world.sys, latest) == batch.endBlock;
      world.BeginsBatch(latest);
    }

    /** The canonical messages of the next blocks; None if the branch is dropped between two attempts. */
    method Fetch(latest: u64) returns (r: Option<BatchResult>)
      requires Fits() && Valid() && 1 <= nextBlock <= latest <= horizon
      modifies world`conn, world`unseen, world`sys, world`patience, world`record, reader
      ensures Valid() && world.sys.pc == old(world.sys.pc)
      ensures match r
              case None => Now() == Cut(old(Now()))
              case Some(batch) => Now() == old(Now()) && IsNextBatch(Setup(), Now(), batch, latest)
    {
      r := reader.ReadBatchWithRetry(nextBlock, latest, world);
    }

    /** Reads the next batch: the canonical messages of its blocks. None if dropped. */
    method Read(latest: u64) returns (r: Option<BatchResult>)
      requires Fits() && Valid() && world.sys.pc.Idle? && !needsDelay && !publisher.paused &&
          nextBlock <= latest <= horizon
      modifies world`conn, world`unseen, world`sys, world`patience, world`record, reader
      ensures Valid()
      ensures match r
              case None => world.sys.pc.Idle? && Now() == Cut(old(Now()))
              case Some(batch) =>
                && Now() == old(Now()) && IsNextBatch(Setup(), Now(), batch, latest)
                && world.sys.pc == Protocol.Publishing(batch.transactions, Protocol.Batch(batch.endBlock, latest))
    {
      assert nextBlock >= 1 by {
        ReachableInv(world.cfg, world.sys);
      }
      r := Fetch(latest);
      if r.Some? {
        var polled := Pause();
        if !polled {
          return None;
        }
        Begin(r.value, latest);
      }
    }

    /** Publishes a batch that has been read; it may still be dropped on the way. */
    method PublishAndFinish(batch: BatchResult, latest: u64) returns (done: bool, ghost fates: seq<bool>)
      requires Fits() && Valid() && world.sys.pc == Protocol.Publishing(batch.transactions,
          Protocol.Batch(batch.endBlock, latest))
      requires !needsDelay && latest <= horizon && IsNextBatch(Setup(), Now(), batch, latest)
      modifies this, world, publisher, publisher.buffer, store
      ensures Valid() && world.sys.pc == if done then Idle else Preempted
      ensures ReadDone(Setup(), old(Now()), Now(),
          if done then Through(batch, latest) else Unfinished(batch, latest), fates)
    {
      done, fates := PublishBatch(batch.transactions, Protocol.Batch(batch.endBlock, latest));
      if done {
        FinishBatch(batch, latest);
      }
    }

    /** Reads and publishes the next batch, unless it is dropped on the way. */
    method ReadAndPublish(latest: u64) returns (dropped: bool, ghost end: BatchEnd, ghost fates: seq<bool>)
      requires Fits() && Valid() && world.sys.pc.Idle? && !needsDelay && !publisher.paused &&
          nextBlock <= latest <= horizon
      modifies this, world, reader, publisher, publisher.buffer, store
      ensures Valid() && dropped == end.Dropped() && if dropped then AtSelect() else world.sys.pc.Idle?
      ensures end.Head() == Some(latest) && ReadDone(Setup(), old(Now()), Now(), end, fates)
    {
      var read := Read(latest);
      if read.None? {
        return true, Unread(Some(latest)), [];
      }
      var done;
      done, fates := PublishAndFinish(read.value, latest);
      dropped := !done;
      end := if done then Through(read.value, latest) else Unfinished(read.value, latest);
    }

    /** Caught up with the chain. */
    method FindNothingNew()
      requires Valid() && Selects(world.sys) && !world.unseen && !publisher.paused
      modifies this`needsDelay, world`sys
      ensures Valid() && world.sys.pc.Idle? && Now() == old(Now()).(needsDelay := true)
    {
      world.FindNothingNew();
      needsDelay := true;
    }

    /** Branch 4 once the head of the chain is known. */
    method ReadOn(latest: u64) returns (dropped: bool, ghost end: BatchEnd, ghost fates: seq<bool>)
      requires Fits() && Valid() && Selects(world.sys) && !world.unseen && !publisher.paused && latest <= horizon
      modifies this, world, reader, publisher, publisher.buffer, store
      ensures Valid() && dropped == end.Dropped() && if dropped then AtSelect() else world.sys.pc.Idle?
      ensures end.Head() == Some(latest) && ReadDone(Setup(), old(Now()), Now(), end, fates)
    {
      if nextBlock > latest {
        FindNothingNew();
        return false, UpToDate(latest), [];
      }
      dropped, end, fates := ReadAndPublish(latest);
    }

    /**
     Branch 4. Run to its end it has published the canonical messages of the blocks it passed, or found that there
     are none; dropped, it has published the first of them, or not yet asked or read.
     */
    method HandleBatch() returns (dropped: bool, ghost branch: Branch)
      requires Fits() && Valid() && Selects(world.sys)
      modifies this, world, reader, publisher, publisher.buffer, store
      ensures Valid() && if dropped then AtSelect() else world.sys.pc.Idle?
      ensures branch.Batch? && dropped == branch.end.Dropped()
      ensures BranchDone(Setup(), old(Now()), Now(), branch, false)
    {
      var unpaused := WaitUntilUnpaused();
      if !unpaused {
        return true, Branch.Batch(Unread(None), []);
      }
      var latest := world.Head(horizon);
      var polled := Pause();
      if !polled {
        return true, Branch.Batch(Unread(Some(latest)), []);
      }
      ghost var end, fates;
      dropped, end, fates := ReadOn(latest);
      branch := Branch.Batch(end, fates);
    }

    // ----- The loop -----

    /** The shutdown path: the cursor is persisted, and nothing else happens. */
    method ShutDown(updatedAt: u64) returns (ghost r: Persisted)
      requires Fits() && Valid() && (world.sys.pc.Idle? || world.sys.pc.Preempted?)
      modifies world`conn, world`unseen, world`sys, store.fs
      ensures OnFile() && world.sys.pc.Down?
      ensures ShutDownDone(Setup(), old(Now()), Now(), updatedAt, r)
    {
      var persisted := PersistCursor(Final, updatedAt);
      r := persisted;
    }

    /** The branches before the last: shutdown, a pending change, a tick, in this order. */
    method RunEarlier(signal: Signal, updatedAt: u64) returns (i: Iteration, ghost branch: Branch)
      requires Fits() && Valid() && (world.sys.pc.Idle? || world.sys.pc.Preempted?)
      requires signal.ShutdownAsked? || (AtSelect() && (world.unseen || signal.TickDue?))
      modifies world, publisher, publisher.buffer, store, store.fs
      ensures OnFile()
      ensures i.Continues? ==> Valid() && world.sys.pc.Idle?
      ensures i.Exits? ==> world.sys.pc.Down?
      ensures if signal.ShutdownAsked? then branch.ShutDown? else if old(world.unseen) then branch.Change?
          else branch.Tick?
      ensures BranchDone(Setup(), old(Now()), Now(), branch, i.Exits?)
    {
      if signal.ShutdownAsked? {
        ghost var r := ShutDown(updatedAt);
        return Exits, Branch.ShutDown(updatedAt, r);
      }
      if world.unseen {
        branch := Branch.Change(world.conn);
        i := HandleChange();
      } else {
        i, branch := HandleTick(updatedAt);
      }
    }

    /** The loop polls its select. A kill is over at once; it ends the process and changes nothing else. */
    method Poll(dropped: bool) returns (signal: Signal)
      requires Valid()
      modifies world`conn, world`unseen, world`sys, world`record
      ensures OnFile() && Now() == Heard(old(Now()), signal)
      ensures if signal.Killed? then world.sys.pc.Down? else Valid() && world.sys.pc == old(world.sys.pc)
      ensures dropped && signal.Quiet? ==> world.unseen
      ensures old(world.unseen) && !signal.Killed? ==> world.unseen
    {
      signal := world.Poll(dropped);
    }

    /** Branch 4 has been dropped: one of the branches before it runs, or the process ends. */
    method Preempt(updatedAt: u64) returns (i: Iteration, ghost t: Turn)
      requires Fits() && Valid() && AtSelect()
      modifies world, publisher, publisher.buffer, store, store.fs
      ensures OnFile()
      ensures i.Continues? ==> Valid() && world.sys.pc.Idle?
      ensures i.Exits? ==> world.sys.pc.Down?
      ensures !t.branch.Batch? && t.before == old(Now()) && t.after == Now() && t.ended == i.Exits?
      ensures !old(needsDelay) ==> Lawful(Setup(), t)
    {
      ghost var before := Now();
      var signal := Poll(true);
      ghost var unseen, branch := world.unseen, Dead;
      if signal.Killed? {
        i := Exits;
      } else {
        i, branch := RunEarlier(signal, updatedAt);
      }
      t := Turn(signal, unseen, branch, i.Exits?, before, Now());
    }

    /** The delay, or the branch that the select chooses; branch 4 may be dropped. */
    method Choose(signal: Signal, updatedAt: u64) returns (i: Iteration, dropped: bool, ghost branch: Branch)
      requires Fits() && Valid() && world.sys.pc.Idle? && !signal.Killed?
      modifies this, world, reader, publisher, publisher.buffer, store, store.fs
      ensures OnFile()
      ensures i.Continues? ==> Valid() && if dropped then AtSelect() && !needsDelay else world.sys.pc.Idle?
      ensures i.Exits? ==> world.sys.pc.Down? && !dropped
      ensures dropped == (branch.Batch? && branch.end.Dropped())
      ensures IsChosen(Turn(signal, old(world.unseen), branch, i.Exits?, old(Now()), Now()))
      ensures BranchDone(Setup(), old(Now()), Now(), branch, i.Exits?)
    {
      i, dropped := Continues, false;
      if signal.ShutdownAsked? {
        i, branch := RunEarlier(signal, updatedAt);
      } else if needsDelay {
        world.EndDelay();
        needsDelay := false;
        branch := Delay;
      } else if world.unseen || signal.TickDue? {
        i, branch := RunEarlier(signal, updatedAt);
      } else {
        dropped, branch := HandleBatch();
      }
    }

    /** The first turn of an iteration. */
    method Turned(updatedAt: u64) returns (i: Iteration, dropped: bool, ghost t: Turn)
      requires Fits() && Valid() && world.sys.pc.Idle?
      modifies this, world, reader, publisher, publisher.buffer, store, store.fs
      ensures OnFile()
      ensures i.Continues? ==> Valid() && if dropped then AtSelect() && !needsDelay else world.sys.pc.Idle?
      ensures i.Exits? ==> world.sys.pc.Down? && !dropped
      ensures Lawful(Setup(), t) && t.before == old(Now()) && t.after == Now() && t.ended == i.Exits?
      ensures dropped == Drops(t)
      ensures old(world.unseen) && !t.signal.Killed? ==> t.unseen
    {
      ghost var before := Now();
      var signal := Poll(false);
      ghost var unseen, branch := world.unseen, Dead;
      i, dropped := Exits, false;
      if !signal.Killed? {
        i, dropped, branch := Choose(signal, updatedAt);
      }
      t := Turn(signal, unseen, branch, i.Exits?, before, Now());
    }

    /**
     One iteration: the delay, or whichever branch of the biased select is ready first; a dropped branch 4 is
     followed by what preempted it. So it is one turn or two.
     */
    method Iterate(updatedAt: u64) returns (i: Iteration, ghost turns: seq<Turn>)
      requires Fits() && Valid() && world.sys.pc.Idle?
      modifies this, world, reader, publisher, publisher.buffer, store, store.fs
      ensures OnFile()
      ensures i.Continues? ==> Valid() && world.sys.pc.Idle?
      ensures i.Exits? ==> world.sys.pc.Down?
      ensures turns != [] && Leads(Setup(), turns, old(Now()), Now()) && Ends(turns) == i.Exits?
      ensures !Drops(turns[|turns| - 1])
      ensures old(world.unseen) && !turns[0].signal.Killed? ==> turns[0].unseen
    {
      var dropped;
      ghost var turn, next;
      i, dropped, turn := Turned(updatedAt);
      turns := [turn];
      if dropped {
        i, next := Preempt(updatedAt);
        turns := [turn, next];
      }
    }

    /**
     Runs until shutdown or the end of the process, as a chain of lawful turns; `clock` is the time of each
     iteration's persist, and the process is killed when it has run out.
     */
    method Run(clock: seq<u64>) returns (ghost turns: seq<Turn>)
      requires Fits() && Valid() && world.sys.pc.Idle?
      modifies this, world, reader, publisher, publisher.buffer, store, store.fs
      ensures OnFile() && world.sys.pc.Down?
      ensures Chain(Setup(), turns) && (turns != [] ==> turns[0].before == old(Now()))
      ensures Ends(turns) || |turns| >= |clock|
    {
      turns := [];
      for n := 0 to |clock|
        invariant Valid() && world.sys.pc.Idle?
        invariant Leads(Setup(), turns, old(Now()), Now()) && !Ends(turns) && |turns| >= n
        invariant turns != [] ==> !Drops(turns[|turns| - 1])
      {
        var i;
        ghost var more;
        i, more := Iterate(clock[n]);
        ChainJoins(Setup(), turns, more, old(Now()), more[0].before, Now());
        turns := turns + more;
        if i.Exits? {
          return;
        }
      }
      world.Dies();
    }
  }
}

/**
 Whole histories: lives of the process one after the other, each started from the state file the last
 one left, with power losses in between. What the state file says is true of the stream.
 */
module Supervising {
  import opened Wrappers
  import opened Bisection
  import opened BisectionLaws
  import opened Extraction
  import opened Protocol
  import opened Stream
  import opened Reader
  import opened Buffer
  import opened Outside
  import opened Publishing
  import opened Storage
  import opened Turns
  import opened Running

  /** Everything that outlives a process, and the reader, which keeps no state that matters. */
  ghost predicate Between(world: World, fs: FileSystem, codec: Codec, reader: BlockReader, horizon: nat)
    reads world, fs
  {
    && OnDisk(world, fs, codec, reader.chainId, horizon) && reader.Valid()
    && world.cfg.canon == BlockMessages(reader.chainId, reader.parse, reader.chain) &&
        world.cfg.batchSize == reader.batchSize
    && world.cfg.initial <= horizon && horizon + reader.batchSize <= U64_MAX && horizon < U64_MAX
  }

  /** Protocol and code agree on where a run starts, and on when it cannot. */
  lemma StartsAlike(world: World, fs: FileSystem, codec: Codec, reader: BlockReader, horizon: nat)
    requires Between(world, fs, codec, reader, horizon) && world.sys.pc.Down?
    ensures var image := fs.disk.versions[|fs.disk.versions| - 1];
            match CursorOf(codec, image)
            case Some(last) =>
              && last <= horizon && DetermineStartBlock(last, true) == Ok(last + 1) && StartsAt(world, last + 1, last)
            case None =>
              && image.None?
              && DetermineStartBlock(world.cfg.initial, false)
                 == (if world.cfg.initial == 0 then Err(NoInitialBlock) else Ok(world.cfg.initial))
              && if world.cfg.initial == 0 then !Enabled(world.cfg, world.sys, Start)
                 else StartsAt(world, world.cfg.initial, world.cfg.initial)
  {
    var image := fs.disk.versions[|fs.disk.versions| - 1];
    assert Whole(codec, reader.chainId, image);
    assert Visible(world.sys.disk) == CursorOf(codec, image);
  }

  /** The protocol's next run starts at this block with this cursor. */
  ghost predicate StartsAt(world: World, start: nat, cursor: nat)
    reads world
  {
    && Enabled(world.cfg, world.sys, Start)
    && Load(world.cfg, world.sys).nextBlock == start && Load(world.cfg, world.sys).cursor == cursor
  }

  /** The store's cursor is that of the state file, which is of this chain, or without a file the initial block. */
  method LoadStore(world: World, fs: FileSystem, codec: Codec, reader: BlockReader, initial: u64, horizon: u64)
    returns (store: StateStore)
    requires Between(world, fs, codec, reader, horizon) && initial <= horizon
    ensures fresh(store) && store.fs == fs && store.codec == codec && store.chainId == reader.chainId
    ensures store.lastSynced <= horizon
    ensures match CursorOf(codec, fs.disk.versions[|fs.disk.versions| - 1])
            case Some(last) => store.fromFile && store.lastSynced == last
            case None => !store.fromFile && store.lastSynced == initial
  {
    var loaded := StateStore.Load(fs, codec, reader.chainId, initial, true);
    assert Whole(codec, reader.chainId, fs.disk.versions[|fs.disk.versions| - 1]);
    assert Visible(world.sys.disk) == CursorOf(codec, fs.disk.versions[|fs.disk.versions| - 1]);
    store := loaded.value;
  }

  /**
   Loads the state file and determines the first block: the one after the record's, or the initial block if
   there is no file; without either it fails.
   */
  method Open(world: World, fs: FileSystem, codec: Codec, reader: BlockReader, initial: u64, horizon: u64)
    returns (r: Result<(StateStore, u64), NoxError>)
    requires Between(world, fs, codec, reader, horizon) && world.sys.pc.Down? && world.cfg.initial == initial
    ensures r.Ok? ==>
      var (store, start) := r.value;
      && fresh(store) && store.fs == fs && store.codec == codec && store.chainId == reader.chainId
      && store.lastSynced <= horizon && StartsAt(world, start, store.lastSynced)
      && match CursorOf(codec, fs.disk.versions[|fs.disk.versions| - 1])
         case Some(last) => store.lastSynced == last && start == last + 1
         case None => store.lastSynced == start == initial
    ensures r.Err? <==> initial == 0 && fs.disk.versions[|fs.disk.versions| - 1].None?
  {
    StartsAlike(world, fs, codec, reader, horizon);
    var store := LoadStore(world, fs, codec, reader, initial, horizon);
    var start := DetermineStartBlock(store.lastSynced, store.fromFile);
    match start
    case Err(e) => return Err(e);
    case Ok(block) => return Ok((store, block));
  }

  ghost function SetupOf(world: World, codec: Codec, reader: BlockReader): Setting {
    Setting(world.cfg.canon, reader.batchSize, codec, reader.chainId)
  }

  /** Builds the parts of a process that starts from `store`, and runs it to its end. */
  method RunFrom(world: World, codec: Codec, reader: BlockReader, capacity: nat, horizon: u64, store: StateStore,
      start: u64, clock: seq<u64>)
    returns (ghost turns: seq<Turn>)
    requires Between(world, store.fs, codec, reader, horizon) && store.codec == codec && store.chainId == reader.chainId
    requires StartsAt(world, start, store.lastSynced) && store.lastSynced <= horizon
    requires world.cfg.capacity == Min(capacity, MAX_CAPACITY)
    modifies world, store, store.fs, reader
    ensures Between(world, store.fs, codec, reader, horizon) && world.sys.pc.Down?
    ensures Chain(SetupOf(world, codec, reader), turns) && (Ends(turns) || |turns| >= |clock|)
    ensures turns != [] ==> turns[0].before == Fields(start, old(store.lastSynced), false, false, [],
        old(store.fs.disk.versions), old(store.fs.trouble), old(world.record))
  {
    world.Starts();
    var buffer := new MessageBuffer(capacity);
    var publisher := new Publisher(world, buffer);
    var app := new Application(world, reader, publisher, store, horizon, start);
    turns := app.Run(clock);
  }

  /**
   One life of the process: load, determine the start block, and turn after turn of the main loop. It fails exactly
   without a file and an initial block.
   */
  method Live(world: World, fs: FileSystem, codec: Codec, reader: BlockReader, initial: u64, capacity: nat,
      horizon: u64, clock: seq<u64>)
    returns (r: Result<(), NoxError>, ghost turns: seq<Turn>)
    requires Between(world, fs, codec, reader, horizon) && world.sys.pc.Down?
    requires world.cfg.initial == initial && world.cfg.capacity == Min(capacity, MAX_CAPACITY)
    modifies world, fs, reader
    ensures Between(world, fs, codec, reader, horizon) && world.sys.pc.Down?
    ensures r.Err? <==> initial == 0 && old(fs.disk.versions[|fs.disk.versions| - 1]).None?
    ensures r.Err? ==> fs.disk == old(fs.disk) && world.sys == old(world.sys)
    ensures r.Ok? ==> IsLife(SetupOf(world, codec, reader), initial, turns, |clock|)
    ensures r.Ok? && turns != [] ==> turns[0].before.versions == old(fs.disk.versions)
  {
    turns := [];
    var begun := Open(world, fs, codec, reader, initial, horizon);
    if begun.Err? {
      return Err(begun.error), turns;
    }
    var (store, start) := begun.value;
    turns := RunFrom(world, codec, reader, capacity, horizon, store, start, clock);
    return Ok(()), turns;
  }

  /** A power loss: the state file is one of the versions that could survive, whole, and nothing else is left. */
  method LosePower(world: World, fs: FileSystem, codec: Codec, reader: BlockReader, horizon: nat)
    requires Between(world, fs, codec, reader, horizon)
    modifies world, fs
    ensures Between(world, fs, codec, reader, horizon) && world.sys.pc.Down?
    ensures fs.disk.versions[0] in old(fs.disk.versions)
  {
    var version := fs.LosePower();
    world.LosesPower(version);
  }

  /** What became of each life: its turns, or None if it could not start; with an initial block each one starts. */
  ghost predicate AreLives(g: Setting, initial: nat, lives: seq<Option<seq<Turn>>>, clocks: seq<seq<u64>>) {
    && |lives| == |clocks|
    && (forall i :: 0 <= i < |lives| && lives[i].Some? ==> IsLife(g, initial, lives[i].value, |clocks[i]|))
    && (initial > 0 ==> forall i :: 0 <= i < |lives| ==> lives[i].Some?)
  }

  lemma OneMoreLife(g: Setting, initial: nat, lives: seq<Option<seq<Turn>>>, clocks: seq<seq<u64>>,
      life: Option<seq<Turn>>)
    requires |lives| < |clocks| && AreLives(g, initial, lives, clocks[..|lives|])
    requires life.Some? ==> IsLife(g, initial, life.value, |clocks[|lives|]|)
    requires initial > 0 ==> life.Some?
    ensures AreLives(g, initial, lives + [life], clocks[..|lives| + 1])
  {
  }

  /** Any number of lives, the power failing or not after each. */
  method Supervise(world: World, fs: FileSystem, codec: Codec, reader: BlockReader, initial: u64, capacity: nat,
      horizon: u64, clocks: seq<seq<u64>>)
    returns (ghost lives: seq<Option<seq<Turn>>>)
    requires Between(world, fs, codec, reader, horizon) && world.sys.pc.Down?
    requires world.cfg.initial == initial && world.cfg.capacity == Min(capacity, MAX_CAPACITY)
    modifies world, fs, reader
    ensures Between(world, fs, codec, reader, horizon) && world.sys.pc.Down?
    ensures AreLives(SetupOf(world, codec, reader), initial, lives, clocks)
  {
    lives := [];
    for n := 0 to |clocks|
      invariant Between(world, fs, codec, reader, horizon) && world.sys.pc.Down?
      invariant AreLives(SetupOf(world, codec, reader), initial, lives, clocks[..n])
    {
      var r;
      ghost var turns;
      r, turns := Live(world, fs, codec, reader, initial, capacity, horizon, clocks[n]);
      ghost var life := if r.Ok? then Some(turns) else None;
      OneMoreLife(SetupOf(world, codec, reader), initial, lives, clocks, life);
      lives := lives + [life];
      if * {
        LosePower(world, fs, codec, reader, horizon);
      }
    }
    assert clocks[..|clocks|] == clocks;
  }

  /** The record is that of the file: every message above the initial block and up to its cursor is in the stream. */
  ghost predicate VouchesOnlyForStored(
    codec: Codec, versions: seq<Option<FileImage>>, initial: nat, messages: nat -> seq<Message>, stored: seq<Message>)
  {
    forall i, b: nat, m ::
      && 0 <= i < |versions| && CursorOf(codec, versions[i]).Some?
      && initial < b <= CursorOf(codec, versions[i]).value && m in messages(b) ==>
        m in stored
  }

  /**
   From a fresh installation: after any number of lives with any failures, each version of the state
   file is whole and vouches only for messages that the stream holds, and the stream holds nothing but
   messages of the chain, none of them twice. Each life is a chain of lawful turns from the state file on.
   */
  method Operate(
    chainId: nat, parse: Parser, provider: nat -> Fetcher<Log>, ghost chain: nat -> seq<Log>, batchSize: u64,
    initial: u64, capacity: nat, horizon: u64, codec: Codec, clocks: seq<seq<u64>>)
    returns (world: World, fs: FileSystem, ghost lives: seq<Option<seq<Turn>>>)
    requires WellFormed(parse, chain) && (forall n: nat :: Truthful(chain, provider(n))) && RoundTrips(codec)
    requires initial <= horizon && horizon + batchSize <= U64_MAX && horizon < U64_MAX
    ensures fs.Valid() && AllWhole(codec, chainId, fs.disk.versions)
    ensures VouchesOnlyForStored(codec, fs.disk.versions, initial, BlockMessages(chainId, parse, chain),
        world.sys.stored)
    ensures EachOnce(world.sys.stored)
    ensures AreLives(Setting(BlockMessages(chainId, parse, chain), batchSize, codec, chainId), initial, lives, clocks)
    ensures forall m :: m in world.sys.stored ==>
        exists b: nat :: b >= initial && m in BlockMessages(chainId, parse, chain)(b)
  {
    ghost var cfg := Config(initial, batchSize, Min(capacity, MAX_CAPACITY), BlockMessages(chainId, parse, chain));
    ChainGivesDistinctMessages(cfg, chainId, parse, chain);
    world := new World(cfg);
    fs := new FileSystem();
    var reader := new BlockReader(batchSize, chainId, parse, provider, chain);
    lives := Supervise(world, fs, codec, reader, initial, capacity, horizon, clocks);
    ExactlyOnce(cfg, world.sys);
  }
}

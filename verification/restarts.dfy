/** The cursors that restarts read: exactly when they ascend, and exactly when a later restart can go back. */
module Restarts {
  import opened Wrappers
  import opened Spans
  import opened Protocol
  import opened Safety
  import opened Guarantees
  import opened Runs

  ghost predicate Ascending(loads: seq<nat>) {
    forall i, j :: 0 <= i <= j < |loads| ==> loads[i] <= loads[j]
  }

  /** No version of the file that can come back is older than the cursor v; nothing is older than the initial block. */
  ghost predicate NothingBefore(c: Config, disk: seq<Option<nat>>, v: nat) {
    v <= c.initial || forall i :: 0 <= i < |disk| ==> disk[i].Some? && disk[i].value >= v
  }

  // ----- What keeps loads from going back -----

  lemma NothingBeforeStep(c: Config, s: State, v: nat, step: Step)
    requires Inv(c, s) && Enabled(c, s, step) && NothingBefore(c, s.disk, v)
    ensures NothingBefore(c, Apply(c, s, step).disk, v)
  {
    if TouchesFile(step) {
      FileStepKeeps(c, s, v, step);
    } else {
      HistoryUntouched(c, s, step);
    }
  }

  lemma FileStepKeeps(c: Config, s: State, v: nat, step: Step)
    requires Inv(c, s) && Enabled(c, s, step) && NothingBefore(c, s.disk, v) && TouchesFile(step)
    ensures NothingBefore(c, Apply(c, s, step).disk, v)
  {
    match step
    case Start =>
    case Rename => RenameKeeps(c, s, v);
    case SyncDirectory(ok) => SyncKeeps(c, s, v, ok);
    case PowerLoss(version) => PowerLossKeeps(c, s, v, version);
  }

  lemma RenameKeeps(c: Config, s: State, v: nat)
    requires Inv(c, s) && Enabled(c, s, Rename) && NothingBefore(c, s.disk, v)
    ensures NothingBefore(c, Apply(c, s, Rename).disk, v)
  {
    if v > c.initial {
      assert Visible(s.disk).Some? && v <= Visible(s.disk).value <= s.pc.value;
    }
  }

  lemma SyncKeeps(c: Config, s: State, v: nat, ok: bool)
    requires Enabled(c, s, SyncDirectory(ok)) && NothingBefore(c, s.disk, v)
    ensures NothingBefore(c, Apply(c, s, SyncDirectory(ok)).disk, v)
  {
  }

  lemma PowerLossKeeps(c: Config, s: State, v: nat, version: nat)
    requires Enabled(c, s, PowerLoss(version)) && NothingBefore(c, s.disk, v)
    ensures NothingBefore(c, Apply(c, s, PowerLoss(version)).disk, v)
  {
  }

  /** The loads from the n-th on are at least v. */
  ghost predicate LoadsFrom(loads: seq<nat>, n: nat, v: nat) {
    forall i :: n <= i < |loads| ==> loads[i] >= v
  }

  lemma LoadIsNotBefore(c: Config, s: State, v: nat)
    requires DiskInv(c, s) && Enabled(c, s, Start) && NothingBefore(c, s.disk, v)
    ensures Visible(s.disk).Some? ==> Visible(s.disk).value >= v
  {
  }

  lemma LoadsStay(c: Config, s: State, step: Step)
    requires Enabled(c, s, step) && !step.Start?
    ensures Apply(c, s, step).loads == s.loads
  {
    if TouchesFile(step) {
      FileStepLoadsNothing(c, s, step);
    } else {
      HistoryUntouched(c, s, step);
    }
  }

  lemma FileStepLoadsNothing(c: Config, s: State, step: Step)
    requires Enabled(c, s, step) && (step.Rename? || step.SyncDirectory? || step.PowerLoss?)
    ensures Apply(c, s, step).loads == s.loads
  {
  }

  lemma {:induction false} LaterLoads(c: Config, s: State, steps: seq<Step>, n: nat, v: nat)
    requires DistinctMessages(c) && Inv(c, s) && Legal(c, s, steps)
    requires NothingBefore(c, s.disk, v) && LoadsFrom(s.loads, n, v)
    ensures LoadsFrom(Exec(c, s, steps).loads, n, v)
    decreases |steps|
  {
    if steps != [] {
      var t := Apply(c, s, steps[0]);
      NothingBeforeStep(c, s, v, steps[0]);
      if steps[0].Start? {
        LoadIsNotBefore(c, s, v);
      } else {
        LoadsStay(c, s, steps[0]);
      }
      InvStep(c, s, steps[0]);
      LaterLoads(c, t, steps[1..], n, v);
    }
  }

  // ----- One load -----

  /** Every run from s loads cursors of at least v. */
  ghost predicate LoadsNoLess(c: Config, s: State, v: nat) {
    forall t :: Leads(c, s, t) ==> LoadsFrom(t.loads, |s.loads|, v)
  }

  /** A power loss takes the file back to its oldest version, and a restart comes to load it, or the initial block. */
  lemma LoadsOldest(c: Config, s: State, t: State) returns (u: State)
    requires Ahead(c, s, t) && t.disk != [] && (t.disk[0].None? ==> c.initial > 0)
    ensures Ahead(c, s, u)
    ensures u.loads == t.loads + [match t.disk[0] case None => c.initial case Some(w) => w]
  {
    u := Goes(c, s, t, PowerLoss(0));
    u := Goes(c, s, u, Start);
    if t.disk[0].None? {
      u := RestartsFromCursor(c, s, u);
    }
  }

  /** A cursor with nothing older on the disk stays the least. */
  lemma CursorIsKept(c: Config, s: State, v: nat)
    requires DistinctMessages(c) && Inv(c, s) && NothingBefore(c, s.disk, v)
    ensures LoadsNoLess(c, s, v)
  {
    forall t | Leads(c, s, t)
      ensures LoadsFrom(t.loads, |s.loads|, v)
    {
      var steps :| Legal(c, s, steps) && Exec(c, s, steps) == t;
      LaterLoads(c, s, steps, |s.loads|, v);
    }
  }

  /** A power loss undoes a cursor that is neither the initial block nor the durable one. */
  lemma CursorIsUndone(c: Config, s: State, v: nat)
    requires Reachable(c, s) && DiskInv(c, s) && c.initial > 0
    requires Visible(s.disk) == Some(v) && v != c.initial && s.disk[0] != Visible(s.disk)
    ensures !LoadsNoLess(c, s, v)
  {
    NowAhead(c, s);
    assert NoLater(s.disk[0], Visible(s.disk));
    var t := LoadsOldest(c, s, s);
    assert t.loads[|s.loads|] < v;
  }

  /**
   After a restart no later one loads less, whatever happens, exactly when the cursor it loaded is the
   initial block or was already durable.
   */
  lemma LoadedCursorIsKeptExactly(c: Config, s: State)
    requires DistinctMessages(c) && Reachable(c, s) && Enabled(c, s, Start) && Visible(s.disk).Some?
    ensures var v := Visible(s.disk).value;
            LoadsNoLess(c, Apply(c, s, Start), v) <==> v == c.initial || s.disk[0] == Visible(s.disk)
  {
    var v, started := Visible(s.disk).value, Apply(c, s, Start);
    ReachableStep(c, s, Start);
    ReachableInv(c, started);
    assert started.disk == s.disk;
    if v == c.initial || s.disk[0] == Visible(s.disk) {
      assert forall i :: 0 <= i < |s.disk| ==> NoLater(s.disk[0], s.disk[i]);
      CursorIsKept(c, started, v);
    } else {
      if c.initial == 0 {
        NothingStarts(c, s);
      }
      CursorIsUndone(c, started, v);
    }
  }

  // ----- All loads of a history -----

  /** The power loss brings back a version at least as new as the cursor loaded last, or nothing older exists. */
  ghost predicate Mild(c: Config, s: State, version: nat)
    requires version < |s.disk|
  {
    s.loads != [] ==>
      var last := s.loads[|s.loads| - 1];
      last == c.initial || NoLater(Some(last), s.disk[version])
  }

  /** Every power loss of the history is mild. */
  ghost predicate MildHistory(c: Config, s: State, steps: seq<Step>)
    requires Legal(c, s, steps)
    decreases |steps|
  {
    steps == [] ||
    ((steps[0].PowerLoss? ==> Mild(c, s, steps[0].version)) && MildHistory(c, Apply(c, s, steps[0]), steps[1..]))
  }

  /** The loads ascend, and the file in place is not older than the last of them. */
  ghost predicate LoadsInv(c: Config, s: State) {
    && Ascending(s.loads)
    && (s.loads != [] ==>
          var last := s.loads[|s.loads| - 1];
          last == c.initial || (s.disk != [] && NoLater(Some(last), Visible(s.disk))))
  }

  lemma LoadsStart(c: Config, s: State)
    requires DiskInv(c, s) && LoadsInv(c, s) && Enabled(c, s, Start)
    ensures LoadsInv(c, Apply(c, s, Start))
  {
  }

  lemma LoadsRename(c: Config, s: State)
    requires Inv(c, s) && LoadsInv(c, s) && Enabled(c, s, Rename)
    ensures LoadsInv(c, Apply(c, s, Rename))
  {
    assert NoLater(Visible(s.disk), Some(s.pc.value));
  }

  lemma LoadsSync(c: Config, s: State, ok: bool)
    requires LoadsInv(c, s) && Enabled(c, s, SyncDirectory(ok))
    ensures LoadsInv(c, Apply(c, s, SyncDirectory(ok)))
  {
  }

  lemma LoadsPowerLoss(c: Config, s: State, version: nat)
    requires LoadsInv(c, s) && Enabled(c, s, PowerLoss(version)) && Mild(c, s, version)
    ensures LoadsInv(c, Apply(c, s, PowerLoss(version)))
  {
  }

  lemma LoadsStep(c: Config, s: State, step: Step)
    requires Inv(c, s) && LoadsInv(c, s) && Enabled(c, s, step)
    requires step.PowerLoss? ==> Mild(c, s, step.version)
    ensures LoadsInv(c, Apply(c, s, step))
  {
    if !TouchesFile(step) {
      HistoryUntouched(c, s, step);
    } else if step.Start? {
      LoadsStart(c, s);
    } else if step.Rename? {
      LoadsRename(c, s);
    } else if step.SyncDirectory? {
      LoadsSync(c, s, step.ok);
    } else {
      LoadsPowerLoss(c, s, step.version);
    }
  }

  lemma {:induction false} LoadsRun(c: Config, s: State, steps: seq<Step>)
    requires DistinctMessages(c) && Inv(c, s) && LoadsInv(c, s) && Legal(c, s, steps) && MildHistory(c, s, steps)
    ensures LoadsInv(c, Exec(c, s, steps))
    decreases |steps|
  {
    if steps != [] {
      LoadsStep(c, s, steps[0]);
      InvStep(c, s, steps[0]);
      LoadsRun(c, Apply(c, s, steps[0]), steps[1..]);
    }
  }

  /** Along every history whose power losses are mild, restarts load ascending cursors. */
  lemma MildHistoriesAscend(c: Config, steps: seq<Step>)
    requires DistinctMessages(c) && Legal(c, Init(), steps) && MildHistory(c, Init(), steps)
    ensures Ascending(Exec(c, Init(), steps).loads)
  {
    LoadsRun(c, Init(), steps);
  }

  /** A power loss has no later restart load less than the one before it exactly when it is mild. */
  lemma PowerLossIsHarmlessExactlyWhenMild(c: Config, s: State, version: nat)
    requires DistinctMessages(c) && Reachable(c, s) && Enabled(c, s, PowerLoss(version)) && s.loads != []
    ensures var last := s.loads[|s.loads| - 1];
            LoadsNoLess(c, Apply(c, s, PowerLoss(version)), last) <==> Mild(c, s, version)
  {
    var last, t := s.loads[|s.loads| - 1], Apply(c, s, PowerLoss(version));
    ReachableStep(c, s, PowerLoss(version));
    ReachableInv(c, t);
    LoadsNotBeforeInitial(c, s);
    if Mild(c, s, version) {
      CursorIsKept(c, t, last);
    } else {
      assert c.initial > 0 by {
        if c.initial == 0 {
          PinnedLoadsInitialOnly(c, s);
        }
      }
      NowAhead(c, t);
      var u := LoadsOldest(c, t, t);
      assert u.loads[|t.loads|] < last;
    }
  }

  lemma {:induction false} WithoutPowerLossMild(c: Config, s: State, steps: seq<Step>)
    requires Legal(c, s, steps) && (forall i :: 0 <= i < |steps| ==> !steps[i].PowerLoss?)
    ensures MildHistory(c, s, steps)
    decreases |steps|
  {
    if steps != [] {
      WithoutPowerLossMild(c, Apply(c, s, steps[0]), steps[1..]);
    }
  }

  /** Without a power loss restarts never go back, whenever processes are killed and whatever syncs fail. */
  lemma RestartsNeverGoBack(c: Config, steps: seq<Step>)
    requires DistinctMessages(c) && Legal(c, Init(), steps)
    requires forall i :: 0 <= i < |steps| ==> !steps[i].PowerLoss?
    ensures Ascending(Exec(c, Init(), steps).loads)
  {
    WithoutPowerLossMild(c, Init(), steps);
    MildHistoriesAscend(c, steps);
  }

  // ----- Configurations whose cursor cannot leave the initial block -----

  /** Nothing starts, no batch covers a block, or the block after the initial one cannot be published. */
  ghost predicate Pinned(c: Config) {
    c.initial == 0 || c.batchSize == 0 || (c.capacity == 0 && c.canon(c.initial + 1) != [])
  }

  /** A batch ends at the initial block at the latest, or has messages that can never be offered. */
  ghost predicate BatchPinned(c: Config, s: State) {
    InBatch(s) ==>
      s.pc.batch.last <= c.initial || (c.batchSize > 0 && s.pc.Publishing? && s.pc.todo != [])
  }

  ghost predicate PinnedInv(c: Config, s: State) {
    && (c.initial == 0 ==> NeverStarted(s))
    && (forall i :: 0 <= i < |s.disk| && s.disk[i].Some? ==> s.disk[i].value <= c.initial)
    && (!s.pc.Down? ==> s.nextBlock <= c.initial + 1 && BatchPinned(c, s))
    && (forall i :: 0 <= i < |s.loads| ==> s.loads[i] <= c.initial)
  }

  /** Nothing that the invariant speaks of has changed. */
  ghost predicate StaysPinned(s: State, t: State) {
    SameHistory(s, t) && t.nextBlock == s.nextBlock && !s.pc.Down? && !InBatch(t)
  }

  lemma BeginPinned(c: Config, s: State, latest: nat)
    requires Pinned(c) && Inv(c, s) && PinnedInv(c, s) && Enabled(c, s, BeginBatch(latest))
    ensures PinnedInv(c, Apply(c, s, BeginBatch(latest)))
  {
    var t := Apply(c, s, BeginBatch(latest));
    if c.batchSize > 0 && t.pc.batch.last > c.initial {
      var m := c.canon(c.initial + 1)[0];
      SpanContains(c.canon, s.nextBlock, t.pc.batch.last + 1, c.initial + 1, m);
    }
  }

  lemma EndPinned(c: Config, s: State)
    requires PinnedInv(c, s) && Enabled(c, s, EndBatch)
    ensures PinnedInv(c, Apply(c, s, EndBatch))
  {
  }

  lemma RenamePinned(c: Config, s: State)
    requires Inv(c, s) && PinnedInv(c, s) && Enabled(c, s, Rename)
    ensures PinnedInv(c, Apply(c, s, Rename))
  {
  }

  lemma SyncPinned(c: Config, s: State, ok: bool)
    requires PinnedInv(c, s) && Enabled(c, s, SyncDirectory(ok))
    ensures PinnedInv(c, Apply(c, s, SyncDirectory(ok)))
  {
  }

  lemma CrashPinned(c: Config, s: State, step: Step)
    requires PinnedInv(c, s) && Enabled(c, s, step)
    requires step.Kill? || step.PowerLoss? || step.PersistFailed?
    ensures PinnedInv(c, Apply(c, s, step))
  {
  }

  lemma StartPinned(c: Config, s: State)
    requires PinnedInv(c, s) && Enabled(c, s, Start)
    ensures PinnedInv(c, Apply(c, s, Start))
  {
  }

  lemma OfferPinned(c: Config, s: State, step: Step)
    requires Pinned(c) && PinnedInv(c, s) && Enabled(c, s, step) && (step.Cancel? || step.Offer?)
    ensures PinnedInv(c, Apply(c, s, step))
  {
  }

  lemma PublishPinned(c: Config, s: State, step: Step)
    requires PinnedInv(c, s) && Enabled(c, s, step) && (step.Send? || step.Ack? || step.NoAck?)
    ensures PinnedInv(c, Apply(c, s, step))
  {
  }

  lemma EnvironmentPinned(c: Config, s: State, step: Step)
    requires PinnedInv(c, s) && Enabled(c, s, step)
    requires step.NatsUp? || step.NatsDown? || step.Store?
    ensures PinnedInv(c, Apply(c, s, step))
  {
  }

  /** Steps of the main loop and of the handlers, away from the file. */
  ghost predicate OfLoop(step: Step) {
    || step.DelayOver? || step.NothingNew? || step.Shutdown? || step.StateChange? || step.Tick?
    || step.HandleChange? || step.TryResume? || step.Resume? || step.Settle?
    || step.Drain? || step.FlushAck? || step.FlushNoAck?
  }

  ghost predicate MovesOn(s: State, t: State) {
    t.nextBlock == s.nextBlock && !s.pc.Down? && !InBatch(t)
  }

  lemma LoopMovesOn(c: Config, s: State, step: Step)
    requires Enabled(c, s, step)
    requires step.DelayOver? || step.NothingNew? || step.Shutdown? || step.StateChange? || step.Tick?
    ensures MovesOn(s, Apply(c, s, step))
  {
  }

  lemma HandleChangeMovesOn(c: Config, s: State)
    requires Enabled(c, s, HandleChange)
    ensures MovesOn(s, Apply(c, s, HandleChange))
  {
  }

  lemma TryResumeMovesOn(c: Config, s: State)
    requires Enabled(c, s, TryResume)
    ensures MovesOn(s, Apply(c, s, TryResume))
  {
  }

  lemma SettleMovesOn(c: Config, s: State, step: Step)
    requires Enabled(c, s, step) && (step.Resume? || step.Settle?)
    ensures MovesOn(s, Apply(c, s, step))
  {
  }

  lemma FlushMovesOn(c: Config, s: State, step: Step)
    requires Enabled(c, s, step) && (step.Drain? || step.FlushAck? || step.FlushNoAck?)
    ensures MovesOn(s, Apply(c, s, step))
  {
  }

  lemma LoopStaysPinned(c: Config, s: State, step: Step)
    requires Enabled(c, s, step) && OfLoop(step)
    ensures StaysPinned(s, Apply(c, s, step))
  {
    HistoryUntouched(c, s, step);
    if step.HandleChange? {
      HandleChangeMovesOn(c, s);
    } else if step.TryResume? {
      TryResumeMovesOn(c, s);
    } else if step.Resume? || step.Settle? {
      SettleMovesOn(c, s, step);
    } else if step.Drain? || step.FlushAck? || step.FlushNoAck? {
      FlushMovesOn(c, s, step);
    } else {
      LoopMovesOn(c, s, step);
    }
  }

  lemma PinnedStep(c: Config, s: State, step: Step)
    requires Pinned(c) && Inv(c, s) && PinnedInv(c, s) && Enabled(c, s, step)
    ensures PinnedInv(c, Apply(c, s, step))
  {
    if step.BeginBatch? {
      BeginPinned(c, s, step.latest);
    } else if step.EndBatch? {
      EndPinned(c, s);
    } else if step.Rename? {
      RenamePinned(c, s);
    } else if step.SyncDirectory? {
      SyncPinned(c, s, step.ok);
    } else if step.Start? {
      StartPinned(c, s);
    } else if step.Kill? || step.PowerLoss? || step.PersistFailed? {
      CrashPinned(c, s, step);
    } else if step.Cancel? || step.Offer? {
      OfferPinned(c, s, step);
    } else if step.Send? || step.Ack? || step.NoAck? {
      PublishPinned(c, s, step);
    } else if step.NatsUp? || step.NatsDown? || step.Store? {
      EnvironmentPinned(c, s, step);
    } else {
      LoopStaysPinned(c, s, step);
    }
  }

  lemma {:induction false} PinnedRun(c: Config, s: State, steps: seq<Step>)
    requires DistinctMessages(c) && Pinned(c) && Inv(c, s) && PinnedInv(c, s) && Legal(c, s, steps)
    ensures PinnedInv(c, Exec(c, s, steps))
    decreases |steps|
  {
    if steps != [] {
      PinnedStep(c, s, steps[0]);
      InvStep(c, s, steps[0]);
      PinnedRun(c, Apply(c, s, steps[0]), steps[1..]);
    }
  }

  ghost predicate LoadsInitialOnly(c: Config, s: State) {
    forall i :: 0 <= i < |s.loads| ==> s.loads[i] == c.initial
  }

  lemma LoadsNotBeforeInitial(c: Config, s: State)
    requires DistinctMessages(c) && Reachable(c, s)
    ensures LoadsFrom(s.loads, 0, c.initial)
  {
    var steps :| Legal(c, Init(), steps) && Exec(c, Init(), steps) == s;
    LaterLoads(c, Init(), steps, 0, c.initial);
  }

  lemma PinnedLoadsInitialOnly(c: Config, s: State)
    requires DistinctMessages(c) && Pinned(c) && Reachable(c, s)
    ensures LoadsInitialOnly(c, s)
  {
    var steps :| Legal(c, Init(), steps) && Exec(c, Init(), steps) == s;
    PinnedRun(c, Init(), steps);
    LoadsNotBeforeInitial(c, s);
  }

  // ----- A restart goes back -----

  /** The first run makes the initial block's cursor durable, and its process goes on. */
  lemma InitialCursorDurable(c: Config) returns (s: State)
    requires c.initial > 0
    ensures Ahead(c, Init(), s) && s == Load(c, Init()).(disk := [Some(c.initial)])
  {
    InitIsReachable(c);
    NowAhead(c, Init());
    s := Goes(c, Init(), Init(), Start);
    s := Goes(c, Init(), s, Tick);
    s := Goes(c, Init(), s, Rename);
    s := Goes(c, Init(), s, SyncDirectory(true));
    s := Goes(c, Init(), s, TryResume);
  }

  /** A run gets past the block after the initial one, with the initial cursor still the durable one. */
  lemma GetsPastNext(c: Config) returns (s: State)
    requires !Pinned(c)
    ensures Ahead(c, Init(), s) && Ready(s) && s.buffer == [] && s.nextBlock == c.initial + 2
    ensures s.disk != [] && s.disk[0] == Some(c.initial)
  {
    s := InitialCursorDurable(c);
    if c.capacity >= 1 {
      s := Connects(c, Init(), s);
      s := PublishesUpTo(c, Init(), s, c.initial + 2);
    } else {
      s := RestartsFromCursor(c, Init(), s);
      s := CrossesEmptyBlock(c, Init(), s);
    }
  }

  /**
   A process killed between rename and directory sync is restarted from the renamed file; then a power
   loss brings the previous file back, and the next restart loads a smaller cursor.
   */
  lemma RestartsCanGoBack(c: Config) returns (s: State)
    requires DistinctMessages(c) && !Pinned(c)
    ensures Reachable(c, s) && !Ascending(s.loads)
  {
    var t := GetsPastNext(c);
    TightCursor(c, t);
    var u := RestartsFromCursor(c, Init(), t);
    s := LoadsOldest(c, Init(), u);
    var n := |u.loads|;
    assert s.loads[n - 1] == t.cursor > c.initial && s.loads[n] == c.initial;
  }

  /** Over all histories, restarts load ascending cursors exactly when the cursor cannot leave the initial block. */
  lemma RestartsAscendExactly(c: Config)
    requires DistinctMessages(c)
    ensures (forall s :: Reachable(c, s) ==> Ascending(s.loads)) <==> Pinned(c)
  {
    if Pinned(c) {
      forall s | Reachable(c, s)
        ensures Ascending(s.loads)
      {
        PinnedLoadsInitialOnly(c, s);
      }
    } else {
      var s := RestartsCanGoBack(c);
    }
  }
}

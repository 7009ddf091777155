/** Shutdown and restart: what is read again, and which messages can be lost for good. */
module Losses {
  import opened Wrappers
  import opened Protocol
  import opened Safety
  import opened Guarantees
  import opened Order
  import opened OrderExact
  import opened Runs

  // ----- What a restart reads again -----

  /**
   A restart reads the block of an unacknowledged message again exactly when the block lies above the
   initial one, or no cursor has been persisted.
   */
  lemma RestartReadsAgainExactly(c: Config, s: State, b: nat, m: Message)
    requires DistinctMessages(c) && Reachable(c, s) && Enabled(c, s, Start)
    requires b >= c.initial && m in c.canon(b) && m !in s.acked
    ensures Apply(c, s, Start).start <= b <==> b > c.initial || Visible(s.disk).None?
  {
    ReachableInv(c, s);
    assert Visible(s.disk).Some? ==> SafeUpTo(c, s.acked, Visible(s.disk).value);
  }

  /** The shutdown path up to the end of the process, the directory sync failing or not. */
  lemma ShutsDown(c: Config, s: State, t: State, ok: bool) returns (u: State)
    requires Ahead(c, s, t) && (t.pc.Idle? || t.pc.Preempted?) && t.disk != []
    ensures Ahead(c, s, u) && u.pc.Down?
    ensures u.disk == if ok then [Some(t.cursor)] else t.disk + [Some(t.cursor)]
    ensures u.stored == t.stored && u.sent == t.sent && u.acked == t.acked && u.buffer == []
  {
    u := Goes(c, s, t, Step.Shutdown);
    u := Goes(c, s, u, Rename);
    u := Goes(c, s, u, SyncDirectory(ok));
  }

  /**
   A graceful shutdown publishes nothing: the stream is as it was, what was buffered is gone, and the
   next run reads an unacknowledged message's block again exactly when it lies above the initial one.
   */
  lemma ShutdownOnlyPersists(c: Config, s: State, ok: bool) returns (t: State)
    requires DistinctMessages(c) && Reachable(c, s) && (s.pc.Idle? || s.pc.Preempted?)
    ensures Ahead(c, s, t) && Enabled(c, t, Start)
    ensures t.stored == s.stored && t.acked == s.acked && t.buffer == []
    ensures forall b: nat, m :: b >= c.initial && m in c.canon(b) && m !in s.acked ==>
              (Apply(c, t, Start).start <= b <==> b > c.initial)
  {
    ReachableInv(c, s);
    NowAhead(c, s);
    t := ShutsDown(c, s, s, ok);
    forall b: nat, m | b >= c.initial && m in c.canon(b) && m !in s.acked
      ensures Apply(c, t, Start).start <= b <==> b > c.initial
    {
      RestartReadsAgainExactly(c, t, b, m);
    }
  }

  // ----- What a run holds -----

  /** The message is in a block that the current run reads. */
  ghost predicate OfThisRun(c: Config, s: State, m: Message) {
    exists b: nat :: b >= s.start && m in c.canon(b)
  }

  /** What is buffered or being flushed has been read by the current run. */
  ghost predicate HoldsItsOwn(c: Config, s: State) {
    forall m :: Held(s, m) ==> OfThisRun(c, s, m)
  }

  lemma PublishesItsOwn(c: Config, s: State)
    requires RunInv(c, s) && (s.pc.Offered? || s.pc.InFlight?)
    ensures OfThisRun(c, s, s.pc.m)
  {
    var b := OfferedIsAhead(c, s);
  }

  lemma HoldsItsOwnAfter(c: Config, s: State, t: State)
    requires RunInv(c, s) && HoldsItsOwn(c, s) && HoldsNoMore(s, t) && t.start == s.start
    ensures HoldsItsOwn(c, t)
  {
    if s.pc.Offered? || s.pc.InFlight? {
      PublishesItsOwn(c, s);
    }
    assert forall m :: OfThisRun(c, s, m) ==> OfThisRun(c, t, m);
  }

  lemma HoldsItsOwnStep(c: Config, s: State, step: Step)
    requires Inv(c, s) && NothingFailed(s) && HoldsItsOwn(c, s) && Enabled(c, s, step)
    ensures HoldsItsOwn(c, Apply(c, s, step))
  {
    var t := Apply(c, s, step);
    if step.Store? {
      assert forall m :: OfThisRun(c, s, m) ==> OfThisRun(c, t, m);
    } else if step.Kill? || step.PowerLoss? || step.Start? {
      CrashWaits(c, s, step);
    } else if step.Send? {
      SendAddsOne(c, s);
      HoldsItsOwnAfter(c, s, t);
    } else {
      QuietStep(c, s, step);
      HoldsItsOwnAfter(c, s, t);
    }
  }

  lemma {:induction false} HoldsItsOwnRun(c: Config, s: State, steps: seq<Step>)
    requires DistinctMessages(c) && Inv(c, s) && OrderInv(c, s) && HoldsItsOwn(c, s) && Legal(c, s, steps)
    ensures HoldsItsOwn(c, Exec(c, s, steps))
    decreases |steps|
  {
    if steps != [] {
      HoldsItsOwnStep(c, s, steps[0]);
      InvStep(c, s, steps[0]);
      OrderStep(c, s, steps[0]);
      HoldsItsOwnRun(c, Apply(c, s, steps[0]), steps[1..]);
    }
  }

  lemma ReachableHoldsItsOwn(c: Config, s: State)
    requires DistinctMessages(c) && Reachable(c, s)
    ensures HoldsItsOwn(c, s)
  {
    var steps :| Legal(c, Init(), steps) && Exec(c, Init(), steps) == s;
    InitIsOrderly(c);
    HoldsItsOwnRun(c, Init(), steps);
  }

  // ----- Lost for good -----

  /** Whatever happens from here on, the message never reaches the stream. */
  ghost predicate Lost(c: Config, s: State, m: Message) {
    forall t :: Leads(c, s, t) ==> m !in t.stored
  }

  /** Every version of the file that can come back records a cursor. */
  ghost predicate CursorIsDurable(s: State) {
    forall i :: 0 <= i < |s.disk| ==> s.disk[i].Some?
  }

  /** No process is at work on the initial block any more. */
  ghost predicate PastInitialBlock(c: Config, s: State) {
    s.pc.Down? || s.start > c.initial || ShuttingDown(s)
  }

  /** A message of the initial block that was never sent, and that no run will read again. */
  ghost predicate Forgotten(c: Config, s: State, m: Message) {
    CursorIsDurable(s) && PastInitialBlock(c, s) && m !in s.sent
  }

  lemma CursorStaysDurable(c: Config, s: State, step: Step)
    requires DiskInv(c, s) && CursorIsDurable(s) && Enabled(c, s, step)
    ensures CursorIsDurable(Apply(c, s, step))
  {
    if !TouchesFile(step) {
      HistoryUntouched(c, s, step);
    }
  }

  ghost predicate StillShutsDown(s: State, t: State) {
    t.sent == s.sent && (t.pc.Down? || ShuttingDown(t))
  }

  lemma PersistSendsNothing(c: Config, s: State, step: Step)
    requires ShuttingDown(s) && Enabled(c, s, step) && (step.Rename? || step.PersistFailed? || step.SyncDirectory?)
    ensures StillShutsDown(s, Apply(c, s, step))
  {
  }

  lemma ShutdownSendsNothing(c: Config, s: State, step: Step)
    requires ShuttingDown(s) && Enabled(c, s, step)
    ensures StillShutsDown(s, Apply(c, s, step))
  {
    if step.Rename? || step.PersistFailed? || step.SyncDirectory? {
      PersistSendsNothing(c, s, step);
    }
  }

  lemma CrashForgets(c: Config, s: State, step: Step)
    requires DiskInv(c, s) && CursorIsDurable(s) && Enabled(c, s, step)
    requires step.Kill? || step.PowerLoss? || step.Start?
    ensures var t := Apply(c, s, step); t.sent == s.sent && PastInitialBlock(c, t)
  {
    CrashWaits(c, s, step);
  }

  /** A run that starts above the initial block neither holds nor publishes its messages. */
  lemma NotOfThisRun(c: Config, s: State, m: Message)
    requires DistinctMessages(c) && m in c.canon(c.initial) && s.start > c.initial
    ensures !OfThisRun(c, s, m)
  {
    forall b: nat | b >= s.start
      ensures m !in c.canon(b)
    {
      OneBlock(c, b, c.initial, m);
    }
  }

  lemma LaterRunForgets(c: Config, s: State, m: Message, step: Step)
    requires DistinctMessages(c) && RunInv(c, s) && NothingFailed(s) && HoldsItsOwn(c, s) && Enabled(c, s, step)
    requires m in c.canon(c.initial) && s.start > c.initial && m !in s.sent && !s.pc.Down?
    requires !step.Kill? && !step.PowerLoss? && !step.Start? && !step.Store?
    ensures var t := Apply(c, s, step); m !in t.sent && t.start > c.initial
  {
    NotOfThisRun(c, s, m);
    assert !Waits(s, m);
    if step.Send? {
      PublishesItsOwn(c, s);
      SendAddsOne(c, s);
    } else {
      QuietStep(c, s, step);
    }
    assert !Waits(Apply(c, s, step), m);
  }

  lemma ForgottenStep(c: Config, s: State, m: Message, step: Step)
    requires DistinctMessages(c) && Inv(c, s) && NothingFailed(s) && HoldsItsOwn(c, s) && Enabled(c, s, step)
    requires m in c.canon(c.initial) && Forgotten(c, s, m)
    ensures Forgotten(c, Apply(c, s, step), m)
  {
    CursorStaysDurable(c, s, step);
    if step.Kill? || step.PowerLoss? || step.Start? {
      CrashForgets(c, s, step);
    } else if ShuttingDown(s) {
      ShutdownSendsNothing(c, s, step);
    } else if !step.Store? {
      LaterRunForgets(c, s, m, step);
    }
  }

  lemma {:induction false} ForgottenRun(c: Config, s: State, m: Message, steps: seq<Step>)
    requires DistinctMessages(c) && Inv(c, s) && OrderInv(c, s) && HoldsItsOwn(c, s) && Legal(c, s, steps)
    requires m in c.canon(c.initial) && Forgotten(c, s, m)
    ensures m !in Exec(c, s, steps).stored
    decreases |steps|
  {
    if steps != [] {
      ForgottenStep(c, s, m, steps[0]);
      HoldsItsOwnStep(c, s, steps[0]);
      InvStep(c, s, steps[0]);
      OrderStep(c, s, steps[0]);
      ForgottenRun(c, Apply(c, s, steps[0]), m, steps[1..]);
    }
  }

  lemma ForgottenIsLost(c: Config, s: State, m: Message)
    requires DistinctMessages(c) && Reachable(c, s) && m in c.canon(c.initial) && Forgotten(c, s, m)
    ensures Lost(c, s, m)
  {
    ReachableInv(c, s);
    ReachableOrder(c, s);
    ReachableHoldsItsOwn(c, s);
    forall t | Leads(c, s, t)
      ensures m !in t.stored
    {
      var steps :| Legal(c, s, steps) && Exec(c, s, steps) == t;
      ForgottenRun(c, s, m, steps);
    }
  }

  // ----- Not lost -----

  /** Ready, connected and with nothing buffered, a run publishes every block from its start on. */
  lemma StoresBlock(c: Config, s: State, t: State, b: nat, m: Message) returns (u: State)
    requires DistinctMessages(c) && !Silent(c) && Ahead(c, s, t) && Ready(t) && t.conn.Connected? && t.buffer == []
    requires b >= t.start && m in c.canon(b)
    ensures Ahead(c, s, u) && m in u.stored
  {
    u := t;
    if t.nextBlock <= b {
      u := PublishesUpTo(c, s, t, b + 1);
    }
    NoMessageIsLost(c, u, b, m);
  }

  /** From any state, a fresh run with a working connection. */
  lemma FreshRun(c: Config, s: State, t: State) returns (u: State)
    requires Ahead(c, s, t) && t.disk != [] && c.initial > 0
    ensures Ahead(c, s, u) && Ready(u) && u.conn.Connected? && u.buffer == []
    ensures u.start == match Visible(t.disk) case None => c.initial case Some(v) => v + 1
  {
    u := t;
    if !u.pc.Down? {
      u := Goes(c, s, u, Kill);
    }
    u := Goes(c, s, u, Start);
    u := Connects(c, s, u);
  }

  /** Whatever has happened, a message above the initial block can still reach the stream. */
  lemma CanStillBeStored(c: Config, s: State, b: nat, m: Message) returns (t: State)
    requires DistinctMessages(c) && Reachable(c, s) && !Silent(c)
    requires b > c.initial && m in c.canon(b)
    ensures Leads(c, s, t) && m in t.stored
  {
    ReachableInv(c, s);
    NowAhead(c, s);
    t := FreshRun(c, s, s);
    if t.start <= b {
      t := StoresBlock(c, s, t, b, m);
    } else {
      ReachableInv(c, t);
      assert SafeUpTo(c, t.acked, t.start - 1);
    }
  }

  /** A message once handed to the network can still arrive. */
  lemma SentCanArrive(c: Config, s: State, m: Message) returns (t: State)
    requires DistinctMessages(c) && Reachable(c, s) && m in s.sent
    ensures Leads(c, s, t) && m in t.stored
  {
    ReachableInv(c, s);
    NowAhead(c, s);
    t := s;
    if HasId(s.stored, m) {
      StoredIsTheMessage(c, s, m);
    } else {
      t := Goes(c, s, s, Store(m));
    }
  }

  /** A power loss that brings back the time before the first persist makes the next run read the initial block. */
  lemma FileCanVanish(c: Config, s: State, m: Message) returns (t: State)
    requires DistinctMessages(c) && Reachable(c, s) && !Silent(c) && m in c.canon(c.initial) && !CursorIsDurable(s)
    ensures Leads(c, s, t) && m in t.stored
  {
    var i :| 0 <= i < |s.disk| && s.disk[i].None?;
    NowAhead(c, s);
    t := Goes(c, s, s, PowerLoss(i));
    t := FreshRun(c, s, t);
    t := StoresBlock(c, s, t, c.initial, m);
  }

  /** A run that started at the initial block can still publish it, unless it is shutting down. */
  lemma FirstRunCanGoOn(c: Config, s: State, m: Message) returns (t: State)
    requires DistinctMessages(c) && Reachable(c, s) && !Silent(c) && m in c.canon(c.initial) && !PastInitialBlock(c, s)
    ensures Leads(c, s, t) && m in t.stored
  {
    NowAhead(c, s);
    t := Recovers(c, s, s);
    t := StoresBlock(c, s, t, c.initial, m);
  }

  // ----- The exact conditions -----

  /**
   In any reachable state a message of the chain is lost for good exactly when it is in the initial block,
   was never sent, and no run will read that block again: a cursor is durable, and the process is down,
   shutting down, or started above (or the configuration publishes nothing at all).
   */
  lemma LostExactly(c: Config, s: State, b: nat, m: Message)
    requires DistinctMessages(c) && Reachable(c, s) && b >= c.initial && m in c.canon(b)
    ensures Lost(c, s, m) <==> Silent(c) || (b == c.initial && Forgotten(c, s, m))
  {
    if Silent(c) {
      SilenceLoses(c, s, m);
    } else if b > c.initial {
      var t := CanStillBeStored(c, s, b, m);
    } else if Forgotten(c, s, m) {
      ForgottenIsLost(c, s, m);
    } else if m in s.sent {
      var t := SentCanArrive(c, s, m);
    } else if !CursorIsDurable(s) {
      var t := FileCanVanish(c, s, m);
    } else {
      var t := FirstRunCanGoOn(c, s, m);
    }
  }

  lemma SilenceLoses(c: Config, s: State, m: Message)
    requires Silent(c) && Reachable(c, s)
    ensures Lost(c, s, m)
  {
    SilentReachable(c, s);
    forall t | Leads(c, s, t)
      ensures m !in t.stored
    {
      var steps :| Legal(c, s, steps) && Exec(c, s, steps) == t;
      SilentRun(c, s, steps);
    }
  }

  /** A graceful shutdown with a synced cursor loses exactly the messages of the initial block that were never sent. */
  lemma ShutdownLosesExactly(c: Config, s: State) returns (t: State)
    requires DistinctMessages(c) && Reachable(c, s) && (s.pc.Idle? || s.pc.Preempted?) && !Silent(c)
    ensures Ahead(c, s, t) && t.pc.Down?
    ensures forall b: nat, m :: b >= c.initial && m in c.canon(b) ==>
        (Lost(c, t, m) <==> b == c.initial && m !in s.sent)
  {
    ReachableInv(c, s);
    NowAhead(c, s);
    t := ShutsDown(c, s, s, true);
    forall b: nat, m | b >= c.initial && m in c.canon(b)
      ensures Lost(c, t, m) <==> b == c.initial && m !in s.sent
    {
      LostExactly(c, t, b, m);
    }
  }

  /** Disconnected, a batch is buffered until it ends or the buffer is full, and the process is free to shut down. */
  lemma {:induction false} BuffersOn(c: Config, s: State, t: State) returns (u: State)
    requires Ahead(c, s, t) && t.pc.Publishing? && t.conn.Disconnected?
    ensures Ahead(c, s, u) && (u.pc.Idle? || u.pc.Preempted?)
    ensures t.buffer <= u.buffer && u.sent == t.sent && u.disk == t.disk
    decreases |t.pc.todo|
  {
    if Full(c, t) {
      u := Goes(c, s, t, Cancel);
    } else if t.pc.todo == [] {
      u := Goes(c, s, t, EndBatch);
    } else {
      u := BuffersOne(c, s, t);
      u := BuffersOn(c, s, u);
    }
  }

  lemma BuffersOne(c: Config, s: State, t: State) returns (u: State)
    requires Ahead(c, s, t) && t.pc.Publishing? && t.pc.todo != [] && t.conn.Disconnected? && !Full(c, t)
    ensures Ahead(c, s, u) && u.pc == Publishing(t.pc.todo[1..], t.pc.batch) && u.conn == t.conn
    ensures u.buffer == t.buffer + [t.pc.todo[0]] && u.sent == t.sent && u.disk == t.disk
  {
    u := Goes(c, s, t, Offer);
    u := Goes(c, s, u, Send);
  }

  /** The connection breaks as the first message of the initial block is offered: it is buffered, never sent. */
  lemma BufferedInFirstBatch(c: Config) returns (s: State)
    requires !Silent(c) && c.canon(c.initial) != []
    ensures Ahead(c, Init(), s) && (s.pc.Idle? || s.pc.Preempted?)
    ensures c.canon(c.initial)[0] in s.buffer && s.sent == {} && s.disk == [None]
  {
    s := FirstRun(c);
    s := Begins(c, Init(), s);
    s := BreaksAtOffer(c, Init(), s);
    var first := s.buffer;
    s := BuffersOn(c, Init(), s);
    assert s.buffer[0] == first[0];
  }

  lemma BreaksAtOffer(c: Config, s: State, t: State) returns (u: State)
    requires Ahead(c, s, t) && t.pc.Publishing? && t.pc.todo != [] && t.conn.Connected? && !Full(c, t)
    ensures Ahead(c, s, u) && u.pc == Publishing(t.pc.todo[1..], t.pc.batch) && u.conn.Disconnected?
    ensures u.buffer == t.buffer + [t.pc.todo[0]] && u.sent == t.sent && u.disk == t.disk
  {
    u := Goes(c, s, t, Offer);
    u := Goes(c, s, u, NatsDown);
    u := Goes(c, s, u, Send);
  }

  /** A message that was read and buffered, lost by a graceful shutdown. */
  lemma ShutdownLosesBufferedMessage(c: Config) returns (s: State, t: State)
    requires DistinctMessages(c) && !Silent(c) && c.canon(c.initial) != []
    ensures var m := c.canon(c.initial)[0];
            && Reachable(c, s) && (s.pc.Idle? || s.pc.Preempted?) && m in s.buffer
            && Reachable(c, t) && t.pc.Down? && Lost(c, t, m)
  {
    s := BufferedInFirstBatch(c);
    t := ShutsDown(c, Init(), s, true);
    LostExactly(c, t, c.initial, c.canon(c.initial)[0]);
  }

  /**
   A message of the chain can be lost for good exactly when it is in the initial block (or the
   configuration publishes nothing at all).
   */
  lemma LossIsPossibleExactlyInInitialBlock(c: Config, b: nat, m: Message)
    requires DistinctMessages(c) && b >= c.initial && m in c.canon(b)
    ensures (exists s :: Reachable(c, s) && Lost(c, s, m)) <==> b == c.initial || Silent(c)
  {
    InitIsReachable(c);
    if Silent(c) {
      SilenceLoses(c, Init(), m);
    } else if b == c.initial {
      var s := FirstRun(c);
      s := ShutsDown(c, Init(), s, true);
      LostExactly(c, s, b, m);
    } else {
      forall s | Reachable(c, s)
        ensures !Lost(c, s, m)
      {
        LostExactly(c, s, b, m);
      }
    }
  }
}

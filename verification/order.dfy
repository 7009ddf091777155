/**
 The order in which messages first enter the stream when no publish fails: canonical order, however
 often batches are cancelled and read again and however late the network delivers.
 */
module Order {
  import opened Wrappers
  import opened Spans
  import opened Protocol
  import opened Safety

  // ----- Positions in the canonical sequence -----

  ghost predicate Position(c: Config, m: Message, hi: nat, i: nat) {
    var w := Span(c.canon, c.initial, hi);
    i < |w| && w[i] == m
  }

  lemma {:induction false} SpanPrefix(c: Config, lo: nat, a: nat, b: nat)
    requires a <= b
    ensures Span(c.canon, lo, a) <= Span(c.canon, lo, b)
    decreases b - a
  {
    if a < b {
      SpanPrefix(c, lo, a, b - 1);
    }
  }

  lemma OneBlock(c: Config, a: nat, b: nat, m: Message)
    requires DistinctMessages(c)
    ensures m in c.canon(a) && m in c.canon(b) ==> a == b
  {
    assert m.Checksum() == m.Checksum();
  }

  /** No message occurs twice in a span. */
  lemma {:induction false} SpanDistinct(c: Config, lo: nat, hi: int, i: nat, j: nat)
    requires DistinctMessages(c)
    requires i < j < |Span(c.canon, lo, hi)|
    ensures Span(c.canon, lo, hi)[i] != Span(c.canon, lo, hi)[j]
    decreases hi - lo
  {
    var before, block := Span(c.canon, lo, hi - 1), c.canon(hi - 1);
    var w := before + block;
    assert w == Span(c.canon, lo, hi);
    if j < |before| {
      SpanDistinct(c, lo, hi - 1, i, j);
    } else if i >= |before| {
      assert block[i - |before|] != block[j - |before|];
    } else {
      var b := SpanOrigin(c.canon, lo, hi - 1, before[i]);
      OneBlock(c, b, hi - 1, before[i]);
    }
  }

  /** A prefix of the canonical sequence that holds its first n messages is at least n long. */
  lemma HoldsFirst(c: Config, stored: seq<Message>, hi: nat, n: nat)
    requires DistinctMessages(c)
    requires var w := Span(c.canon, c.initial, hi);
             stored <= w && n <= |w| && forall j :: 0 <= j < n ==> w[j] in stored
    ensures n <= |stored|
  {
    var w := Span(c.canon, c.initial, hi);
    if |stored| < n {
      var k :| 0 <= k < |stored| && stored[k] == w[|stored|];
      SpanDistinct(c, c.initial, hi, k, |stored|);
    }
  }

  ghost predicate PrefixOfCanon(c: Config, stored: seq<Message>) {
    exists hi: nat :: stored <= Span(c.canon, c.initial, hi)
  }

  /** Whatever comes before m in the canonical sequence is already stored. */
  ghost predicate InReach(c: Config, stored: seq<Message>, m: Message) {
    forall hi: nat, i: nat :: Position(c, m, hi, i) ==> i <= |stored|
  }

  // ----- The invariant -----

  ghost predicate LaterBlocksEmpty(c: Config) {
    forall b: nat :: b > c.initial ==> c.canon(b) == []
  }

  /** A restart that skips the initial block does not skip a message that others follow. */
  ghost predicate SkippingIsHarmless(c: Config) {
    c.canon(c.initial) == [] || LaterBlocksEmpty(c)
  }

  /**
   A message is in front of nothing but the network: no publish has failed, or the buffer has so little
   room that a failed message goes out before the next one; and no restart has skipped a message.
   */
  ghost predicate Orderly(c: Config, s: State) {
    && (s.clean || c.capacity <= 1)
    && (s.runs <= 1 || SkippingIsHarmless(c))
  }

  /** In the buffer or in a running flush. */
  ghost predicate Held(s: State, m: Message) {
    m in s.buffer || m in Drained(s)
  }

  /** The message may still be, or be again, on its way to the stream. */
  ghost predicate Waits(s: State, m: Message) {
    m in s.sent || Held(s, m)
  }

  /** What is held now was held before, or was being published. */
  ghost predicate HoldsNoMore(s: State, t: State) {
    forall m :: Held(t, m) ==> Held(s, m) || ((s.pc.Offered? || s.pc.InFlight?) && m == s.pc.m)
  }

  ghost predicate WaitingInReach(c: Config, s: State) {
    forall m :: Waits(s, m) ==> InReach(c, s.stored, m)
  }

  ghost predicate NothingFailed(s: State) {
    s.clean ==> s.buffer == [] && !s.pc.Flushing?
  }

  ghost predicate OrderInv(c: Config, s: State) {
    && (s.runs == 0 ==> s.pc.Down? && s.disk == [None])
    && (s.runs == 1 && !s.pc.Down? ==> s.start == c.initial)
    && NothingFailed(s)
    && (Orderly(c, s) ==> PrefixOfCanon(c, s.stored) && WaitingInReach(c, s))
  }

  lemma StoreKeepsOrder(c: Config, stored: seq<Message>, m: Message)
    requires PrefixOfCanon(c, stored) && InReach(c, stored, m) && IsCanon(c, m) && m !in stored
    ensures PrefixOfCanon(c, stored + [m])
  {
    var hi: nat :| stored <= Span(c.canon, c.initial, hi);
    var b, i := CanonPosition(c, m);
    assert Position(c, m, b + 1, i);
    var top := Max(hi, b + 1);
    SpanPrefix(c, c.initial, hi, top);
    SpanPrefix(c, c.initial, b + 1, top);
    var w := Span(c.canon, c.initial, top);
    PrefixAgrees(stored, w, i);
    assert stored + [m] <= w;
  }

  lemma CanonPosition(c: Config, m: Message) returns (b: nat, i: nat)
    requires IsCanon(c, m)
    ensures Position(c, m, b + 1, i)
  {
    b :| b >= c.initial && m in c.canon(b);
    SpanContains(c.canon, c.initial, b + 1, b, m);
    var w := Span(c.canon, c.initial, b + 1);
    i :| 0 <= i < |w| && w[i] == m;
  }

  lemma PrefixAgrees(a: seq<Message>, b: seq<Message>, i: nat)
    requires a <= b && i < |b|
    ensures i < |a| ==> a[i] == b[i] && b[i] in a
  {
  }

  // ----- The message being published -----

  lemma OfferedIsAhead(c: Config, s: State) returns (b: nat)
    requires BatchInv(c, s) && (s.pc.Offered? || s.pc.InFlight?)
    ensures b >= s.nextBlock && s.pc.m in c.canon(b)
  {
    HeadOfSuffix(Span(c.canon, s.nextBlock, s.pc.batch.last + 1), BatchTodo(s));
    b := SpanOrigin(c.canon, s.nextBlock, s.pc.batch.last + 1, s.pc.m);
  }

  lemma HeadOfSuffix(whole: seq<Message>, todo: seq<Message>)
    requires todo != [] && |todo| <= |whole| && todo == whole[|whole| - |todo|..]
    ensures todo[0] in whole
  {
    assert todo[0] == whole[|whole| - |todo|];
  }

  /** When an orderly run offers a message, nothing is buffered, and it has not skipped a message. */
  lemma OrderlyOffer(c: Config, s: State)
    requires RunInv(c, s) && OrderInv(c, s) && Orderly(c, s) && s.pc.Offered?
    ensures s.buffer == [] && (s.start == c.initial || c.canon(c.initial) == [])
  {
    if s.start > c.initial {
      var b := OfferedIsAhead(c, s);
    }
  }

  /** When an orderly run offers a message, every message of the blocks before the next one is stored. */
  lemma EarlierBlocksAreStored(c: Config, s: State, m: Message)
    requires RunInv(c, s) && StreamInv(c, s) && s.pc.Offered?
    requires s.buffer == [] && (s.start == c.initial || c.canon(c.initial) == [])
    requires m in Span(c.canon, c.initial, s.nextBlock)
    ensures m in s.stored
  {
    var b := SpanOrigin(c.canon, c.initial, s.nextBlock, m);
    if b >= s.start {
      assert Covered(s, m);
    }
    assert m in s.acked;
  }

  ghost predicate FirstStored(c: Config, stored: seq<Message>, block: nat, n: nat) {
    var w := Span(c.canon, c.initial, block);
    n <= |w| && forall j :: 0 <= j < n ==> w[j] in stored
  }

  /** The canonical sequence up to the message being published; all but its last element is stored. */
  lemma PredecessorsStored(c: Config, s: State) returns (n: nat)
    requires RunInv(c, s) && StreamInv(c, s) && s.pc.Offered?
    requires s.buffer == [] && (s.start == c.initial || c.canon(c.initial) == [])
    ensures Position(c, s.pc.m, s.pc.batch.last + 1, n)
    ensures FirstStored(c, s.stored, s.pc.batch.last + 1, n)
  {
    var before, whole := Span(c.canon, c.initial, s.nextBlock), Span(c.canon, s.nextBlock, s.pc.batch.last + 1);
    var k := EarlierInBatchAreStored(c, s);
    SpanJoin(c.canon, c.initial, s.nextBlock, s.pc.batch.last + 1);
    n := |before| + k;
    forall j | 0 <= j < |before|
      ensures before[j] in s.stored
    {
      EarlierBlocksAreStored(c, s, before[j]);
    }
    JoinStored(s.stored, before, whole, k);
  }

  /** The messages of the batch before the one being published. */
  lemma EarlierInBatchAreStored(c: Config, s: State) returns (k: nat)
    requires RunInv(c, s) && StreamInv(c, s) && s.pc.Offered? && s.buffer == []
    ensures var whole := Span(c.canon, s.nextBlock, s.pc.batch.last + 1);
            k < |whole| && whole[k] == s.pc.m && forall j :: 0 <= j < k ==> whole[j] in s.stored
  {
    var whole := Span(c.canon, s.nextBlock, s.pc.batch.last + 1);
    k := |whole| - |BatchTodo(s)|;
    assert whole[k] == BatchTodo(s)[0] == s.pc.m;
    assert forall j :: 0 <= j < k ==> Covered(s, whole[j]);
  }

  lemma JoinStored(stored: seq<Message>, before: seq<Message>, whole: seq<Message>, k: nat)
    requires k <= |whole| && (forall j :: 0 <= j < |before| ==> before[j] in stored)
    requires forall j :: 0 <= j < k ==> whole[j] in stored
    ensures forall j :: 0 <= j < |before| + k ==> (before + whole)[j] in stored
  {
  }

  /** What is published next has all its predecessors stored. */
  lemma NextIsInReach(c: Config, s: State)
    requires DistinctMessages(c) && RunInv(c, s) && StreamInv(c, s) && OrderInv(c, s) && Orderly(c, s) && s.pc.Offered?
    ensures InReach(c, s.stored, s.pc.m)
  {
    OrderlyOffer(c, s);
    var n := PredecessorsStored(c, s);
    PositionInReach(c, s.stored, s.pc.m, s.pc.batch.last + 1, n);
  }

  lemma PositionInReach(c: Config, stored: seq<Message>, m: Message, block: nat, n: nat)
    requires DistinctMessages(c) && PrefixOfCanon(c, stored) && Position(c, m, block, n)
    requires FirstStored(c, stored, block, n)
    ensures InReach(c, stored, m)
  {
    var top: nat :| stored <= Span(c.canon, c.initial, top);
    forall hi: nat, i: nat | Position(c, m, hi, i)
      ensures i <= |stored|
    {
      var all := Max(Max(hi, block), top);
      SpanPrefix(c, c.initial, hi, all);
      SpanPrefix(c, c.initial, block, all);
      SpanPrefix(c, c.initial, top, all);
      SameIndex(c, all, i, n);
      HoldsFirst(c, stored, all, n);
    }
  }

  lemma SameIndex(c: Config, hi: nat, i: nat, j: nat)
    requires DistinctMessages(c)
    requires var w := Span(c.canon, c.initial, hi); i < |w| && j < |w| && w[i] == w[j]
    ensures i == j
  {
    if i < j {
      SpanDistinct(c, c.initial, hi, i, j);
    } else if j < i {
      SpanDistinct(c, c.initial, hi, j, i);
    }
  }

  // ----- Steps -----

  lemma StoreStepOrder(c: Config, s: State, m: Message)
    requires DistinctMessages(c) && StreamInv(c, s) && OrderInv(c, s) && Enabled(c, s, Store(m))
    ensures OrderInv(c, Apply(c, s, Store(m)))
  {
    if Orderly(c, s) {
      assert Waits(s, m) && m !in s.stored;
      StoreKeepsOrder(c, s.stored, m);
      forall n | Waits(Apply(c, s, Store(m)), n)
        ensures InReach(c, s.stored + [m], n)
      {
        assert Waits(s, n) && InReach(c, s.stored, n);
      }
    }
  }

  lemma SendStepOrder(c: Config, s: State)
    requires DistinctMessages(c) && Inv(c, s) && OrderInv(c, s) && Enabled(c, s, Send)
    ensures OrderInv(c, Apply(c, s, Send))
  {
    if Orderly(c, s) {
      NextIsInReach(c, s);
    }
    SendAddsOne(c, s);
  }

  /** At most m waits that did not wait before. */
  ghost predicate AddsOne(s: State, t: State, m: Message) {
    && t.stored == s.stored && t.runs == s.runs && t.start == s.start && !t.pc.Down?
    && (t.clean ==> s.clean) && NothingFailed(t)
    && HoldsNoMore(s, t)
    && forall n :: Waits(t, n) ==> Waits(s, n) || n == m
  }

  lemma ConnectedSendAddsOne(c: Config, s: State)
    requires Enabled(c, s, Send) && NothingFailed(s) && s.conn.Connected?
    ensures AddsOne(s, Apply(c, s, Send), s.pc.m)
  {
  }

  lemma DisconnectedSendAddsOne(c: Config, s: State)
    requires Enabled(c, s, Send) && NothingFailed(s) && s.conn.Disconnected?
    ensures AddsOne(s, Apply(c, s, Send), s.pc.m)
  {
  }

  lemma SendAddsOne(c: Config, s: State)
    requires Enabled(c, s, Send) && NothingFailed(s)
    ensures AddsOne(s, Apply(c, s, Send), s.pc.m)
  {
    if s.conn.Connected? {
      ConnectedSendAddsOne(c, s);
    } else {
      DisconnectedSendAddsOne(c, s);
    }
  }

  /** Nothing is stored, and nothing waits that did not wait before. */
  ghost predicate Quiet(s: State, t: State) {
    && t.stored == s.stored && t.runs == s.runs && t.start == s.start && !s.pc.Down?
    && (t.clean ==> s.clean) && NothingFailed(t) && HoldsNoMore(s, t)
    && (forall m :: Waits(t, m) ==> Waits(s, m))
  }

  lemma QuietOrder(c: Config, s: State, t: State)
    requires OrderInv(c, s) && Quiet(s, t)
    ensures OrderInv(c, t)
  {
  }

  lemma CrashStepOrder(c: Config, s: State, step: Step)
    requires OrderInv(c, s) && Enabled(c, s, step)
    requires step.Kill? || step.PowerLoss? || step.Start?
    ensures OrderInv(c, Apply(c, s, step))
  {
    CrashWaits(c, s, step);
  }

  lemma CrashWaits(c: Config, s: State, step: Step)
    requires Enabled(c, s, step) && (step.Kill? || step.PowerLoss? || step.Start?)
    ensures var t := Apply(c, s, step);
            && t.stored == s.stored && t.sent == s.sent && t.clean == s.clean && s.runs <= t.runs
            && forall m :: !Held(t, m)
  {
  }

  lemma TickQuiet(c: Config, s: State)
    requires Enabled(c, s, Tick) && NothingFailed(s)
    ensures Quiet(s, Apply(c, s, Tick))
  {
  }

  lemma RenameQuiet(c: Config, s: State)
    requires Enabled(c, s, Rename) && NothingFailed(s)
    ensures Quiet(s, Apply(c, s, Rename))
  {
  }

  lemma PersistFailedQuiet(c: Config, s: State)
    requires Enabled(c, s, PersistFailed) && NothingFailed(s)
    ensures Quiet(s, Apply(c, s, PersistFailed))
  {
  }

  lemma SyncDirectoryQuiet(c: Config, s: State, ok: bool)
    requires Enabled(c, s, SyncDirectory(ok)) && NothingFailed(s)
    ensures Quiet(s, Apply(c, s, SyncDirectory(ok)))
  {
  }

  lemma StateChangeQuiet(c: Config, s: State)
    requires Enabled(c, s, StateChange) && NothingFailed(s)
    ensures Quiet(s, Apply(c, s, StateChange))
  {
  }

  lemma HandleChangeQuiet(c: Config, s: State)
    requires Enabled(c, s, HandleChange) && NothingFailed(s)
    ensures Quiet(s, Apply(c, s, HandleChange))
  {
  }

  lemma TryResumeQuiet(c: Config, s: State)
    requires Enabled(c, s, TryResume) && NothingFailed(s)
    ensures Quiet(s, Apply(c, s, TryResume))
  {
  }

  lemma ResumeQuiet(c: Config, s: State)
    requires Enabled(c, s, Resume) && NothingFailed(s)
    ensures Quiet(s, Apply(c, s, Resume))
  {
  }

  lemma SettleQuiet(c: Config, s: State)
    requires Enabled(c, s, Settle) && NothingFailed(s)
    ensures Quiet(s, Apply(c, s, Settle))
  {
  }

  lemma EndBatchQuiet(c: Config, s: State)
    requires Enabled(c, s, EndBatch) && NothingFailed(s)
    ensures Quiet(s, Apply(c, s, EndBatch))
  {
  }

  lemma NoAckQuiet(c: Config, s: State)
    requires Enabled(c, s, NoAck) && NothingFailed(s) && PcInv(c, s)
    ensures Quiet(s, Apply(c, s, NoAck))
  {
  }

  lemma DrainQuiet(c: Config, s: State)
    requires Enabled(c, s, Drain) && NothingFailed(s)
    ensures Quiet(s, Apply(c, s, Drain))
  {
  }

  lemma FlushAckQuiet(c: Config, s: State)
    requires Enabled(c, s, FlushAck) && NothingFailed(s)
    ensures Quiet(s, Apply(c, s, FlushAck))
  {
  }

  lemma FlushNoAckQuiet(c: Config, s: State)
    requires Enabled(c, s, FlushNoAck) && NothingFailed(s)
    ensures Quiet(s, Apply(c, s, FlushNoAck))
  {
  }

  lemma BatchQuiet(c: Config, s: State, step: Step)
    requires Enabled(c, s, step) && NothingFailed(s) && (step.BeginBatch? || step.Offer? || step.Ack? || step.Cancel?)
    ensures Quiet(s, Apply(c, s, step))
  {
  }

  lemma FlagQuiet(c: Config, s: State, step: Step)
    requires Enabled(c, s, step) && NothingFailed(s)
    requires step.NatsUp? || step.NatsDown? || step.DelayOver? || step.NothingNew? || step.Shutdown?
    ensures Quiet(s, Apply(c, s, step))
  {
  }

  /** The steps of a running process that neither store nor offer anything new to the network. */
  lemma QuietStep(c: Config, s: State, step: Step)
    requires Enabled(c, s, step) && NothingFailed(s) && (step.NoAck? ==> PcInv(c, s))
    requires !step.Store? && !step.Send? && !step.Kill? && !step.PowerLoss? && !step.Start?
    ensures Quiet(s, Apply(c, s, step))
  {
    if step.BeginBatch? || step.Offer? || step.Ack? || step.Cancel? {
      BatchQuiet(c, s, step);
    } else if step.NatsUp? || step.NatsDown? || step.DelayOver? || step.NothingNew? || step.Shutdown? {
      FlagQuiet(c, s, step);
    } else if step.Tick? || step.Rename? || step.PersistFailed? || step.SyncDirectory? {
      PersistQuiet(c, s, step);
    } else {
      HandlerQuiet(c, s, step);
    }
  }

  lemma PersistQuiet(c: Config, s: State, step: Step)
    requires Enabled(c, s, step) && NothingFailed(s)
    requires step.Tick? || step.Rename? || step.PersistFailed? || step.SyncDirectory?
    ensures Quiet(s, Apply(c, s, step))
  {
    match step
    case Tick => TickQuiet(c, s);
    case Rename => RenameQuiet(c, s);
    case PersistFailed => PersistFailedQuiet(c, s);
    case SyncDirectory(ok) => SyncDirectoryQuiet(c, s, ok);
  }

  lemma HandlerQuiet(c: Config, s: State, step: Step)
    requires Enabled(c, s, step) && NothingFailed(s) && (step.NoAck? ==> PcInv(c, s))
    requires step.StateChange? || step.HandleChange? || step.TryResume? || step.Resume? || step.Settle? ||
        step.EndBatch? || step.NoAck? || step.Drain? || step.FlushAck? || step.FlushNoAck?
    ensures Quiet(s, Apply(c, s, step))
  {
    match step
    case StateChange => StateChangeQuiet(c, s);
    case HandleChange => HandleChangeQuiet(c, s);
    case TryResume => TryResumeQuiet(c, s);
    case Resume => ResumeQuiet(c, s);
    case Settle => SettleQuiet(c, s);
    case EndBatch => EndBatchQuiet(c, s);
    case NoAck => NoAckQuiet(c, s);
    case Drain => DrainQuiet(c, s);
    case FlushAck => FlushAckQuiet(c, s);
    case FlushNoAck => FlushNoAckQuiet(c, s);
  }

  lemma OrderStep(c: Config, s: State, step: Step)
    requires DistinctMessages(c) && Inv(c, s) && OrderInv(c, s) && Enabled(c, s, step)
    ensures OrderInv(c, Apply(c, s, step))
  {
    if step.Store? {
      StoreStepOrder(c, s, step.m);
    } else if step.Send? {
      SendStepOrder(c, s);
    } else if step.Kill? || step.PowerLoss? || step.Start? {
      CrashStepOrder(c, s, step);
    } else {
      QuietStep(c, s, step);
      QuietOrder(c, s, Apply(c, s, step));
    }
  }

  lemma InitIsOrderly(c: Config)
    ensures Inv(c, Init()) && OrderInv(c, Init())
  {
    assert Init().stored <= Span(c.canon, c.initial, 0);
  }

  lemma {:induction false} OrderRun(c: Config, s: State, steps: seq<Step>)
    requires DistinctMessages(c) && Inv(c, s) && OrderInv(c, s) && Legal(c, s, steps)
    ensures OrderInv(c, Exec(c, s, steps))
    decreases |steps|
  {
    if steps != [] {
      var step := steps[0];
      InvStep(c, s, step);
      OrderStep(c, s, step);
      OrderRun(c, Apply(c, s, step), steps[1..]);
    }
  }

  lemma ReachableOrder(c: Config, s: State)
    requires DistinctMessages(c) && Reachable(c, s)
    ensures OrderInv(c, s)
  {
    var steps :| Legal(c, Init(), steps) && Exec(c, Init(), steps) == s;
    InitIsOrderly(c);
    OrderRun(c, Init(), steps);
  }

  /**
   Canonical order: the stream is a prefix of the canonical sequence from the initial block, as long as
   no publish has failed or the buffer holds at most one message, and no restart can have skipped a
   message that others follow. Batches may be cancelled and read again, and the network be late.
   */
  lemma OrderlyMeansPrefix(c: Config, s: State)
    requires DistinctMessages(c) && Reachable(c, s) && Orderly(c, s)
    ensures PrefixOfCanon(c, s.stored)
  {
    ReachableOrder(c, s);
  }
}

/**
 The turns of the main loop as values: which branch a turn has run, and what it has done to the fields of the
 process, its state file and its exchange with the network. A run is a chain of such turns.
 */
module Turns {
  import opened Wrappers
  import opened Spans
  import opened Protocol
  import opened Reader
  import opened Outside
  import opened Publishing
  import opened Storage

  /** What a run works with. */
  datatype Setting = Setting(canon: nat -> seq<Message>, batchSize: nat, codec: Codec, chainId: nat)

  /** The fields of the objects of a process, the state file, and what the environment has decided so far. */
  datatype Fields = Fields(
    nextBlock: u64, cursor: u64, needsDelay: bool, paused: bool, buffer: seq<Message>,
    versions: seq<Option<FileImage>>, trouble: Trouble, record: Record)

  /**
   How branch 4 ended: a batch is through, or there was nothing new to read; or an earlier branch preempted it,
   before its batch was read (and before or after the head of the chain was known), or after.
   */
  datatype BatchEnd =
    | Through(batch: BatchResult, latest: nat)
    | UpToDate(latest: nat)
    | Unread(head: Option<nat>)
    | Unfinished(batch: BatchResult, latest: nat)
  {
    predicate Dropped() {
      Unread? || Unfinished?
    }

    /** The head of the chain, if the branch has come to know it. */
    function Head(): Option<nat> {
      if Unread? then head else Some(latest)
    }
  }

  datatype Branch =
    | Delay
    | Change(conn: Connection)                                         // the connection that it found
    | Tick(updatedAt: u64, persisted: Persisted, conn: Connection)
    | Batch(end: BatchEnd, fates: seq<bool>)                           // of each message: acknowledged, or buffered
    | ShutDown(updatedAt: u64, persisted: Persisted)
    | Dead

  /** A turn: the signal and the flag that its poll found, the branch it took, and whether the process ended in it. */
  datatype Turn = Turn(signal: Signal, unseen: bool, branch: Branch, ended: bool, before: Fields, after: Fields)

  // ----- What each branch does -----

  /** The cursor catches up with everything read, if nothing is buffered. */
  ghost function CaughtUp(f: Fields): int {
    if f.buffer == [] then Max(f.cursor, f.nextBlock - 1) else f.cursor
  }

  ghost function Image(g: Setting, cursor: u64, updatedAt: u64): Option<FileImage> {
    Some(FileImage(g.codec.encode(PersistedState(cursor, g.chainId, updatedAt)), true))
  }

  /** Flush if connected, and resume even if that failed; pause if disconnected. */
  ghost predicate ChangeNoted(a: Fields, b: Fields, conn: Connection) {
    && b == a.(paused := conn.Disconnected?, buffer := b.buffer, record := b.record)
    && if conn.Connected? then Flushes(a.record, b.record, a.buffer, b.buffer)
       else b.buffer == a.buffer && b.record == a.record
  }

  ghost predicate ChangeDone(a: Fields, b: Fields, conn: Connection) {
    var m := b.(cursor := a.cursor);
    ChangeNoted(a, m, conn) && b.cursor == CaughtUp(m)
  }

  /** The process was killed in the flush: part of the buffer is on the stream, the rest is gone. */
  ghost predicate KilledInFlush(a: Fields, b: Fields) {
    && a.record.log <= b.record.log <= a.record.log + a.buffer
    && b.record == a.record.(log := b.record.log, kills := a.record.kills + 1)
    && b == a.(buffer := b.buffer, record := b.record)
  }

  /** The second half of a tick: flush a non-empty buffer if connected; resume if everything has gone out. */
  ghost predicate Retried(a: Fields, b: Fields, conn: Connection) {
    if conn.Connected? && a.buffer != [] then
      && Flushes(a.record, b.record, a.buffer, b.buffer)
      && b.cursor == CaughtUp(a.(buffer := b.buffer))
      && b == a.(cursor := b.cursor, paused := a.paused && b.buffer != [], buffer := b.buffer, record := b.record)
    else
      b == a
  }

  /** The state file after a persist of the cursor. */
  ghost predicate Persisting(g: Setting, a: Fields, b: Fields, updatedAt: u64, r: Persisted) {
    Persists(a.versions, a.trouble, Image(g, a.cursor, updatedAt), b.versions, b.trouble, r)
  }

  ghost predicate TickDone(g: Setting, a: Fields, b: Fields, updatedAt: u64, r: Persisted, conn: Connection) {
    && Persisting(g, a, b, updatedAt, r) && r.Finished?
    && Retried(a.(versions := b.versions, trouble := b.trouble), b, conn)
  }

  /** The process was killed in the persist, or in the flush after it. */
  ghost predicate KilledInTick(g: Setting, a: Fields, b: Fields, updatedAt: u64, r: Persisted) {
    && Persisting(g, a, b, updatedAt, r)
    && var m := a.(versions := b.versions, trouble := b.trouble);
       if r.Abandoned? then b == m.(record := a.record.(kills := a.record.kills + 1)) else KilledInFlush(m, b)
  }

  ghost predicate ShutDownDone(g: Setting, a: Fields, b: Fields, updatedAt: u64, r: Persisted) {
    Persisting(g, a, b, updatedAt, r) && b == a.(versions := b.versions, trouble := b.trouble)
  }

  // ----- Branch 4 -----

  /** The messages with this fate, in their order. */
  ghost function Of(messages: seq<Message>, fates: seq<bool>, fate: bool): seq<Message>
    requires |fates| <= |messages|
    decreases |fates|
  {
    if fates == [] then []
    else
      var n := |fates| - 1;
      Of(messages, fates[..n], fate) + if fates[n] == fate then [messages[n]] else []
  }

  /** Each message was acknowledged or, the reader being paused for it, buffered, in their order. */
  ghost predicate Publishes(a: Fields, b: Fields, messages: seq<Message>, fates: seq<bool>) {
    && |fates| <= |messages|
    && b.record.log == a.record.log + Of(messages, fates, true) && b.buffer == a.buffer + Of(messages, fates, false)
    && b.paused == (a.paused || false in fates)
    && a.record.refused <= b.record.refused
    && b == a.(paused := b.paused, buffer := b.buffer, record := b.record)
    && b.record == a.record.(log := b.record.log, refused := b.record.refused)
  }

  ghost predicate IsNextBatch(g: Setting, a: Fields, batch: BatchResult, latest: nat) {
    && a.nextBlock <= latest && batch.startBlock == a.nextBlock
    && batch.endBlock == Min(a.nextBlock + g.batchSize - 1, latest)
    && batch.transactions == Span(g.canon, a.nextBlock, batch.endBlock + 1)
  }

  /** The bookkeeping after the last message. */
  ghost predicate Finishes(a: Fields, b: Fields, batch: BatchResult, latest: nat) {
    && b.nextBlock == batch.endBlock + 1
    && b.cursor == (if b.nextBlock > a.nextBlock && a.buffer == [] then Max(a.cursor, batch.endBlock) else a.cursor)
    && b == a.(nextBlock := b.nextBlock, cursor := b.cursor, needsDelay := latest - batch.endBlock <= 1)
  }

  /** One more message has met its fate. */
  lemma PublishesMore(a: Fields, b: Fields, c: Fields, messages: seq<Message>, fates: seq<bool>, fate: bool)
    requires Publishes(a, b, messages, fates) && |fates| < |messages|
    requires Publishes(b, c, [messages[|fates|]], [fate])
    ensures Publishes(a, c, messages, fates + [fate])
  {
    assert (fates + [fate])[..|fates|] == fates;
    assert Of([messages[|fates|]], [fate], true) == if fate then [messages[|fates|]] else [];
    assert Of([messages[|fates|]], [fate], false) == if fate then [] else [messages[|fates|]];
  }

  lemma OneFate(message: Message, fate: bool)
    ensures Of([message], [fate], fate) == [message] && Of([message], [fate], !fate) == []
  {
  }

  ghost function Asked(a: Fields, latest: nat): Fields {
    a.(record := a.record.(heads := a.record.heads + [latest]))
  }

  ghost function Cut(f: Fields): Fields {
    f.(record := CutShort(f.record))
  }

  /** What branch 4 does once it knows the head of the chain. */
  ghost predicate ReadDone(g: Setting, a: Fields, b: Fields, end: BatchEnd, fates: seq<bool>) {
    match end
    case Through(batch, latest) =>
      var m := b.(nextBlock := a.nextBlock, cursor := a.cursor, needsDelay := a.needsDelay);
      && IsNextBatch(g, a, batch, latest)
      && Publishes(a, m, batch.transactions, fates) && |fates| == |batch.transactions|
      && Finishes(m, b, batch, latest)
    case UpToDate(latest) =>
      a.nextBlock > latest && b == a.(needsDelay := true)
    case Unread(_) =>
      b == Cut(a)
    case Unfinished(batch, latest) =>
      IsNextBatch(g, a, batch, latest) && PublishesPart(a, b, batch.transactions, fates)
  }

  /** The branch was dropped after it had published some of the messages. */
  ghost predicate PublishesPart(a: Fields, b: Fields, messages: seq<Message>, fates: seq<bool>) {
    var m := b.(record := b.record.(cuts := a.record.cuts));
    Publishes(a, m, messages, fates) && b == Cut(m)
  }

  ghost predicate BatchDone(g: Setting, a: Fields, b: Fields, end: BatchEnd, fates: seq<bool>) {
    match end.Head()
    case None => b == Cut(a)
    case Some(latest) => !a.paused && ReadDone(g, Asked(a, latest), b, end, fates)
  }

  // ----- Turns and chains of turns -----

  /** The biased choice: shutdown, then the delay, then a change, then a tick, then the next batch. */
  ghost predicate IsChosen(t: Turn) {
    if t.signal.ShutdownAsked? then t.branch.ShutDown?
    else if t.signal.Killed? then t.branch.Dead?
    else if t.before.needsDelay then t.branch.Delay?
    else if t.unseen then t.branch.Change?
    else if t.signal.TickDue? then t.branch.Tick?
    else t.branch.Batch?
  }

  ghost predicate BranchDone(g: Setting, a: Fields, b: Fields, branch: Branch, ended: bool) {
    match branch
    case Delay => !ended && b == a.(needsDelay := false)
    case Change(conn) => if ended then conn.Connected? && KilledInFlush(a, b) else ChangeDone(a, b, conn)
    case Tick(updatedAt, persisted, conn) =>
      if ended then KilledInTick(g, a, b, updatedAt, persisted) else TickDone(g, a, b, updatedAt, persisted, conn)
    case Batch(end, fates) => !ended && BatchDone(g, a, b, end, fates)
    case ShutDown(updatedAt, persisted) => ended && ShutDownDone(g, a, b, updatedAt, persisted)
    case Dead => ended && b == a
  }

  ghost function Heard(f: Fields, signal: Signal): Fields {
    f.(record := Signalled(f.record, signal))
  }

  ghost predicate Lawful(g: Setting, t: Turn) {
    IsChosen(t) && BranchDone(g, Heard(t.before, t.signal), t.after, t.branch, t.ended)
  }

  /** Branch 4 was dropped in this turn. */
  ghost predicate Drops(t: Turn) {
    t.branch.Batch? && t.branch.end.Dropped()
  }

  /** The next turn goes on from where this one ended; a dropped batch is followed by what preempted it. */
  ghost predicate Follows(t: Turn, u: Turn) {
    !t.ended && u.before == t.after && (Drops(t) ==> !u.branch.Batch?)
  }

  ghost predicate Chain(g: Setting, turns: seq<Turn>) {
    && (forall i :: 0 <= i < |turns| ==> Lawful(g, turns[i]))
    && (forall i :: 0 <= i < |turns| - 1 ==> Follows(turns[i], turns[i + 1]))
  }

  /** A chain of turns that leads from a to b. */
  ghost predicate Leads(g: Setting, turns: seq<Turn>, a: Fields, b: Fields) {
    && Chain(g, turns)
    && if turns == [] then a == b else turns[0].before == a && turns[|turns| - 1].after == b
  }

  ghost predicate Ends(turns: seq<Turn>) {
    turns != [] && turns[|turns| - 1].ended
  }

  lemma ChainJoins(g: Setting, turns: seq<Turn>, more: seq<Turn>, a: Fields, b: Fields, c: Fields)
    requires Leads(g, turns, a, b) && Leads(g, more, b, c) && !Ends(turns)
    requires turns != [] && more != [] ==> Follows(turns[|turns| - 1], more[0])
    ensures Leads(g, turns + more, a, c)
  {
    var all := turns + more;
    forall i | 0 <= i < |all| - 1
      ensures Follows(all[i], all[i + 1])
    {
      if i >= |turns| {
        assert Follows(more[i - |turns|], more[i - |turns| + 1]);
      }
    }
  }

  lemma LastTurn(g: Setting, turns: seq<Turn>, a: Fields, b: Fields)
    requires Leads(g, turns, a, b) && turns != []
    ensures var last := turns[|turns| - 1];
            Lawful(g, last) && last.after == b && Leads(g, turns[..|turns| - 1], a, last.before)
    ensures !Ends(turns[..|turns| - 1])
  {
    var n := |turns| - 1;
    if n > 0 {
      assert Follows(turns[n - 1], turns[n]);
    }
  }

  /** A process starts after the last block of the record in the state file, or without one at the initial block. */
  ghost predicate StartsFrom(g: Setting, initial: nat, f: Fields) {
    && !f.needsDelay && !f.paused && f.buffer == [] && f.versions != []
    && match CursorOf(g.codec, f.versions[|f.versions| - 1])
       case Some(last) => f.cursor == last && f.nextBlock == last + 1
       case None => f.cursor == f.nextBlock == initial
  }

  /** The turns of one life: from the state file on, to the end of the process or for as long as the clock goes. */
  ghost predicate IsLife(g: Setting, initial: nat, turns: seq<Turn>, ticks: nat) {
    && Chain(g, turns) && (turns != [] ==> StartsFrom(g, initial, turns[0].before))
    && (Ends(turns) || |turns| >= ticks)
  }

  // ----- What a run does -----

  /** After the delay comes one of the select's branches, or the end. */
  lemma DelayIsFollowedByABranch(g: Setting, turns: seq<Turn>, i: nat)
    requires Chain(g, turns) && i + 1 < |turns| && turns[i].branch.Delay?
    ensures !turns[i + 1].branch.Delay?
  {
    assert Lawful(g, turns[i]) && Lawful(g, turns[i + 1]) && Follows(turns[i], turns[i + 1]);
  }

  ghost function Held(f: Fields): multiset<Message> {
    multiset(f.record.log) + multiset(f.buffer)
  }

  lemma {:induction false} EachHasAFate(messages: seq<Message>, fates: seq<bool>)
    requires |fates| <= |messages|
    ensures multiset(Of(messages, fates, true)) + multiset(Of(messages, fates, false))
            == multiset(messages[..|fates|])
    decreases |fates|
  {
    if fates != [] {
      var n := |fates| - 1;
      EachHasAFate(messages, fates[..n]);
      assert messages[..n + 1] == messages[..n] + [messages[n]];
    }
  }

  /** Messages and blocks that a turn leaves behind it are accounted for. */
  ghost predicate Accounts(g: Setting, a: Fields, b: Fields) {
    && a.nextBlock <= b.nextBlock && a.cursor <= b.cursor
    && Held(a) + multiset(Span(g.canon, a.nextBlock, b.nextBlock)) <= Held(b)
  }

  lemma FlushAccounts(a: Fields, b: Fields)
    requires Flushes(a.record, b.record, a.buffer, b.buffer)
    ensures Held(b) == Held(a)
  {
    assert multiset(b.record.log + b.buffer) == multiset(a.record.log + a.buffer);
  }

  lemma PublishingAccounts(a: Fields, b: Fields, messages: seq<Message>, fates: seq<bool>)
    requires Publishes(a, b, messages, fates)
    ensures Held(b) == Held(a) + multiset(messages[..|fates|])
  {
    EachHasAFate(messages, fates);
  }

  lemma FinishedBatch(g: Setting, a: Fields, m: Fields, b: Fields, batch: BatchResult, latest: nat)
    requires IsNextBatch(g, a, batch, latest) && Finishes(m, b, batch, latest)
    requires m.nextBlock == a.nextBlock && m.cursor == a.cursor
    ensures a.nextBlock <= b.nextBlock && a.cursor <= b.cursor
    ensures batch.transactions == Span(g.canon, a.nextBlock, b.nextBlock) && Held(b) == Held(m)
  {
  }

  lemma ThroughAccounts(g: Setting, a: Fields, b: Fields, batch: BatchResult, latest: nat, fates: seq<bool>)
    requires ReadDone(g, a, b, Through(batch, latest), fates)
    ensures Accounts(g, a, b)
  {
    var m := b.(nextBlock := a.nextBlock, cursor := a.cursor, needsDelay := a.needsDelay);
    PublishingAccounts(a, m, batch.transactions, fates);
    WholeSequence(batch.transactions, |fates|);
    FinishedBatch(g, a, m, b, batch, latest);
  }

  lemma WholeSequence<T>(s: seq<T>, n: nat)
    requires n == |s|
    ensures s[..n] == s
  {
  }

  lemma UnfinishedAccounts(g: Setting, a: Fields, b: Fields, batch: BatchResult, latest: nat, fates: seq<bool>)
    requires ReadDone(g, a, b, Unfinished(batch, latest), fates)
    ensures Accounts(g, a, b)
  {
    var m := b.(record := b.record.(cuts := a.record.cuts));
    PublishingAccounts(a, m, batch.transactions, fates);
    assert Held(b) == Held(m);
  }

  lemma ReadAccounts(g: Setting, a: Fields, b: Fields, end: BatchEnd, fates: seq<bool>)
    requires ReadDone(g, a, b, end, fates)
    ensures Accounts(g, a, b)
  {
    match end
    case Through(batch, latest) => ThroughAccounts(g, a, b, batch, latest, fates);
    case UpToDate(latest) =>
    case Unread(head) =>
    case Unfinished(batch, latest) => UnfinishedAccounts(g, a, b, batch, latest, fates);
  }

  lemma TurnAccounts(g: Setting, t: Turn)
    requires Lawful(g, t) && !t.ended
    ensures Accounts(g, t.before, t.after)
  {
    var a, b := Heard(t.before, t.signal), t.after;
    match t.branch
    case Delay =>
    case Change(conn) =>
      if conn.Connected? {
        FlushAccounts(a, b);
      }
    case Tick(updatedAt, persisted, conn) =>
      if conn.Connected? && a.buffer != [] {
        FlushAccounts(a, b);
      }
    case Batch(end, fates) =>
      if end.Head().Some? {
        ReadAccounts(g, Asked(a, end.Head().value), b, end, fates);
      }
  }

  lemma AccountsTransitive(g: Setting, a: Fields, b: Fields, c: Fields)
    requires Accounts(g, a, b) && Accounts(g, b, c)
    ensures Accounts(g, a, c)
  {
    SpanJoin(g.canon, a.nextBlock, b.nextBlock, c.nextBlock);
  }

  /**
   Over any run that has not ended, next block and cursor never decrease, and everything that was acknowledged or
   buffered still is, together with every message of every block passed, each as often as the blocks hold it.
   */
  lemma {:induction false} RunsAccount(g: Setting, turns: seq<Turn>, a: Fields, b: Fields)
    requires Leads(g, turns, a, b) && !Ends(turns)
    ensures Accounts(g, a, b)
    decreases |turns|
  {
    if turns != [] {
      var n := |turns| - 1;
      LastTurn(g, turns, a, b);
      RunsAccount(g, turns[..n], a, turns[n].before);
      TurnAccounts(g, turns[n]);
      AccountsTransitive(g, a, turns[n].before, b);
    }
  }

  // ----- Progress -----

  /** Nothing but reading: no tick, no change, no shutdown, and the head of the chain is at least `head`. */
  ghost predicate Undisturbed(t: Turn, head: nat) {
    && t.signal.Quiet? && !t.unseen
    && (t.branch.Batch? ==>
          match t.branch.end
          case Through(_, latest) => head <= latest
          case UpToDate(latest) => head <= latest
          case _ => false)
  }

  ghost predicate AllUndisturbed(turns: seq<Turn>, head: nat) {
    forall i :: 0 <= i < |turns| ==> Undisturbed(turns[i], head)
  }

  lemma LastUndisturbed(turns: seq<Turn>, head: nat)
    requires AllUndisturbed(turns, head) && turns != []
    ensures Undisturbed(turns[|turns| - 1], head) && AllUndisturbed(turns[..|turns| - 1], head)
  {
  }

  ghost function Batches(turns: seq<Turn>): nat {
    if turns == [] then 0
    else Batches(turns[..|turns| - 1]) + if turns[|turns| - 1].branch.Batch? then 1 else 0
  }

  lemma BatchBeforeDelay(t: Turn, u: Turn, g: Setting, head: nat)
    requires Lawful(g, t) && Lawful(g, u) && Follows(t, u)
    requires Undisturbed(t, head) && Undisturbed(u, head) && !u.branch.Batch?
    ensures t.branch.Batch?
  {
  }

  /** Every other turn of an undisturbed run at least reads a batch. */
  lemma {:induction false} DelaysAlternate(g: Setting, turns: seq<Turn>, head: nat)
    requires Chain(g, turns) && AllUndisturbed(turns, head)
    ensures 2 * Batches(turns) + 1 >= |turns|
    ensures turns == [] || turns[|turns| - 1].branch.Batch? ==> 2 * Batches(turns) >= |turns|
    decreases |turns|
  {
    if turns != [] {
      var n := |turns| - 1;
      LastUndisturbed(turns, head);
      DelaysAlternate(g, turns[..n], head);
      if n > 0 && !turns[n].branch.Batch? {
        assert Follows(turns[n - 1], turns[n]) && Undisturbed(turns[n - 1], head);
        BatchBeforeDelay(turns[n - 1], turns[n], g, head);
      }
    }
  }

  lemma UndisturbedTurn(g: Setting, t: Turn, head: nat)
    requires Lawful(g, t) && Undisturbed(t, head)
    ensures t.branch.Batch? ==> t.after.nextBlock >= Min(head + 1, t.before.nextBlock + g.batchSize)
    ensures !t.branch.Batch? ==> t.after.nextBlock == t.before.nextBlock
  {
  }

  lemma {:induction false} BatchesAdvance(g: Setting, turns: seq<Turn>, a: Fields, b: Fields, head: nat)
    requires Leads(g, turns, a, b) && AllUndisturbed(turns, head)
    ensures b.nextBlock >= Min(head + 1, a.nextBlock + Batches(turns) * g.batchSize)
    decreases |turns|
  {
    if turns == [] {
      assert Batches(turns) == 0;
    } else {
      var t, init := turns[|turns| - 1], turns[..|turns| - 1];
      LastTurn(g, turns, a, b);
      LastUndisturbed(turns, head);
      BatchesAdvance(g, init, a, t.before, head);
      UndisturbedTurn(g, t, head);
      OneMoreTurn(a.nextBlock, t, Batches(init), Batches(turns), g.batchSize, head + 1);
    }
  }

  lemma OneMoreTurn(start: int, t: Turn, n: nat, total: nat, size: nat, top: int)
    requires t.before.nextBlock >= Min(top, start + n * size)
    requires if t.branch.Batch? then t.after.nextBlock >= Min(top, t.before.nextBlock + size) && total == n + 1
             else t.after.nextBlock == t.before.nextBlock && total == n
    ensures t.after.nextBlock >= Min(top, start + total * size)
  {
    assert (n + 1) * size == n * size + size;
  }

  /** An undisturbed run reads a batch at least every other turn, until it has read up to the head of the chain. */
  lemma ReadsUpToTheHead(g: Setting, turns: seq<Turn>, a: Fields, b: Fields, head: nat)
    requires Leads(g, turns, a, b) && AllUndisturbed(turns, head)
    ensures b.nextBlock >= Min(head + 1, a.nextBlock + |turns| / 2 * g.batchSize)
  {
    DelaysAlternate(g, turns, head);
    BatchesAdvance(g, turns, a, b, head);
    MoreBatches(|turns| / 2, Batches(turns), g.batchSize);
  }

  lemma MoreBatches(m: nat, n: nat, size: nat)
    requires m <= n
    ensures m * size <= n * size
  {
  }
}

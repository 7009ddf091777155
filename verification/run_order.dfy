/**
 Order within one run: as long as nothing has failed in this run, the messages are first acknowledged to
 it in canonical order from its start block, whatever earlier runs did and whatever the stream held.
 */
module RunOrder {
  import opened Wrappers
  import opened Spans
  import opened Protocol
  import opened Safety
  import opened Order

  /** A publish fails or meets a disconnect, or another run starts. */
  ghost predicate EndsOrder(s: State, step: Step) {
    step.NoAck? || step.FlushNoAck? || step.Start? || (step.Send? && s.conn.Disconnected?)
  }

  ghost predicate FailureFree(c: Config, s: State, steps: seq<Step>)
    requires Legal(c, s, steps)
    decreases |steps|
  {
    steps == [] || (!EndsOrder(s, steps[0]) && FailureFree(c, Apply(c, s, steps[0]), steps[1..]))
  }

  /** The message that a step acknowledges, if any. */
  ghost function Acknowledges(s: State, step: Step): Option<Message> {
    if step.Ack? && s.pc.InFlight? then Some(s.pc.m)
    else if step.FlushAck? && s.pc.Flushing? && s.pc.todo != [] then Some(s.pc.todo[0])
    else None
  }

  ghost function Noted(acks: seq<Message>, m: Option<Message>): seq<Message> {
    if m.Some? && m.value !in acks then acks + [m.value] else acks
  }

  /** The messages acknowledged along the run, in the order of their first acknowledgement, after those in `acks`. */
  ghost function FirstAcks(c: Config, s: State, steps: seq<Step>, acks: seq<Message>): seq<Message>
    requires Legal(c, s, steps)
    decreases |steps|
  {
    if steps == [] then acks
    else FirstAcks(c, Apply(c, s, steps[0]), steps[1..], Noted(acks, Acknowledges(s, steps[0])))
  }

  // ----- The invariant -----

  /** The state with the acknowledgements of this run only. */
  ghost function Local(s: State, acks: seq<Message>): State {
    s.(acked := set m | m in acks)
  }

  /** The canonical sequence read from block lo. */
  ghost function From(c: Config, lo: nat): Config {
    c.(initial := lo)
  }

  /** What this run has passed, it has had acknowledged. */
  ghost predicate RunLocal(c: Config, lo: nat, s: State) {
    !s.pc.Down? ==>
      && s.start == lo <= s.nextBlock && s.buffer == [] && !s.pc.Flushing?
      && Accounted(c, s, lo, s.nextBlock) && BatchInv(c, s)
  }

  ghost predicate LocalInv(c: Config, lo: nat, s: State, acks: seq<Message>) {
    PrefixOfCanon(From(c, lo), acks) && RunLocal(c, lo, Local(s, acks))
  }

  /** Nothing has changed of what the invariant speaks of, or a batch was dropped. */
  ghost predicate KeepsLocal(s: State, t: State) {
    && t.start == s.start && t.nextBlock == s.nextBlock && t.acked == s.acked
    && (!s.pc.Down? && s.buffer == [] && !s.pc.Flushing? ==> t.buffer == [] && !t.pc.Flushing?)
    && (InBatch(t) ==> InBatch(s) && BatchTodo(t) == BatchTodo(s) && t.pc.batch == s.pc.batch)
    && (s.pc.Down? ==> t.pc.Down?)
  }

  lemma LocalKept(c: Config, lo: nat, s: State, t: State)
    requires RunLocal(c, lo, s) && KeepsLocal(s, t)
    ensures RunLocal(c, lo, t)
  {
    if !t.pc.Down? {
      assert forall m :: Covered(s, m) ==> Covered(t, m);
    }
  }

  // ----- Steps -----

  lemma CrashKeeps(c: Config, s: State, step: Step)
    requires Enabled(c, s, step) && (step.Kill? || step.PowerLoss?)
    ensures KeepsLocal(s, Apply(c, s, step))
  {
  }

  lemma FlagKeeps(c: Config, s: State, step: Step)
    requires Enabled(c, s, step)
    requires step.NatsUp? || step.NatsDown? || step.Store? || step.DelayOver? || step.NothingNew? || step.StateChange?
    ensures KeepsLocal(s, Apply(c, s, step))
  {
  }

  lemma PersistKeeps(c: Config, s: State, step: Step)
    requires Enabled(c, s, step)
    requires step.Shutdown? || step.Tick? || step.Rename?
    ensures KeepsLocal(s, Apply(c, s, step))
  {
  }

  lemma PersistEndKeeps(c: Config, s: State, step: Step)
    requires Enabled(c, s, step) && (step.PersistFailed? || step.SyncDirectory?)
    ensures KeepsLocal(s, Apply(c, s, step))
  {
  }

  lemma HandlerKeeps(c: Config, s: State, step: Step)
    requires Enabled(c, s, step)
    requires step.HandleChange? || step.TryResume?
    ensures KeepsLocal(s, Apply(c, s, step))
  {
  }

  lemma FlushKeeps(c: Config, s: State, step: Step)
    requires Enabled(c, s, step)
    requires step.Drain? || step.Resume? || step.Settle?
    ensures KeepsLocal(s, Apply(c, s, step))
  {
  }

  lemma OfferKeeps(c: Config, s: State, step: Step)
    requires Enabled(c, s, step)
    requires step.Offer? || step.Cancel? || (step.Send? && s.conn.Connected?)
    ensures KeepsLocal(s, Apply(c, s, step))
  {
  }

  lemma KeepingStep(c: Config, s: State, step: Step)
    requires Enabled(c, s, step) && !EndsOrder(s, step)
    requires !step.Ack? && !step.FlushAck? && !step.BeginBatch? && !step.EndBatch?
    ensures KeepsLocal(s, Apply(c, s, step))
  {
    if step.Kill? || step.PowerLoss? {
      CrashKeeps(c, s, step);
    } else if step.Offer? || step.Cancel? || step.Send? {
      OfferKeeps(c, s, step);
    } else if step.HandleChange? || step.TryResume? {
      HandlerKeeps(c, s, step);
    } else if step.Drain? || step.Resume? || step.Settle? {
      FlushKeeps(c, s, step);
    } else if step.Shutdown? || step.Tick? || step.Rename? {
      PersistKeeps(c, s, step);
    } else if step.PersistFailed? || step.SyncDirectory? {
      PersistEndKeeps(c, s, step);
    } else {
      FlagKeeps(c, s, step);
    }
  }

  lemma BeginLocal(c: Config, lo: nat, s: State, latest: nat)
    requires RunLocal(c, lo, s) && Enabled(c, s, BeginBatch(latest))
    ensures RunLocal(c, lo, Apply(c, s, BeginBatch(latest)))
  {
    var t := Apply(c, s, BeginBatch(latest));
    assert forall m :: Covered(s, m) ==> Covered(t, m);
  }

  lemma EndLocal(c: Config, lo: nat, s: State)
    requires RunLocal(c, lo, s) && Enabled(c, s, EndBatch)
    ensures RunLocal(c, lo, Apply(c, s, EndBatch))
  {
    var t := Apply(c, s, EndBatch);
    var whole := Span(c.canon, s.nextBlock, s.pc.batch.last + 1);
    forall b: nat, m | lo <= b < t.nextBlock && m in c.canon(b)
      ensures Covered(t, m)
    {
      if b >= s.nextBlock {
        SpanContains(c.canon, s.nextBlock, s.pc.batch.last + 1, b, m);
        assert m in whole;
      }
      assert Covered(s, m);
    }
  }

  /** The canonical sequence from the run's start up to the message being published. */
  lemma PredecessorsAcked(c: Config, lo: nat, s: State, acks: seq<Message>) returns (n: nat)
    requires LocalInv(c, lo, s, acks) && (s.pc.Offered? || s.pc.InFlight?)
    ensures Position(From(c, lo), s.pc.m, s.pc.batch.last + 1, n)
    ensures FirstStored(From(c, lo), acks, s.pc.batch.last + 1, n)
  {
    var t := Local(s, acks);
    var before, whole := Span(c.canon, lo, s.nextBlock), Span(c.canon, s.nextBlock, s.pc.batch.last + 1);
    var k := |whole| - |BatchTodo(t)|;
    SpanJoin(c.canon, lo, s.nextBlock, s.pc.batch.last + 1);
    assert whole[k] == BatchTodo(t)[0] == s.pc.m;
    n := |before| + k;
    forall j | 0 <= j < |before|
      ensures before[j] in acks
    {
      var b := SpanOrigin(c.canon, lo, s.nextBlock, before[j]);
      assert Covered(t, before[j]);
    }
    assert forall j :: 0 <= j < k ==> Covered(t, whole[j]);
    assert forall j :: 0 <= j < n ==> (before + whole)[j] in acks;
  }

  lemma AckIsNext(c: Config, lo: nat, s: State, acks: seq<Message>)
    requires DistinctMessages(c) && LocalInv(c, lo, s, acks) && s.pc.InFlight?
    ensures PrefixOfCanon(From(c, lo), Noted(acks, Some(s.pc.m)))
  {
    if s.pc.m !in acks {
      var d := From(c, lo);
      assert DistinctMessages(d);
      var n := PredecessorsAcked(c, lo, s, acks);
      PositionInReach(d, acks, s.pc.m, s.pc.batch.last + 1, n);
      var w := Span(d.canon, d.initial, s.pc.batch.last + 1);
      assert w[n] == s.pc.m && s.pc.m in w;
      var b := SpanOrigin(d.canon, d.initial, s.pc.batch.last + 1, s.pc.m);
      assert IsCanon(d, s.pc.m);
      StoreKeepsOrder(d, acks, s.pc.m);
    }
  }

  lemma AckLocal(c: Config, lo: nat, s: State)
    requires RunLocal(c, lo, s) && Enabled(c, s, Ack)
    ensures RunLocal(c, lo, Apply(c, s, Ack))
  {
    var t := Apply(c, s, Ack);
    assert forall m :: Covered(s, m) ==> Covered(t, m);
    BatchAdvances(c, s, t);
  }

  lemma NotedSet(acks: seq<Message>, m: Message)
    ensures (set n | n in Noted(acks, Some(m))) == (set n | n in acks) + {m}
  {
  }

  lemma AckStep(c: Config, lo: nat, s: State, acks: seq<Message>)
    requires DistinctMessages(c) && LocalInv(c, lo, s, acks) && Enabled(c, s, Ack)
    ensures LocalInv(c, lo, Apply(c, s, Ack), Noted(acks, Some(s.pc.m)))
  {
    AckIsNext(c, lo, s, acks);
    AckLocal(c, lo, Local(s, acks));
    NotedSet(acks, s.pc.m);
  }

  lemma KeepsLocally(s: State, t: State, acks: seq<Message>)
    requires KeepsLocal(s, t)
    ensures KeepsLocal(Local(s, acks), Local(t, acks))
  {
  }

  lemma BeginCommutes(c: Config, s: State, acks: seq<Message>, latest: nat)
    requires Enabled(c, s, BeginBatch(latest))
    ensures Enabled(c, Local(s, acks), BeginBatch(latest))
    ensures Apply(c, Local(s, acks), BeginBatch(latest)) == Local(Apply(c, s, BeginBatch(latest)), acks)
  {
  }

  lemma EndCommutes(c: Config, s: State, acks: seq<Message>)
    requires Enabled(c, s, EndBatch)
    ensures Enabled(c, Local(s, acks), EndBatch)
    ensures Apply(c, Local(s, acks), EndBatch) == Local(Apply(c, s, EndBatch), acks)
  {
  }

  /** A step does to the local state what it does to the state. */
  lemma LocalStep(c: Config, lo: nat, s: State, acks: seq<Message>, step: Step)
    requires LocalInv(c, lo, s, acks) && Enabled(c, s, step) && !EndsOrder(s, step)
    requires !step.Ack? && !step.FlushAck?
    ensures LocalInv(c, lo, Apply(c, s, step), acks)
  {
    if step.BeginBatch? {
      BeginCommutes(c, s, acks, step.latest);
      BeginLocal(c, lo, Local(s, acks), step.latest);
    } else if step.EndBatch? {
      EndCommutes(c, s, acks);
      EndLocal(c, lo, Local(s, acks));
    } else {
      var t := Apply(c, s, step);
      KeepingStep(c, s, step);
      KeepsLocally(s, t, acks);
      LocalKept(c, lo, Local(s, acks), Local(t, acks));
    }
  }

  lemma {:induction false} RunKeepsOrder(c: Config, lo: nat, s: State, steps: seq<Step>, acks: seq<Message>)
    requires DistinctMessages(c) && LocalInv(c, lo, s, acks) && Legal(c, s, steps) && FailureFree(c, s, steps)
    ensures PrefixOfCanon(From(c, lo), FirstAcks(c, s, steps, acks))
    decreases |steps|
  {
    if steps != [] {
      var t := Apply(c, s, steps[0]);
      if steps[0].Ack? {
        AckStep(c, lo, s, acks);
        RunKeepsOrder(c, lo, t, steps[1..], Noted(acks, Some(s.pc.m)));
      } else {
        assert !steps[0].FlushAck?;
        LocalStep(c, lo, s, acks, steps[0]);
        RunKeepsOrder(c, lo, t, steps[1..], acks);
      }
    }
  }

  /** From the start of any run, first acknowledgements come in canonical order until something fails in that run. */
  lemma EachRunAcknowledgesInOrder(c: Config, s: State, steps: seq<Step>)
    requires DistinctMessages(c) && Reachable(c, s) && Enabled(c, s, Start)
    requires Legal(c, Apply(c, s, Start), steps) && FailureFree(c, Apply(c, s, Start), steps)
    ensures var t := Apply(c, s, Start);
            exists hi: nat :: FirstAcks(c, t, steps, []) <= Span(c.canon, t.start, hi)
  {
    var t := Apply(c, s, Start);
    assert [] <= Span(c.canon, t.start, 0);
    RunKeepsOrder(c, t.start, t, steps, []);
    var hi: nat :| FirstAcks(c, t, steps, []) <= Span(From(c, t.start).canon, From(c, t.start).initial, hi);
  }
}

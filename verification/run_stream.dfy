/**
 Order on the stream within one run: as long as nothing has failed in this run, the messages that had not
 been sent before it enter the stream in canonical order, however late the network delivers.
 */
module RunStream {
  import opened Wrappers
  import opened Spans
  import opened Protocol
  import opened Safety
  import opened Order
  import opened RunOrder

  // ----- Messages not sent before -----

  /** The messages that are not among the known ones. */
  ghost function Fresh(messages: seq<Message>, known: set<Message>): seq<Message> {
    if messages == [] then []
    else
      var n := |messages| - 1;
      Fresh(messages[..n], known) + OneFresh(messages[n], known)
  }

  ghost function OneFresh(m: Message, known: set<Message>): seq<Message> {
    if m in known then [] else [m]
  }

  lemma {:induction false} FreshMember(messages: seq<Message>, known: set<Message>, m: Message)
    ensures m in Fresh(messages, known) <==> m in messages && m !in known
    decreases |messages|
  {
    if messages != [] {
      var n := |messages| - 1;
      FreshMember(messages[..n], known, m);
      assert messages == messages[..n] + [messages[n]];
    }
  }

  lemma {:induction false} FreshAppend(a: seq<Message>, b: seq<Message>, known: set<Message>)
    ensures Fresh(a + b, known) == Fresh(a, known) + Fresh(b, known)
    decreases |b|
  {
    if b == [] {
      assert a + b == a;
    } else {
      var n := |b| - 1;
      FreshAppend(a, b[..n], known);
      AppendLast(a, b);
      FreshLast(a + b[..n], b[n], known);
      FreshLast(b[..n], b[n], known);
      Associative(Fresh(a, known), Fresh(b[..n], known), OneFresh(b[n], known));
    }
  }

  lemma FreshLast(messages: seq<Message>, m: Message, known: set<Message>)
    ensures Fresh(messages + [m], known) == Fresh(messages, known) + OneFresh(m, known)
  {
    assert (messages + [m])[..|messages|] == messages;
  }

  lemma AppendLast<T>(a: seq<T>, b: seq<T>)
    requires b != []
    ensures b == b[..|b| - 1] + [b[|b| - 1]] && a + b == a + b[..|b| - 1] + [b[|b| - 1]]
  {
  }

  lemma {:induction false} FreshDistinct(messages: seq<Message>, known: set<Message>, i: nat, j: nat)
    requires forall k, l :: 0 <= k < l < |messages| ==> messages[k] != messages[l]
    requires i < j < |Fresh(messages, known)|
    ensures Fresh(messages, known)[i] != Fresh(messages, known)[j]
    decreases |messages|
  {
    var n := |messages| - 1;
    var init := Fresh(messages[..n], known);
    if j < |init| {
      FreshDistinct(messages[..n], known, i, j);
    } else {
      FreshMember(messages[..n], known, init[i]);
    }
  }

  /** The chain of the fresh messages, read from block lo. */
  ghost function FreshConfig(c: Config, lo: nat, known: set<Message>): Config {
    c.(initial := lo, canon := (b: nat) => Fresh(c.canon(b), known))
  }

  lemma FreshBlock(c: Config, lo: nat, known: set<Message>, b: nat)
    ensures forall m :: m in FreshConfig(c, lo, known).canon(b) ==> m in c.canon(b)
  {
    forall m | m in Fresh(c.canon(b), known)
      ensures m in c.canon(b)
    {
      FreshMember(c.canon(b), known, m);
    }
  }

  lemma FreshConfigIsDistinct(c: Config, lo: nat, known: set<Message>)
    requires DistinctMessages(c)
    ensures DistinctMessages(FreshConfig(c, lo, known))
  {
    var d := FreshConfig(c, lo, known);
    forall b: nat, i, j | 0 <= i < j < |d.canon(b)|
      ensures d.canon(b)[i] != d.canon(b)[j]
    {
      FreshDistinct(c.canon(b), known, i, j);
    }
    forall b: nat
      ensures forall m :: m in d.canon(b) ==> m in c.canon(b)
    {
      FreshBlock(c, lo, known, b);
    }
    FewerStayDistinct(c, d);
  }

  lemma FewerStayDistinct(c: Config, d: Config)
    requires DistinctMessages(c)
    requires forall b: nat, m :: m in d.canon(b) ==> m in c.canon(b)
    requires forall b: nat, i, j :: 0 <= i < j < |d.canon(b)| ==> d.canon(b)[i] != d.canon(b)[j]
    ensures DistinctMessages(d)
  {
  }

  lemma FreshSpan(c: Config, lo: nat, known: set<Message>, hi: int)
    ensures Span(FreshConfig(c, lo, known).canon, lo, hi) == Fresh(Span(c.canon, lo, hi), known)
  {
    SpanOfFresh(c.canon, FreshConfig(c, lo, known).canon, lo, known, hi);
  }

  lemma {:induction false} SpanOfFresh(
      f: nat -> seq<Message>, g: nat -> seq<Message>, lo: nat, known: set<Message>, hi: int)
    requires forall b: nat :: g(b) == Fresh(f(b), known)
    ensures Span(g, lo, hi) == Fresh(Span(f, lo, hi), known)
    decreases hi - lo
  {
    if lo < hi {
      SpanOfFresh(f, g, lo, known, hi - 1);
      FreshAppend(Span(f, lo, hi - 1), f(hi - 1), known);
    } else {
      assert Fresh([], known) == [];
    }
  }

  /** A fresh message keeps its place among the fresh ones. */
  lemma FreshPlace(w: seq<Message>, k: nat, known: set<Message>) returns (n: nat)
    requires k < |w| && w[k] !in known
    ensures n < |Fresh(w, known)| && Fresh(w, known)[n] == w[k]
    ensures forall j :: 0 <= j < n ==> Fresh(w, known)[j] in w[..k]
  {
    var before := Fresh(w[..k], known);
    n := |before|;
    assert w[..k + 1] == w[..k] + [w[k]] && w == w[..k + 1] + w[k + 1..];
    assert w[..k + 1][..k] == w[..k];
    assert Fresh(w[..k + 1], known) == before + [w[k]];
    FreshAppend(w[..k + 1], w[k + 1..], known);
    forall j | 0 <= j < n
      ensures Fresh(w, known)[j] in w[..k]
    {
      FreshMember(w[..k], known, before[j]);
    }
  }

  // ----- The invariant -----

  /** What the stream has stored since t, without the messages sent by then. */
  ghost function NewlyStored(t: State, s: State): seq<Message>
    requires |t.stored| <= |s.stored|
  {
    Fresh(s.stored[|t.stored|..], t.sent)
  }

  /** Since the run's first state t, fresh messages are stored in order, and no sent one is ahead of its turn. */
  ghost predicate FreshInv(c: Config, t: State, s: State) {
    && t.stored <= s.stored
    && var d := FreshConfig(c, t.start, t.sent);
    && PrefixOfCanon(d, NewlyStored(t, s))
    && forall m :: m in s.sent && m !in t.sent ==> IsCanon(d, m) && InReach(d, NewlyStored(t, s), m)
  }

  lemma FreshKept(c: Config, t: State, s: State, u: State)
    requires FreshInv(c, t, s) && u.stored == s.stored && forall m :: m in u.sent ==> m in s.sent
    ensures FreshInv(c, t, u)
  {
  }

  lemma NewlyStoredGrows(t: State, s: State, u: State, m: Message)
    requires t.stored <= s.stored && u.stored == s.stored + [m]
    ensures t.stored <= u.stored
    ensures NewlyStored(t, u) == NewlyStored(t, s) + if m in t.sent then [] else [m]
  {
    var tail := s.stored[|t.stored|..];
    assert u.stored[|t.stored|..] == tail + [m];
    FreshLast(tail, m, t.sent);
  }

  lemma FreshGrows(c: Config, t: State, s: State, u: State)
    requires FreshInv(c, t, s) && t.stored <= u.stored && u.sent == s.sent
    requires NewlyStored(t, s) <= NewlyStored(t, u)
    requires PrefixOfCanon(FreshConfig(c, t.start, t.sent), NewlyStored(t, u))
    ensures FreshInv(c, t, u)
  {
  }

  lemma StoreIsInOrder(c: Config, t: State, s: State, m: Message)
    requires DistinctMessages(c) && FreshInv(c, t, s) && m in s.sent && m !in s.stored && m !in t.sent
    ensures PrefixOfCanon(FreshConfig(c, t.start, t.sent), NewlyStored(t, s) + [m])
  {
    FreshMember(s.stored[|t.stored|..], t.sent, m);
    FreshConfigIsDistinct(c, t.start, t.sent);
    StoreKeepsOrder(FreshConfig(c, t.start, t.sent), NewlyStored(t, s), m);
  }

  lemma StoreKeepsFresh(c: Config, t: State, s: State, m: Message)
    requires DistinctMessages(c) && FreshInv(c, t, s) && Enabled(c, s, Store(m))
    ensures FreshInv(c, t, Apply(c, s, Store(m)))
  {
    var u := Apply(c, s, Store(m));
    NewlyStoredGrows(t, s, u, m);
    if m !in t.sent {
      assert m !in s.stored;
      StoreIsInOrder(c, t, s, m);
    }
    FreshGrows(c, t, s, u);
  }

  // ----- What is sent is next -----

  /** Once all that precedes it in a span has been stored or was known, a fresh message is in reach. */
  lemma PlaceInReach(c: Config, t: State, s: State, block: nat, k: nat)
    requires DistinctMessages(c) && FreshInv(c, t, s)
    requires forall m :: m in t.stored ==> m in t.sent
    requires var w := Span(c.canon, t.start, block);
             k < |w| && w[k] !in t.sent && forall j :: 0 <= j < k ==> w[j] in s.stored
    ensures var d := FreshConfig(c, t.start, t.sent);
            InReach(d, NewlyStored(t, s), Span(c.canon, t.start, block)[k])
  {
    var d, w := FreshConfig(c, t.start, t.sent), Span(c.canon, t.start, block);
    var n := FreshPlace(w, k, t.sent);
    FreshSpan(c, t.start, t.sent, block);
    forall j | 0 <= j < n
      ensures Fresh(w, t.sent)[j] in NewlyStored(t, s)
    {
      FreshMember(w, t.sent, Fresh(w, t.sent)[j]);
      FreshAreNew(t, s, Fresh(w, t.sent)[j]);
    }
    FreshConfigIsDistinct(c, t.start, t.sent);
    PositionInReach(d, NewlyStored(t, s), w[k], block, n);
  }

  lemma FreshIsCanon(c: Config, t: State, block: nat, m: Message)
    requires m in Span(c.canon, t.start, block) && m !in t.sent
    ensures IsCanon(FreshConfig(c, t.start, t.sent), m)
  {
    var d := FreshConfig(c, t.start, t.sent);
    var b := SpanOrigin(c.canon, t.start, block, m);
    FreshMember(c.canon(b), t.sent, m);
    assert m in d.canon(b);
  }

  lemma SentIsNext(c: Config, t: State, s: State, acks: seq<Message>)
    requires DistinctMessages(c) && FreshInv(c, t, s) && LocalInv(c, t.start, s, acks) && s.pc.Offered?
    requires (forall m :: m in acks ==> m in s.stored) && (forall m :: m in t.stored ==> m in t.sent)
    requires s.pc.m !in t.sent
    ensures var d := FreshConfig(c, t.start, t.sent); IsCanon(d, s.pc.m) && InReach(d, NewlyStored(t, s), s.pc.m)
  {
    var k := PredecessorsAcked(c, t.start, s, acks);
    var w := Span(c.canon, t.start, s.pc.batch.last + 1);
    assert w[k] == s.pc.m && s.pc.m in w;
    PlaceInReach(c, t, s, s.pc.batch.last + 1, k);
    FreshIsCanon(c, t, s.pc.batch.last + 1, s.pc.m);
  }

  lemma FreshAreNew(t: State, s: State, m: Message)
    requires t.stored <= s.stored && m in s.stored && m !in t.sent
    requires forall n :: n in t.stored ==> n in t.sent
    ensures m in NewlyStored(t, s)
  {
    FreshMember(s.stored[|t.stored|..], t.sent, m);
  }

  // ----- Runs -----

  lemma SendKeepsFresh(c: Config, t: State, s: State, acks: seq<Message>)
    requires DistinctMessages(c) && FreshInv(c, t, s) && LocalInv(c, t.start, s, acks)
    requires Enabled(c, s, Send) && s.conn.Connected?
    requires (forall m :: m in acks ==> m in s.stored) && (forall m :: m in t.stored ==> m in t.sent)
    ensures FreshInv(c, t, Apply(c, s, Send))
  {
    if s.pc.m !in t.sent {
      SentIsNext(c, t, s, acks);
    }
    SendsOne(c, s);
  }

  lemma SendsOne(c: Config, s: State)
    requires Enabled(c, s, Send) && s.conn.Connected?
    ensures var u := Apply(c, s, Send); u.stored == s.stored && u.sent == s.sent + {s.pc.m}
  {
  }

  /** With nothing held, a step other than a send hands nothing new to the network. */
  lemma OthersKeepFresh(c: Config, t: State, s: State, acks: seq<Message>, step: Step)
    requires FreshInv(c, t, s) && LocalInv(c, t.start, s, acks) && Enabled(c, s, step) && !EndsOrder(s, step)
    requires !step.Store? && !step.Send?
    ensures FreshInv(c, t, Apply(c, s, step))
  {
    var u := Apply(c, s, step);
    if step.Kill? || step.PowerLoss? {
      CrashWaits(c, s, step);
    } else {
      assert s.buffer == [] && Drained(s) == [];
      QuietStep(c, s, step);
      assert forall m :: m in u.sent ==> Waits(u, m);
    }
    FreshKept(c, t, s, u);
  }

  lemma FreshStep(c: Config, t: State, s: State, acks: seq<Message>, step: Step)
    requires DistinctMessages(c) && Inv(c, s) && FreshInv(c, t, s) && LocalInv(c, t.start, s, acks)
    requires (forall m :: m in acks ==> m in s.stored) && (forall m :: m in t.stored ==> m in t.sent)
    requires Enabled(c, s, step) && !EndsOrder(s, step)
    ensures FreshInv(c, t, Apply(c, s, step)) && s.stored <= Apply(c, s, step).stored
  {
    if step.Store? {
      StoreKeepsFresh(c, t, s, step.m);
    } else if step.Send? {
      SendKeepsFresh(c, t, s, acks);
      SendsOne(c, s);
    } else {
      OthersKeepFresh(c, t, s, acks, step);
      StreamKept(c, s, acks, t.start, step);
    }
  }

  lemma StreamKept(c: Config, s: State, acks: seq<Message>, lo: nat, step: Step)
    requires LocalInv(c, lo, s, acks) && Enabled(c, s, step) && !EndsOrder(s, step) && !step.Store? && !step.Send?
    ensures Apply(c, s, step).stored == s.stored
  {
    if step.Kill? || step.PowerLoss? {
      CrashWaits(c, s, step);
    } else {
      QuietStep(c, s, step);
    }
  }

  lemma AckedIsStored(c: Config, s: State)
    requires DistinctMessages(c) && Inv(c, s) && Enabled(c, s, Ack)
    ensures s.pc.m in s.stored
  {
    BatchTodoIsCanon(c, s);
    assert s.pc.m in BatchTodo(s);
    StoredIsTheMessage(c, s, s.pc.m);
  }

  /** The run's invariants, for the messages acknowledged to it so far. */
  ghost predicate Carried(c: Config, t: State, s: State, acks: seq<Message>) {
    && Inv(c, s) && FreshInv(c, t, s) && LocalInv(c, t.start, s, acks)
    && (forall m :: m in acks ==> m in s.stored) && (forall m :: m in t.stored ==> m in t.sent)
  }

  lemma CarriedAck(c: Config, t: State, s: State, acks: seq<Message>)
    requires DistinctMessages(c) && Carried(c, t, s, acks) && Enabled(c, s, Ack)
    ensures Carried(c, t, Apply(c, s, Ack), Noted(acks, Some(s.pc.m)))
  {
    FreshStep(c, t, s, acks, Ack);
    InvStep(c, s, Ack);
    AckedIsStored(c, s);
    RunOrder.AckStep(c, t.start, s, acks);
  }

  lemma CarriedOther(c: Config, t: State, s: State, acks: seq<Message>, step: Step)
    requires DistinctMessages(c) && Carried(c, t, s, acks) && Enabled(c, s, step) && !EndsOrder(s, step)
    requires !step.Ack? && !step.FlushAck?
    ensures Carried(c, t, Apply(c, s, step), acks)
  {
    FreshStep(c, t, s, acks, step);
    InvStep(c, s, step);
    LocalStep(c, t.start, s, acks, step);
  }

  lemma CarriedStep(c: Config, t: State, s: State, acks: seq<Message>, step: Step) returns (more: seq<Message>)
    requires DistinctMessages(c) && Carried(c, t, s, acks) && Enabled(c, s, step) && !EndsOrder(s, step)
    ensures Carried(c, t, Apply(c, s, step), more)
  {
    if step.Ack? {
      CarriedAck(c, t, s, acks);
      more := Noted(acks, Some(s.pc.m));
    } else {
      NoFlush(c, t.start, s, acks);
      CarriedOther(c, t, s, acks, step);
      more := acks;
    }
  }

  lemma NoFlush(c: Config, lo: nat, s: State, acks: seq<Message>)
    requires LocalInv(c, lo, s, acks)
    ensures !Enabled(c, s, FlushAck)
  {
  }

  lemma {:induction false} RunKeepsFresh(c: Config, t: State, s: State, steps: seq<Step>, acks: seq<Message>)
    requires DistinctMessages(c) && Carried(c, t, s, acks) && Legal(c, s, steps) && FailureFree(c, s, steps)
    ensures FreshInv(c, t, Exec(c, s, steps))
    decreases |steps|
  {
    if steps != [] {
      var more := CarriedStep(c, t, s, acks, steps[0]);
      RunKeepsFresh(c, t, Apply(c, s, steps[0]), steps[1..], more);
    }
  }

  /**
   From the start of any run, whatever earlier runs did, the messages that had not been sent before enter the
   stream in canonical order from the start block, until something fails in that run.
   */
  lemma EachRunStoresInOrder(c: Config, s: State, steps: seq<Step>)
    requires DistinctMessages(c) && Reachable(c, s) && Enabled(c, s, Start)
    requires Legal(c, Apply(c, s, Start), steps) && FailureFree(c, Apply(c, s, Start), steps)
    ensures var t := Apply(c, s, Start);
            var u := Exec(c, t, steps);
            && t.stored <= u.stored
            && exists hi: nat :: Fresh(u.stored[|t.stored|..], t.sent) <= Fresh(Span(c.canon, t.start, hi), t.sent)
  {
    var t := Apply(c, s, Start);
    var d := FreshConfig(c, t.start, t.sent);
    ReachableStep(c, s, Start);
    ReachableInv(c, t);
    assert [] <= Span(d.canon, t.start, 0) && [] <= Span(c.canon, t.start, 0);
    RunKeepsFresh(c, t, t, steps, []);
    var u := Exec(c, t, steps);
    var hi: nat :| NewlyStored(t, u) <= Span(d.canon, d.initial, hi);
    FreshSpan(c, t.start, t.sent, hi);
  }
}

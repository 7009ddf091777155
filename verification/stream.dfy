/** What the stream holds: messages of the chain, each once. */
module Stream {
  import opened Protocol
  import opened Safety
  import opened Guarantees
  import opened Order

  /** No deduplication id occurs twice. */
  ghost predicate EachOnce(stored: seq<Message>) {
    forall i, j :: 0 <= i < j < |stored| ==> stored[i].Checksum() != stored[j].Checksum()
  }

  lemma StoreKeepsEachOnce(stored: seq<Message>, m: Message)
    requires EachOnce(stored) && !HasId(stored, m)
    ensures EachOnce(stored + [m])
  {
    forall i | 0 <= i < |stored|
      ensures stored[i].Checksum() != m.Checksum()
    {
      assert stored[i] in stored;
    }
  }

  lemma CrashKeepsStream(c: Config, s: State, step: Step)
    requires Enabled(c, s, step) && (step.Kill? || step.PowerLoss? || step.Start?)
    ensures Apply(c, s, step).stored == s.stored
  {
  }

  lemma StreamStep(c: Config, s: State, step: Step)
    requires Inv(c, s) && NothingFailed(s) && EachOnce(s.stored) && Enabled(c, s, step)
    ensures EachOnce(Apply(c, s, step).stored)
  {
    if step.Store? {
      StoreKeepsEachOnce(s.stored, step.m);
    } else if step.Send? {
      SendAddsOne(c, s);
    } else if step.Kill? || step.PowerLoss? || step.Start? {
      CrashKeepsStream(c, s, step);
    } else {
      QuietStep(c, s, step);
    }
  }

  lemma {:induction false} StreamRun(c: Config, s: State, steps: seq<Step>)
    requires DistinctMessages(c) && Inv(c, s) && OrderInv(c, s) && EachOnce(s.stored) && Legal(c, s, steps)
    ensures EachOnce(Exec(c, s, steps).stored)
    decreases |steps|
  {
    if steps != [] {
      StreamStep(c, s, steps[0]);
      InvStep(c, s, steps[0]);
      OrderStep(c, s, steps[0]);
      StreamRun(c, Apply(c, s, steps[0]), steps[1..]);
    }
  }

  lemma EachStoredOnce(c: Config, s: State)
    requires DistinctMessages(c) && Reachable(c, s)
    ensures EachOnce(s.stored)
  {
    var steps :| Legal(c, Init(), steps) && Exec(c, Init(), steps) == s;
    InitIsOrderly(c);
    StreamRun(c, Init(), steps);
  }

  /**
   Exactly once: the stream holds nothing but messages of the chain from the initial block on, none of
   them twice, and, strictly above the initial block, all of them up to any cursor that can be read back.
   */
  lemma ExactlyOnce(c: Config, s: State)
    requires DistinctMessages(c) && Reachable(c, s)
    ensures EachOnce(s.stored)
    ensures forall m :: m in s.stored ==> exists b: nat :: b >= c.initial && m in c.canon(b)
    ensures forall i, b: nat, m ::
      0 <= i < |s.disk| && s.disk[i].Some? && c.initial < b <= s.disk[i].value && m in c.canon(b) ==> m in s.stored
  {
    EachStoredOnce(c, s);
    ReachableInv(c, s);
    CrashSafeCursor(c, s);
  }
}

/** What the messages of a batch hold, in terms of the parser and the fields of the logs alone. */
module Delivery {
  import opened Wrappers
  import opened Events
  import opened Sorting
  import opened Grouping
  import opened Spans
  import opened Extraction

  /** The parser accepts the log, and none of its metadata is missing. */
  predicate Qualifies(parse: Parser, log: Log) {
    parse(log).Some? && log.blockNumber.Some? && log.logIndex.Some? && log.transactionHash.Some?
  }

  /** The event of a log: the log's index, the parser's caller and operator. */
  ghost function EventFor(parse: Parser, log: Log): TransactionEvent
    requires Qualifies(parse, log)
  {
    TransactionEvent(log.logIndex.value, parse(log).value.caller, parse(log).value.operator)
  }

  ghost predicate EntryFrom(parse: Parser, log: Log, e: Parsed) {
    && Qualifies(parse, log)
    && e.block == log.blockNumber.value && e.index == log.logIndex.value && e.hash == log.transactionHash.value
    && e.event == EventFor(parse, log)
  }

  // ----- The filter stage -----

  /**
   `at` are the positions, ascending, of the logs from position `from` on that qualify, and the entries are those
   of these logs.
   */
  ghost predicate Lists(parse: Parser, logs: seq<Log>, from: nat, es: seq<Parsed>, at: seq<nat>) {
    && |at| == |es|
    && (forall j :: 0 <= j < |at| ==> from <= at[j] < |logs| && EntryFrom(parse, logs[at[j]], es[j]))
    && (forall i, j :: 0 <= i < j < |at| ==> at[i] < at[j])
    && (forall i: nat :: from <= i < |logs| && Qualifies(parse, logs[i]) ==> i in at)
  }

  ghost function Shifted(at: seq<nat>): seq<nat> {
    seq(|at|, j requires 0 <= j < |at| => at[j] + 1)
  }

  /** In order, exactly one entry for each log that the parser accepts and whose metadata is complete. */
  lemma {:induction false} ExtractLists(parse: Parser, logs: seq<Log>) returns (at: seq<nat>)
    ensures Lists(parse, logs, 0, Extract(parse, logs), at)
  {
    if logs == [] {
      at := [];
    } else {
      var rest := ExtractLists(parse, logs[1..]);
      var es := Extract(parse, logs[1..]);
      LaterLogs(parse, logs, es, rest);
      FirstEntry(parse, logs);
      if Qualifies(parse, logs[0]) {
        at := [0] + Shifted(rest);
        FirstLog(parse, logs, Extract(parse, logs)[0], es, Shifted(rest));
      } else {
        at := Shifted(rest);
        NotThisLog(parse, logs, es, at);
      }
    }
  }

  lemma FirstEntry(parse: Parser, logs: seq<Log>)
    requires logs != []
    ensures var es := Extract(parse, logs);
            if Qualifies(parse, logs[0])
            then es != [] && EntryFrom(parse, logs[0], es[0]) && es == [es[0]] + Extract(parse, logs[1..])
            else es == Extract(parse, logs[1..])
  {
  }

  lemma NotThisLog(parse: Parser, logs: seq<Log>, es: seq<Parsed>, at: seq<nat>)
    requires logs != [] && Lists(parse, logs, 1, es, at) && !Qualifies(parse, logs[0])
    ensures Lists(parse, logs, 0, es, at)
  {
  }

  lemma LaterLogs(parse: Parser, logs: seq<Log>, es: seq<Parsed>, rest: seq<nat>)
    requires logs != [] && Lists(parse, logs[1..], 0, es, rest)
    ensures Lists(parse, logs, 1, es, Shifted(rest))
  {
    forall i: nat | 1 <= i < |logs| && Qualifies(parse, logs[i])
      ensures i in Shifted(rest)
    {
      assert logs[1..][i - 1] == logs[i];
      var j :| 0 <= j < |rest| && rest[j] == i - 1;
      assert Shifted(rest)[j] == i;
    }
    forall j | 0 <= j < |rest|
      ensures EntryFrom(parse, logs[Shifted(rest)[j]], es[j])
    {
      assert logs[1..][rest[j]] == logs[rest[j] + 1];
    }
  }

  lemma FirstLog(parse: Parser, logs: seq<Log>, first: Parsed, es: seq<Parsed>, at: seq<nat>)
    requires logs != [] && Lists(parse, logs, 1, es, at) && EntryFrom(parse, logs[0], first)
    ensures Lists(parse, logs, 0, [first] + es, [0] + at)
  {
  }

  lemma ExtractedFrom(parse: Parser, logs: seq<Log>, e: Parsed)
    ensures e in Extract(parse, logs) <==> exists log :: log in logs && EntryFrom(parse, log, e)
  {
    var at := ExtractLists(parse, logs);
    var es := Extract(parse, logs);
    if e in es {
      var j :| 0 <= j < |es| && es[j] == e;
      assert logs[at[j]] in logs;
    }
    if log :| log in logs && EntryFrom(parse, log, e) {
      var i: nat :| i < |logs| && logs[i] == log;
      var j :| 0 <= j < |at| && at[j] == i;
      assert es[j] == e;
    }
  }

  // ----- Messages -----

  /** The message holds the log's event, under the log's transaction and block. */
  ghost predicate Carries(parse: Parser, m: TransactionMessage, log: Log) {
    && Qualifies(parse, log)
    && m.transactionHash == log.transactionHash.value && m.blockNumber == log.blockNumber.value
    && EventFor(parse, log) in m.events
  }

  /** A message of this chain; its events ascend, and the first one gives its caller and its place. */
  ghost predicate WellMade(chainId: nat, m: TransactionMessage) {
    && m.chainId == chainId && m.events != []
    && m.caller == m.events[0].caller && m.firstLogIndex == m.events[0].logIndex
    && forall i, j :: 0 <= i < j < |m.events| ==> m.events[i].logIndex < m.events[j].logIndex
  }

  /**
   The event of each log that qualifies is in exactly one message, under its transaction and block, and the
   messages hold nothing else.
   */
  ghost predicate Delivers(chainId: nat, parse: Parser, logs: seq<Log>, messages: seq<TransactionMessage>) {
    && (forall log :: log in logs && Qualifies(parse, log) ==> IsCarried(parse, log, messages))
    && (forall m, e :: m in messages && e in m.events ==> IsFromLog(parse, logs, m, e))
    && (forall m :: m in messages ==> WellMade(chainId, m))
    && (forall i, j :: 0 <= i < j < |messages| ==> messages[i].transactionHash != messages[j].transactionHash)
    && StrictlyOrdered(MessageKey, messages)
  }

  ghost predicate IsCarried(parse: Parser, log: Log, messages: seq<TransactionMessage>) {
    exists m :: m in messages && Carries(parse, m, log)
  }

  ghost predicate IsFromLog(parse: Parser, logs: seq<Log>, m: TransactionMessage, e: TransactionEvent) {
    exists log :: log in logs && Carries(parse, m, log) && EventFor(parse, log) == e
  }

  /** The events of a transaction are in one block. */
  ghost predicate OneBlockEach(es: seq<Parsed>) {
    forall e, f :: e in es && f in es && e.hash == f.hash ==> e.block == f.block
  }

  lemma {:induction false} EventOf(es: seq<Parsed>, e: Parsed)
    requires e in es
    ensures e.event in EventsOf(es, e.hash)
  {
    if es[0] != e {
      assert es == [es[0]] + es[1..];
      EventOf(es[1..], e);
    }
  }

  lemma {:induction false} EventOrigin(es: seq<Parsed>, hash: string, event: TransactionEvent) returns (e: Parsed)
    requires event in EventsOf(es, hash)
    ensures e in es && e.hash == hash && e.event == event
  {
    if es[0].hash == hash && es[0].event == event {
      e := es[0];
    } else {
      e := EventOrigin(es[1..], hash, event);
    }
  }

  lemma {:induction false} BlockOrigin(es: seq<Parsed>, hash: string) returns (e: Parsed)
    requires hash in Hashes(es)
    ensures e in es && e.hash == hash && FirstBlock(es, hash) == e.block
  {
    if es[0].hash == hash {
      e := es[0];
    } else {
      assert es == [es[0]] + es[1..];
      e := BlockOrigin(es[1..], hash);
    }
  }

  lemma LaterEvent(es: seq<Parsed>, event: TransactionEvent)
    requires es != [] && StrictlyOrdered(EventKey, es) && Consistent(es) && OneBlockEach(es)
    requires event in EventsOf(es[1..], es[0].hash)
    ensures es[0].event.logIndex < event.logIndex
  {
    var f := EventOrigin(es[1..], es[0].hash, event);
    assert es[0] in es && f in es;
    assert EventKey(es[0]).Less(EventKey(f));
  }

  lemma {:induction false} EventsAscend(es: seq<Parsed>, hash: string, i: nat, j: nat)
    requires StrictlyOrdered(EventKey, es) && Consistent(es) && OneBlockEach(es)
    requires i < j < |EventsOf(es, hash)|
    ensures EventsOf(es, hash)[i].logIndex < EventsOf(es, hash)[j].logIndex
  {
    RestAlike(es);
    if es[0].hash == hash {
      if i == 0 {
        LaterEvent(es, EventsOf(es[1..], hash)[j - 1]);
      } else {
        EventsAscend(es[1..], hash, i - 1, j - 1);
      }
    } else {
      EventsAscend(es[1..], hash, i, j);
    }
  }

  lemma RestAlike(es: seq<Parsed>)
    requires es != [] && StrictlyOrdered(EventKey, es) && Consistent(es) && OneBlockEach(es)
    ensures StrictlyOrdered(EventKey, es[1..]) && Consistent(es[1..]) && OneBlockEach(es[1..])
  {
  }

  lemma GroupIsWellMade(chainId: nat, es: seq<Parsed>, m: TransactionMessage)
    requires StrictlyOrdered(EventKey, es) && Consistent(es) && OneBlockEach(es)
    requires m in Group(chainId, es)
    ensures WellMade(chainId, m)
  {
    OneMessagePerTransaction(chainId, es);
    NoEventsOf(es, m.transactionHash);
    forall i, j | 0 <= i < j < |m.events|
      ensures m.events[i].logIndex < m.events[j].logIndex
    {
      EventsAscend(es, m.transactionHash, i, j);
    }
  }

  lemma LogIsCarried(chainId: nat, parse: Parser, es: seq<Parsed>, log: Log, e: Parsed)
    requires e in es && EntryFrom(parse, log, e) && OneBlockEach(es)
    ensures IsCarried(parse, log, Group(chainId, es))
  {
    OneMessagePerTransaction(chainId, es);
    var m := MessageOf(chainId, es, e.hash);
    assert e.hash in Hashes(es);
    assert m in Group(chainId, es);
    EventOf(es, e);
    var f := BlockOrigin(es, e.hash);
    assert Carries(parse, m, log);
  }

  lemma EventIsFromLog(chainId: nat, parse: Parser, logs: seq<Log>, es: seq<Parsed>, m: TransactionMessage,
      event: TransactionEvent)
    requires OneBlockEach(es) && m in Group(chainId, es) && event in m.events
    requires forall e :: e in es ==> e in Extract(parse, logs)
    ensures IsFromLog(parse, logs, m, event)
  {
    OneMessagePerTransaction(chainId, es);
    var e := EventOrigin(es, m.transactionHash, event);
    var f := BlockOrigin(es, m.transactionHash);
    ExtractedFrom(parse, logs, e);
    var log :| log in logs && EntryFrom(parse, log, e);
    assert Carries(parse, m, log);
  }

  lemma GroupDelivers(chainId: nat, parse: Parser, logs: seq<Log>, es: seq<Parsed>)
    requires StrictlyOrdered(EventKey, es) && Consistent(es) && OneBlockEach(es)
    requires forall e :: e in es <==> e in Extract(parse, logs)
    ensures Delivers(chainId, parse, logs, Group(chainId, es))
  {
    var messages := Group(chainId, es);
    forall log | log in logs && Qualifies(parse, log)
      ensures IsCarried(parse, log, messages)
    {
      var e := Parsed(log.blockNumber.value, log.logIndex.value, log.transactionHash.value, EventFor(parse, log));
      assert EntryFrom(parse, log, e);
      ExtractedFrom(parse, logs, e);
      LogIsCarried(chainId, parse, es, log, e);
    }
    forall m, e | m in messages && e in m.events
      ensures IsFromLog(parse, logs, m, e)
    {
      EventIsFromLog(chainId, parse, logs, es, m, e);
    }
    forall m | m in messages
      ensures WellMade(chainId, m)
    {
      GroupIsWellMade(chainId, es, m);
    }
    OneMessagePerTransaction(chainId, es);
    GroupIsOrdered(chainId, es);
  }

  lemma SpanHasOneBlockEach(parse: Parser, chain: nat -> seq<Log>, lo: nat, hi: int)
    requires WellFormed(parse, chain)
    ensures OneBlockEach(Span(BlockEvents(parse, chain), lo, hi))
  {
    SpanEvents(parse, chain, lo, hi);
    var es := Span(BlockEvents(parse, chain), lo, hi);
    forall e, f | e in es && f in es && e.hash == f.hash
      ensures e.block == f.block
    {
      assert NoCommonTransaction(parse, chain, e.block, f.block);
    }
  }

  /** The canonical messages of a span of blocks deliver exactly the events of its logs. */
  lemma SpanDelivers(chainId: nat, parse: Parser, chain: nat -> seq<Log>, lo: nat, hi: int)
    requires WellFormed(parse, chain)
    ensures Delivers(chainId, parse, Span(chain, lo, hi), Span(BlockMessages(chainId, parse, chain), lo, hi))
  {
    var es := Span(BlockEvents(parse, chain), lo, hi);
    SpanEvents(parse, chain, lo, hi);
    SpanMessages(chainId, parse, chain, lo, hi);
    SpanHasOneBlockEach(parse, chain, lo, hi);
    forall e
      ensures e in es <==> e in Extract(parse, Span(chain, lo, hi))
    {
      assert e in es <==> e in multiset(es);
      assert e in Extract(parse, Span(chain, lo, hi)) <==> e in multiset(Extract(parse, Span(chain, lo, hi)));
    }
    GroupDelivers(chainId, parse, Span(chain, lo, hi), es);
  }
}

/** Grouping of parsed events into one message per transaction. */
module Grouping {
  import opened Events
  import opened Sorting

  /** A parsed event with the metadata of its log. */
  datatype Parsed = Parsed(block: nat, index: nat, hash: string, event: TransactionEvent)

  /** What the hash map holds for one transaction: the block of its first event, and its events. */
  datatype Entry = Entry(block: nat, events: seq<TransactionEvent>)

  function EventKey(e: Parsed): Key {
    Key(e.block, e.index)
  }

  function MessageKey(m: TransactionMessage): Key {
    Key(m.blockNumber, m.firstLogIndex)
  }

  function Hashes(es: seq<Parsed>): set<string> {
    set e | e in es :: e.hash
  }

  function EventsOf(es: seq<Parsed>, hash: string): seq<TransactionEvent> {
    if es == [] then []
    else (if es[0].hash == hash then [es[0].event] else []) + EventsOf(es[1..], hash)
  }

  function Without(es: seq<Parsed>, hash: string): (r: seq<Parsed>)
    ensures |r| <= |es|
    ensures forall e :: e in r <==> e in es && e.hash != hash
  {
    if es == [] then []
    else (if es[0].hash == hash then [] else [es[0]]) + Without(es[1..], hash)
  }

  function FirstBlock(es: seq<Parsed>, hash: string): nat {
    if es == [] then 0
    else if es[0].hash == hash then es[0].block
    else FirstBlock(es[1..], hash)
  }

  function NewMessage(chainId: nat, hash: string, entry: Entry): TransactionMessage {
    var events := entry.events;
    TransactionMessage(
      chainId,
      if events == [] then 0 else events[0].caller,
      entry.block,
      if events == [] then 0 else events[0].logIndex,
      hash,
      events)
  }

  /** The message of one transaction among the events of a batch. */
  function MessageOf(chainId: nat, es: seq<Parsed>, hash: string): TransactionMessage {
    NewMessage(chainId, hash, Entry(FirstBlock(es, hash), EventsOf(es, hash)))
  }

  /** The grouping without a hash map: transactions in the order of their first event. */
  function Group(chainId: nat, es: seq<Parsed>): seq<TransactionMessage>
    decreases |es|
  {
    if es == [] then []
    else [MessageOf(chainId, es, es[0].hash)] + Group(chainId, Without(es[1..], es[0].hash))
  }

  /** The tuple's log index is the event's own. */
  ghost predicate Consistent(es: seq<Parsed>) {
    forall e :: e in es ==> e.index == e.event.logIndex
  }

  // ----- Each transaction's message -----

  lemma {:induction false} WithoutKeepsOthers(es: seq<Parsed>, gone: string, hash: string)
    requires hash != gone
    ensures EventsOf(Without(es, gone), hash) == EventsOf(es, hash)
    ensures FirstBlock(Without(es, gone), hash) == FirstBlock(es, hash)
  {
    if es != [] {
      WithoutKeepsOthers(es[1..], gone, hash);
      var w := Without(es, gone);
      if es[0].hash != gone {
        assert w[1..] == Without(es[1..], gone);
      } else {
        assert w == Without(es[1..], gone);
      }
    }
  }

  lemma HashesSplit(es: seq<Parsed>, gone: string)
    ensures Hashes(Without(es, gone)) == Hashes(es) - {gone}
  {
    forall h | h in Hashes(es) - {gone}
      ensures h in Hashes(Without(es, gone))
    {
      var e :| e in es && e.hash == h;
      assert e in Without(es, gone);
    }
  }

  /** The group of a hash other than the first one's is unaffected by taking the first transaction out. */
  lemma MessageOfRest(chainId: nat, es: seq<Parsed>, hash: string)
    requires es != [] && hash != es[0].hash
    ensures MessageOf(chainId, Without(es[1..], es[0].hash), hash) == MessageOf(chainId, es, hash)
  {
    WithoutKeepsOthers(es[1..], es[0].hash, hash);
  }

  /** Exactly one message per transaction hash, each holding the events of that hash in their order. */
  lemma {:induction false} OneMessagePerTransaction(chainId: nat, es: seq<Parsed>)
    ensures var g := Group(chainId, es);
            && (forall m :: m in g <==>
                  m.transactionHash in Hashes(es) && m == MessageOf(chainId, es, m.transactionHash))
            && (forall i, j :: 0 <= i < j < |g| ==> g[i].transactionHash != g[j].transactionHash)
    decreases |es|
  {
    if es != [] {
      var first := es[0].hash;
      var rest := Without(es[1..], first);
      OneMessagePerTransaction(chainId, rest);
      HashesAfterFirst(es);
      forall hash | hash != first
        ensures MessageOf(chainId, rest, hash) == MessageOf(chainId, es, hash)
      {
        MessageOfRest(chainId, es, hash);
      }
      FirstThenRest(chainId, es);
    }
  }

  lemma HashesAfterFirst(es: seq<Parsed>)
    requires es != []
    ensures Hashes(es) == Hashes(Without(es[1..], es[0].hash)) + {es[0].hash}
    ensures es[0].hash !in Hashes(Without(es[1..], es[0].hash))
  {
    HashesSplit(es[1..], es[0].hash);
    assert es == [es[0]] + es[1..];
  }

  lemma FirstThenRest(chainId: nat, es: seq<Parsed>)
    requires es != []
    ensures var g, rest := Group(chainId, es), Group(chainId, Without(es[1..], es[0].hash));
            && g == [MessageOf(chainId, es, es[0].hash)] + rest
            && forall m :: m in g <==> m == MessageOf(chainId, es, es[0].hash) || m in rest
  {
  }

  // ----- Order -----

  lemma {:induction false} WithoutKeepsOrder(es: seq<Parsed>, gone: string)
    requires StrictlyOrdered(EventKey, es)
    ensures StrictlyOrdered(EventKey, Without(es, gone))
  {
    if es != [] {
      WithoutKeepsOrder(es[1..], gone);
      var tail := Without(es[1..], gone);
      forall i | 0 <= i < |tail|
        ensures EventKey(es[0]).Less(EventKey(tail[i]))
      {
        assert tail[i] in es[1..];
      }
    }
  }

  lemma {:induction false} MessageKeyComesFromAnEvent(chainId: nat, es: seq<Parsed>, hash: string) returns (e: Parsed)
    requires hash in Hashes(es) && Consistent(es)
    ensures e in es && e.hash == hash
    ensures MessageKey(MessageOf(chainId, es, hash)) == EventKey(e)
  {
    if es[0].hash == hash {
      e := es[0];
    } else {
      assert forall x :: x in es ==> x == es[0] || x in es[1..];
      e := MessageKeyComesFromAnEvent(chainId, es[1..], hash);
    }
  }

  /** First occurrences of sorted events are sorted: the final sort of the source has nothing left to decide. */
  lemma {:induction false} GroupIsOrdered(chainId: nat, es: seq<Parsed>)
    requires StrictlyOrdered(EventKey, es) && Consistent(es)
    ensures StrictlyOrdered(MessageKey, Group(chainId, es))
    decreases |es|
  {
    if es != [] {
      var rest := Without(es[1..], es[0].hash);
      assert StrictlyOrdered(EventKey, es[1..]);
      WithoutKeepsOrder(es[1..], es[0].hash);
      GroupIsOrdered(chainId, rest);
      FirstMessageIsLeast(chainId, es, rest);
      assert MessageKey(MessageOf(chainId, es, es[0].hash)) == EventKey(es[0]);
    }
  }

  /** Messages made of later events come after the first event. */
  lemma FirstMessageIsLeast(chainId: nat, es: seq<Parsed>, rest: seq<Parsed>)
    requires es != [] && StrictlyOrdered(EventKey, es) && Consistent(rest)
    requires forall e :: e in rest ==> e in es[1..]
    ensures forall i :: 0 <= i < |Group(chainId, rest)| ==> EventKey(es[0]).Less(MessageKey(Group(chainId, rest)[i]))
  {
    OneMessagePerTransaction(chainId, rest);
    var g := Group(chainId, rest);
    forall i | 0 <= i < |g|
      ensures EventKey(es[0]).Less(MessageKey(g[i]))
    {
      assert g[i] in g;
      var e := MessageKeyComesFromAnEvent(chainId, rest, g[i].transactionHash);
      assert e in es[1..];
    }
  }

  // ----- The hash map -----

  /** The map after the events `es` have been entered. */
  ghost predicate Tallied(txMap: map<string, Entry>, es: seq<Parsed>) {
    && txMap.Keys == Hashes(es)
    && forall h :: h in txMap ==> txMap[h] == Entry(FirstBlock(es, h), EventsOf(es, h))
  }

  lemma {:induction false} EventsOfSnoc(es: seq<Parsed>, e: Parsed, hash: string)
    ensures EventsOf(es + [e], hash) == EventsOf(es, hash) + (if e.hash == hash then [e.event] else [])
    ensures FirstBlock(es + [e], hash) == if hash !in Hashes(es) && e.hash == hash then e.block
        else FirstBlock(es, hash)
  {
    if es == [] {
      assert es + [e] == [e];
      assert EventsOf([e], hash) == (if e.hash == hash then [e.event] else []) + EventsOf([e][1..], hash);
    } else {
      assert (es + [e])[1..] == es[1..] + [e];
      EventsOfSnoc(es[1..], e, hash);
      assert es[0] in es;
      assert Hashes(es) == Hashes(es[1..]) + {es[0].hash} by {
        assert es == [es[0]] + es[1..];
      }
    }
  }

  lemma TalliedStep(txMap: map<string, Entry>, es: seq<Parsed>, e: Parsed)
    requires Tallied(txMap, es)
    ensures var entry := if e.hash in txMap then txMap[e.hash] else Entry(e.block, []);
            Tallied(txMap[e.hash := entry.(events := entry.events + [e.event])], es + [e])
  {
    assert Hashes(es + [e]) == Hashes(es) + {e.hash};
    NoEventsOf(es, e.hash);
    forall h | h in Hashes(es + [e])
      ensures EventsOf(es + [e], h) == EventsOf(es, h) + (if e.hash == h then [e.event] else [])
      ensures FirstBlock(es + [e], h) == if h !in Hashes(es) && e.hash == h then e.block else FirstBlock(es, h)
    {
      EventsOfSnoc(es, e, h);
    }
  }

  lemma {:induction false} NoEventsOf(es: seq<Parsed>, hash: string)
    ensures EventsOf(es, hash) == [] <==> hash !in Hashes(es)
  {
    if es != [] {
      NoEventsOf(es[1..], hash);
      assert es == [es[0]] + es[1..];
      assert es[0] in es;
    }
  }

  /** The hash map is emptied in an arbitrary order; the result does not depend on it. */
  method GroupByTransaction(chainId: nat, events: seq<Parsed>) returns (messages: seq<TransactionMessage>)
    requires StrictlyOrdered(EventKey, events) && Consistent(events)
    ensures messages == Group(chainId, events)
  {
    var txMap: map<string, Entry> := map[];
    for i := 0 to |events|
      invariant Tallied(txMap, events[..i])
    {
      var e := events[i];
      TalliedStep(txMap, events[..i], e);
      assert events[..i + 1] == events[..i] + [e];
      var entry := if e.hash in txMap then txMap[e.hash] else Entry(e.block, []);
      txMap := txMap[e.hash := entry.(events := entry.events + [e.event])];
    }
    assert events[..|events|] == events;

    messages := [];
    var keys := txMap.Keys;
    while keys != {}
      invariant keys <= txMap.Keys
      invariant forall m :: m in messages <==>
          m.transactionHash in txMap.Keys - keys && m == MessageOf(chainId, events, m.transactionHash)
      invariant forall i, j :: 0 <= i < j < |messages| ==> messages[i] != messages[j]
      decreases keys
    {
      var hash :| hash in keys;
      assert MessageOf(chainId, events, hash) == NewMessage(chainId, hash, txMap[hash]);
      messages := messages + [NewMessage(chainId, hash, txMap[hash])];
      keys := keys - {hash};
    }
    OneMessagePerTransaction(chainId, events);
    GroupIsOrdered(chainId, events);
    SortsInto(MessageKey, messages, Group(chainId, events));
    messages := Sort(MessageKey, messages);
  }
}

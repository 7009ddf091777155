/** Grouping conserves the events, and when flattening the messages gives the event list back. */
module GroupingLaws {
  import opened Events
  import opened Grouping

  /** An event together with the hash it is filed under. */
  datatype Tagged = Tagged(hash: string, event: TransactionEvent)

  function Tags(es: seq<Parsed>): (r: seq<Tagged>)
    ensures |r| == |es|
  {
    if es == [] then [] else [Tagged(es[0].hash, es[0].event)] + Tags(es[1..])
  }

  function TagAll(hash: string, events: seq<TransactionEvent>): (r: seq<Tagged>)
    ensures |r| == |events|
    ensures forall t :: t in r ==> t.hash == hash
  {
    if events == [] then [] else [Tagged(hash, events[0])] + TagAll(hash, events[1..])
  }

  /** The events of all messages, message by message. */
  function Flatten(messages: seq<TransactionMessage>): seq<Tagged> {
    if messages == [] then []
    else TagAll(messages[0].transactionHash, messages[0].events) + Flatten(messages[1..])
  }

  /** Every transaction's events stand next to each other. */
  ghost predicate Contiguous(tags: seq<Tagged>) {
    forall i, j, k :: 0 <= i < j < k < |tags| && tags[i].hash == tags[k].hash ==> tags[j].hash == tags[i].hash
  }

  // ----- Conservation -----

  lemma {:induction false} SplitByHash(es: seq<Parsed>, hash: string)
    ensures multiset(TagAll(hash, EventsOf(es, hash))) + multiset(Tags(Without(es, hash))) == multiset(Tags(es))
  {
    if es != [] {
      SplitByHash(es[1..], hash);
      if es[0].hash == hash {
        LeadingEvent(es, hash);
      } else {
        OtherEvent(es, hash);
      }
    }
  }

  lemma OtherEvent(es: seq<Parsed>, hash: string)
    requires es != [] && es[0].hash != hash
    ensures EventsOf(es, hash) == EventsOf(es[1..], hash)
    ensures Tags(Without(es, hash)) == [Tagged(es[0].hash, es[0].event)] + Tags(Without(es[1..], hash))
  {
    assert Without(es, hash)[1..] == Without(es[1..], hash);
  }

  /** Each event lands in exactly one message, and no message holds anything else. */
  lemma {:induction false} GroupingConserves(chainId: nat, es: seq<Parsed>)
    ensures multiset(Flatten(Group(chainId, es))) == multiset(Tags(es))
    decreases |es|
  {
    if es != [] {
      var hash := es[0].hash;
      var rest := Without(es[1..], hash);
      GroupingConserves(chainId, rest);
      SplitByHash(es, hash);
      assert Without(es, hash) == rest;
      var g := Group(chainId, es);
      assert g[1..] == Group(chainId, rest);
    }
  }

  // ----- Round trip -----

  /** The first n events are those of the hash. */
  ghost predicate Leads(es: seq<Parsed>, hash: string, n: nat) {
    && n <= |es|
    && (forall i :: 0 <= i < n ==> es[i].hash == hash)
    && (forall i :: n <= i < |es| ==> es[i].hash != hash)
  }

  lemma LeadsTail(es: seq<Parsed>, hash: string, n: nat)
    requires Leads(es, hash, n) && n > 0
    ensures es != [] && es[0].hash == hash && Leads(es[1..], hash, n - 1)
  {
  }

  lemma NoneLeads(es: seq<Parsed>, hash: string)
    requires Leads(es, hash, 0)
    ensures TagAll(hash, EventsOf(es, hash)) == [] && Without(es, hash) == es
  {
    NothingToTakeOut(es, hash);
  }

  lemma Prepend<T>(head: T, inside: seq<T>, outside: seq<T>, tail: seq<T>)
    requires inside + outside == tail
    ensures [head] + inside + outside == [head] + tail
  {
  }

  lemma {:induction false} LeadingGroup(es: seq<Parsed>, hash: string, n: nat)
    requires Leads(es, hash, n)
    ensures TagAll(hash, EventsOf(es, hash)) + Tags(Without(es, hash)) == Tags(es)
    decreases n
  {
    if n == 0 {
      NoneLeads(es, hash);
      assert [] + Tags(es) == Tags(es);
    } else {
      LeadsTail(es, hash, n);
      LeadingGroup(es[1..], hash, n - 1);
      LeadingEvent(es, hash);
      Prepend(Tagged(hash, es[0].event), TagAll(hash, EventsOf(es[1..], hash)), Tags(Without(es[1..], hash)),
          Tags(es[1..]));
    }
  }

  lemma LeadingEvent(es: seq<Parsed>, hash: string)
    requires es != [] && es[0].hash == hash
    ensures TagAll(hash, EventsOf(es, hash)) == [Tagged(hash, es[0].event)] + TagAll(hash, EventsOf(es[1..], hash))
    ensures Without(es, hash) == Without(es[1..], hash)
  {
    var inside := EventsOf(es[1..], hash);
    assert EventsOf(es, hash) == [es[0].event] + inside;
    assert ([es[0].event] + inside)[1..] == inside;
  }

  /** In contiguous events the first hash fills a prefix. */
  lemma FirstHashPrefix(es: seq<Parsed>) returns (n: nat)
    requires es != [] && Contiguous(Tags(es))
    ensures 0 < n && Leads(es, es[0].hash, n)
  {
    n := 1;
    while n < |es| && es[n].hash == es[0].hash
      invariant 0 < n <= |es|
      invariant forall i :: 0 <= i < n ==> es[i].hash == es[0].hash
    {
      n := n + 1;
    }
    if n < |es| {
      TagAt(es, 0);
      TagAt(es, n);
      forall i | n <= i < |es|
        ensures es[i].hash != es[0].hash
      {
        TagAt(es, i);
      }
    }
  }

  lemma {:induction false} NothingToTakeOut(es: seq<Parsed>, hash: string)
    requires forall e :: e in es ==> e.hash != hash
    ensures EventsOf(es, hash) == [] && Without(es, hash) == es
  {
    if es != [] {
      NothingToTakeOut(es[1..], hash);
    }
  }

  lemma {:induction false} TagAt(es: seq<Parsed>, i: nat)
    requires i < |es|
    ensures Tags(es)[i] == Tagged(es[i].hash, es[i].event)
  {
    if i > 0 {
      TagAt(es[1..], i - 1);
    }
  }

  lemma ContiguousSuffix(tags: seq<Tagged>, n: nat)
    requires n <= |tags| && Contiguous(tags)
    ensures Contiguous(tags[n..])
  {
  }

  lemma {:induction false} ContiguousFlattensBack(chainId: nat, es: seq<Parsed>)
    requires Contiguous(Tags(es))
    ensures Flatten(Group(chainId, es)) == Tags(es)
    decreases |es|
  {
    if es != [] {
      var hash := es[0].hash;
      var rest := Without(es[1..], hash);
      var n := FirstHashPrefix(es);
      LeadingGroup(es, hash, n);
      assert Without(es, hash) == rest;
      ContiguousSuffix(Tags(es), |EventsOf(es, hash)|);
      assert Tags(es)[|EventsOf(es, hash)|..] == Tags(rest);
      ContiguousFlattensBack(chainId, rest);
      assert Group(chainId, es)[1..] == Group(chainId, rest);
    }
  }

  lemma {:induction false} FlattenedHashes(messages: seq<TransactionMessage>, t: Tagged)
    requires t in Flatten(messages)
    ensures exists m :: m in messages && m.transactionHash == t.hash
  {
    if t in TagAll(messages[0].transactionHash, messages[0].events) {
      assert messages[0] in messages;
    } else {
      FlattenedHashes(messages[1..], t);
      var m :| m in messages[1..] && m.transactionHash == t.hash;
      assert m in messages;
    }
  }

  lemma PrependGroup(head: seq<Tagged>, tail: seq<Tagged>, hash: string)
    requires Contiguous(tail)
    requires forall t :: t in head ==> t.hash == hash
    requires forall t :: t in tail ==> t.hash != hash
    ensures Contiguous(head + tail)
  {
    var all := head + tail;
    forall x | |head| <= x < |all|
      ensures all[x].hash != hash
    {
      assert all[x] == tail[x - |head|];
    }
    forall i, j, k | 0 <= i < j < k < |all| && all[i].hash == all[k].hash
      ensures all[j].hash == all[i].hash
    {
      if i < |head| {
        assert all[i] in head && k < |head|;
        assert all[j] in head;
      } else {
        assert tail[i - |head|].hash == tail[k - |head|].hash;
        assert tail[j - |head|].hash == tail[i - |head|].hash;
      }
    }
  }

  lemma {:induction false} FlattenIsContiguous(messages: seq<TransactionMessage>)
    requires forall i, j :: 0 <= i < j < |messages| ==> messages[i].transactionHash != messages[j].transactionHash
    ensures Contiguous(Flatten(messages))
  {
    if messages != [] {
      FlattenIsContiguous(messages[1..]);
      var hash := messages[0].transactionHash;
      forall t | t in Flatten(messages[1..])
        ensures t.hash != hash
      {
        FlattenedHashes(messages[1..], t);
      }
      PrependGroup(TagAll(hash, messages[0].events), Flatten(messages[1..]), hash);
    }
  }

  /** Flattening the messages gives the sorted events back exactly when every transaction's events are contiguous. */
  lemma GroupingRoundTrip(chainId: nat, es: seq<Parsed>)
    ensures Flatten(Group(chainId, es)) == Tags(es) <==> Contiguous(Tags(es))
  {
    OneMessagePerTransaction(chainId, es);
    FlattenIsContiguous(Group(chainId, es));
    if Contiguous(Tags(es)) {
      ContiguousFlattensBack(chainId, es);
    }
  }
}

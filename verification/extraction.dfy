/**
 From raw logs to messages: filter, sort, group. A batch's messages are a function of the blocks it
 covers, and cutting a range of blocks into batches is invisible in the messages.
 */
module Extraction {
  import opened Wrappers
  import opened Events
  import opened Sorting
  import opened Grouping
  import opened Spans

  /** A log as the provider returns it; unmined logs lack some of the metadata. */
  datatype Log = Log(blockNumber: Option<nat>, logIndex: Option<nat>, transactionHash: Option<string>, data: string)

  datatype NoxEvent = NoxEvent(caller: Address, operator: Operator)

  /** ABI decoding, left uninterpreted: some logs are Nox events. */
  type Parser = Log -> Option<NoxEvent>

  function ToTransactionEvent(event: NoxEvent, log: Log): Option<Parsed> {
    match (log.transactionHash, log.blockNumber, log.logIndex)
    case (Some(hash), Some(block), Some(index)) =>
      Some(Parsed(block, index, hash, TransactionEvent(index, event.caller, event.operator)))
    case _ => None
  }

  function ParseLog(parse: Parser, log: Log): Option<Parsed> {
    match parse(log)
    case Some(event) => ToTransactionEvent(event, log)
    case None => None
  }

  /** The filter stage: logs that parse and carry all metadata. */
  function Extract(parse: Parser, logs: seq<Log>): (r: seq<Parsed>)
    ensures |r| <= |logs|
  {
    if logs == [] then []
    else (match ParseLog(parse, logs[0]) case Some(e) => [e] case None => []) + Extract(parse, logs[1..])
  }

  /** The messages of one batch of logs, as `read_batch` makes them. */
  function BatchMessages(chainId: nat, parse: Parser, logs: seq<Log>): seq<TransactionMessage> {
    Group(chainId, Sort(EventKey, Extract(parse, logs)))
  }

  // ----- What is assumed of the chain -----

  /** The events of a block are filed under it, and their log indexes are unique. */
  ghost predicate BlockWellFormed(parse: Parser, chain: nat -> seq<Log>, b: nat) {
    var es := Extract(parse, chain(b));
    (forall e :: e in es ==> e.block == b) && DistinctKeys(EventKey, multiset(es))
  }

  /** A transaction is in one block. */
  ghost predicate NoCommonTransaction(parse: Parser, chain: nat -> seq<Log>, b: nat, c: nat) {
    b != c ==> forall e, f :: e in Extract(parse, chain(b)) && f in Extract(parse, chain(c)) ==> e.hash != f.hash
  }

  ghost predicate WellFormed(parse: Parser, chain: nat -> seq<Log>) {
    && (forall b: nat :: BlockWellFormed(parse, chain, b))
    && (forall b: nat, c: nat :: NoCommonTransaction(parse, chain, b, c))
  }

  // ----- Extraction respects permutation and concatenation -----

  lemma {:induction false} ExtractConcat(parse: Parser, a: seq<Log>, b: seq<Log>)
    ensures Extract(parse, a + b) == Extract(parse, a) + Extract(parse, b)
  {
    if a == [] {
      assert a + b == b;
    } else {
      ExtractConcat(parse, a[1..], b);
      FirstOfConcat(a, b);
      Associative(Extract(parse, a[..1]), Extract(parse, a[1..]), Extract(parse, b));
      ExtractFirst(parse, a);
      ExtractFirst(parse, a + b);
    }
  }

  lemma ExtractFirst(parse: Parser, logs: seq<Log>)
    requires logs != []
    ensures Extract(parse, logs) == Extract(parse, logs[..1]) + Extract(parse, logs[1..])
  {
    assert Extract(parse, logs[..1][1..]) == [];
  }

  lemma FirstOfConcat<T>(a: seq<T>, b: seq<T>)
    requires a != []
    ensures (a + b)[..1] == a[..1] && (a + b)[1..] == a[1..] + b
  {
  }

  lemma {:induction false} ExtractPermutation(parse: Parser, a: seq<Log>, b: seq<Log>)
    requires multiset(a) == multiset(b)
    ensures multiset(Extract(parse, a)) == multiset(Extract(parse, b))
    decreases |a|
  {
    if a == [] {
      assert b == [] by {
        assert |multiset(b)| == 0;
      }
    } else {
      var i := Occurrence(a, b);
      var rest := b[..i] + b[i + 1..];
      RemoveOccurrence(a, b, i);
      ExtractPermutation(parse, a[1..], rest);
      MoveToFront(parse, b, i);
      ExtractHead(parse, a[0], a[1..]);
      ExtractHead(parse, b[i], rest);
      assert a == [a[0]] + a[1..];
    }
  }

  lemma RemoveOccurrence(a: seq<Log>, b: seq<Log>, i: nat)
    requires a != [] && i < |b| && multiset(a) == multiset(b) && b[i] == a[0]
    ensures multiset(a[1..]) == multiset(b[..i] + b[i + 1..])
  {
    var x := b[i];
    assert a == [x] + a[1..];
    assert b == b[..i] + [x] + b[i + 1..];
    assert multiset(a[1..]) == multiset(a) - multiset{x};
    assert multiset(b[..i] + b[i + 1..]) == multiset(b) - multiset{x};
  }

  lemma ExtractHead(parse: Parser, x: Log, s: seq<Log>)
    ensures multiset(Extract(parse, [x] + s)) == multiset(Extract(parse, [x])) + multiset(Extract(parse, s))
  {
    ExtractConcat(parse, [x], s);
  }

  lemma Occurrence(a: seq<Log>, b: seq<Log>) returns (i: nat)
    requires a != [] && multiset(a) == multiset(b)
    ensures i < |b| && b[i] == a[0]
  {
    assert a[0] in multiset(a);
    assert a[0] in b;
    i :| 0 <= i < |b| && b[i] == a[0];
  }

  lemma SwapBlocks(parse: Parser, a: seq<Log>, b: seq<Log>, rest: seq<Log>)
    ensures multiset(Extract(parse, a + (b + rest))) == multiset(Extract(parse, b + (a + rest)))
  {
    ExtractConcat(parse, a, b + rest);
    ExtractConcat(parse, b, rest);
    ExtractConcat(parse, b, a + rest);
    ExtractConcat(parse, a, rest);
  }

  lemma MoveToFront(parse: Parser, s: seq<Log>, i: nat)
    requires i < |s|
    ensures multiset(Extract(parse, s)) == multiset(Extract(parse, [s[i]] + (s[..i] + s[i + 1..])))
  {
    CutAt(s, i);
    SwapBlocks(parse, s[..i], [s[i]], s[i + 1..]);
  }

  lemma CutAt<T>(s: seq<T>, i: nat)
    requires i < |s|
    ensures s == s[..i] + ([s[i]] + s[i + 1..])
  {
  }

  lemma {:induction false} ExtractIsConsistent(parse: Parser, logs: seq<Log>)
    ensures Consistent(Extract(parse, logs))
  {
    if logs != [] {
      ExtractIsConsistent(parse, logs[1..]);
    }
  }

  // ----- Canonical events and messages of a block -----

  function BlockEvents(parse: Parser, chain: nat -> seq<Log>): nat -> seq<Parsed> {
    (b: nat) => Sort(EventKey, Extract(parse, chain(b)))
  }

  /** The messages of one block; the stream's canonical order is block by block. */
  function BlockMessages(chainId: nat, parse: Parser, chain: nat -> seq<Log>): nat -> seq<TransactionMessage> {
    (b: nat) => BatchMessages(chainId, parse, chain(b))
  }

  /** `es` are the events `raw` of block b, sorted. */
  ghost predicate EventsOfBlock(raw: seq<Parsed>, b: nat, es: seq<Parsed>) {
    && multiset(es) == multiset(raw)
    && StrictlyOrdered(EventKey, es)
    && (forall e :: e in es ==> e in raw && e.block == b)
    && Consistent(es)
  }

  lemma BlockEventsProperties(parse: Parser, chain: nat -> seq<Log>, b: nat)
    requires WellFormed(parse, chain)
    ensures EventsOfBlock(Extract(parse, chain(b)), b, BlockEvents(parse, chain)(b))
  {
    assert BlockWellFormed(parse, chain, b);
    ExtractIsConsistent(parse, chain(b));
    SortedEvents(Extract(parse, chain(b)), b);
  }

  lemma SortedEvents(raw: seq<Parsed>, b: nat)
    requires (forall e :: e in raw ==> e.block == b) && DistinctKeys(EventKey, multiset(raw)) && Consistent(raw)
    ensures EventsOfBlock(raw, b, Sort(EventKey, raw))
  {
    SortForgetsInputOrder(EventKey, raw, raw);
    SortIsOrderedPermutation(EventKey, raw);
    forall e | e in Sort(EventKey, raw)
      ensures e in raw
    {
      assert e in multiset(raw);
    }
  }

  /** `es` are sorted events of the blocks from lo to hi - 1, whose events are given by `raw`. */
  ghost predicate EventsOfSpan(raw: nat -> seq<Parsed>, lo: nat, hi: int, es: seq<Parsed>) {
    && StrictlyOrdered(EventKey, es)
    && (forall e :: e in es ==> lo <= e.block < hi && e in raw(e.block))
    && Consistent(es)
  }

  lemma OneMoreBlock(raw: nat -> seq<Parsed>, lo: nat, block: nat, es: seq<Parsed>, fs: seq<Parsed>)
    requires lo <= block && EventsOfSpan(raw, lo, block, es) && EventsOfBlock(raw(block), block, fs)
    ensures EventsOfSpan(raw, lo, block + 1, es + fs)
  {
    LaterBlockAfter(es, fs, block);
  }

  lemma {:induction false} SpanOrdersEvents(raw: nat -> seq<Parsed>, events: nat -> seq<Parsed>, lo: nat, hi: int)
    requires forall b: nat :: EventsOfBlock(raw(b), b, events(b))
    ensures EventsOfSpan(raw, lo, hi, Span(events, lo, hi))
    decreases hi - lo
  {
    if lo < hi {
      SpanOrdersEvents(raw, events, lo, hi - 1);
      OneMoreBlock(raw, lo, hi - 1, Span(events, lo, hi - 1), events(hi - 1));
    }
  }

  ghost predicate DistributesUpToOrder<S, T>(
    f: seq<S> -> seq<T>, source: nat -> seq<S>, image: nat -> seq<T>, lo: nat, b: nat)
  {
    multiset(f(Span(source, lo, b) + source(b))) == multiset(f(Span(source, lo, b))) + multiset(image(b))
  }

  lemma {:induction false} MapBlocksUpToOrder<S, T>(
      f: seq<S> -> seq<T>, source: nat -> seq<S>, image: nat -> seq<T>, lo: nat, hi: int)
    requires f([]) == []
    requires forall b: nat :: DistributesUpToOrder(f, source, image, lo, b)
    ensures multiset(Span(image, lo, hi)) == multiset(f(Span(source, lo, hi)))
    decreases hi - lo
  {
    if lo < hi {
      MapBlocksUpToOrder(f, source, image, lo, hi - 1);
      assert DistributesUpToOrder(f, source, image, lo, hi - 1);
    }
  }

  /** The sorted events of a span are the sorted events of its blocks, one after the other. */
  lemma SpanEvents(parse: Parser, chain: nat -> seq<Log>, lo: nat, hi: int)
    requires WellFormed(parse, chain)
    ensures multiset(Span(BlockEvents(parse, chain), lo, hi)) == multiset(Extract(parse, Span(chain, lo, hi)))
    ensures EventsOfSpan((b: nat) => Extract(parse, chain(b)), lo, hi, Span(BlockEvents(parse, chain), lo, hi))
  {
    var extract, events := (logs: seq<Log>) => Extract(parse, logs), BlockEvents(parse, chain);
    forall b: nat
      ensures DistributesUpToOrder(extract, chain, events, lo, b)
      ensures EventsOfBlock(Extract(parse, chain(b)), b, events(b))
    {
      BlockEventsProperties(parse, chain, b);
      ExtractConcat(parse, Span(chain, lo, b), chain(b));
    }
    MapBlocksUpToOrder(extract, chain, events, lo, hi);
    SpanOrdersEvents((b: nat) => Extract(parse, chain(b)), events, lo, hi);
  }

  lemma LaterBlockAfter(a: seq<Parsed>, b: seq<Parsed>, block: nat)
    requires StrictlyOrdered(EventKey, a) && StrictlyOrdered(EventKey, b)
    requires (forall e :: e in a ==> e.block < block) && (forall e :: e in b ==> e.block == block)
    ensures StrictlyOrdered(EventKey, a + b)
  {
    var s := a + b;
    forall i, j | 0 <= i < j < |s|
      ensures EventKey(s[i]).Less(EventKey(s[j]))
    {
      if i < |a| <= j {
        assert s[i] in a && s[j] in b;
      }
    }
  }

  // ----- Grouping a concatenation -----

  lemma {:induction false} EventsOfAppend(a: seq<Parsed>, b: seq<Parsed>, hash: string)
    requires hash in Hashes(a) && hash !in Hashes(b)
    ensures EventsOf(a + b, hash) == EventsOf(a, hash) && FirstBlock(a + b, hash) == FirstBlock(a, hash)
  {
    assert (a + b)[1..] == a[1..] + b;
    if hash in Hashes(a[1..]) {
      EventsOfAppend(a[1..], b, hash);
    } else {
      assert a[0].hash == hash by {
        var e :| e in a && e.hash == hash;
        assert a == [a[0]] + a[1..];
      }
      NoEventsOf(a[1..], hash);
      NoEventsOf(a[1..] + b, hash);
      assert hash !in Hashes(a[1..] + b);
    }
  }

  lemma {:induction false} WithoutAppend(a: seq<Parsed>, b: seq<Parsed>, hash: string)
    requires hash !in Hashes(b)
    ensures Without(a + b, hash) == Without(a, hash) + b
  {
    if a == [] {
      assert a + b == b;
      WithoutAbsent(b, hash);
    } else {
      assert (a + b)[1..] == a[1..] + b;
      WithoutAppend(a[1..], b, hash);
    }
  }

  lemma {:induction false} WithoutAbsent(b: seq<Parsed>, hash: string)
    requires hash !in Hashes(b)
    ensures Without(b, hash) == b
  {
    if b != [] {
      assert b[0] in b;
      assert Hashes(b[1..]) <= Hashes(b);
      WithoutAbsent(b[1..], hash);
    }
  }

  /** Event lists without a common transaction are grouped independently. */
  lemma {:induction false} GroupAppend(chainId: nat, a: seq<Parsed>, b: seq<Parsed>)
    requires Hashes(a) !! Hashes(b)
    ensures Group(chainId, a + b) == Group(chainId, a) + Group(chainId, b)
    decreases |a|
  {
    if a == [] {
      assert a + b == b && Group(chainId, a) + Group(chainId, b) == Group(chainId, b);
    } else {
      var message, rest := MessageOf(chainId, a, a[0].hash), Without(a[1..], a[0].hash);
      FirstGroupOfAppend(chainId, a, b);
      GroupStep(chainId, a + b, message, rest + b);
      GroupStep(chainId, a, message, rest);
      RemainingHashes(a);
      GroupAppend(chainId, rest, b);
      Associative([message], Group(chainId, rest), Group(chainId, b));
    }
  }

  lemma GroupStep(chainId: nat, es: seq<Parsed>, message: TransactionMessage, rest: seq<Parsed>)
    requires es != [] && message == MessageOf(chainId, es, es[0].hash) && rest == Without(es[1..], es[0].hash)
    ensures Group(chainId, es) == [message] + Group(chainId, rest)
  {
  }

  /** The first group of a concatenation takes nothing from the second list. */
  lemma FirstGroupOfAppend(chainId: nat, a: seq<Parsed>, b: seq<Parsed>)
    requires a != [] && Hashes(a) !! Hashes(b)
    ensures (a + b)[0] == a[0]
    ensures MessageOf(chainId, a + b, a[0].hash) == MessageOf(chainId, a, a[0].hash)
    ensures Without((a + b)[1..], a[0].hash) == Without(a[1..], a[0].hash) + b
  {
    assert a[0] in a && a[0].hash in Hashes(a);
    assert (a + b)[1..] == a[1..] + b;
    WithoutAppend(a[1..], b, a[0].hash);
    EventsOfAppend(a, b, a[0].hash);
  }

  lemma RemainingHashes(a: seq<Parsed>)
    requires a != []
    ensures Hashes(Without(a[1..], a[0].hash)) <= Hashes(a)
  {
    HashesSplit(a[1..], a[0].hash);
    assert Hashes(a[1..]) <= Hashes(a);
  }

  lemma BlocksShareNoTransaction(parse: Parser, chain: nat -> seq<Log>, lo: nat, hi: nat)
    requires WellFormed(parse, chain)
    ensures Hashes(Span(BlockEvents(parse, chain), lo, hi)) !! Hashes(BlockEvents(parse, chain)(hi))
  {
    SpanEvents(parse, chain, lo, hi);
    BlockEventsProperties(parse, chain, hi);
    forall h | h in Hashes(Span(BlockEvents(parse, chain), lo, hi))
      ensures h !in Hashes(BlockEvents(parse, chain)(hi))
    {
      var e :| e in Span(BlockEvents(parse, chain), lo, hi) && e.hash == h;
      assert NoCommonTransaction(parse, chain, e.block, hi);
    }
  }

  ghost predicate Distributes<S, T>(f: seq<S> -> seq<T>, source: nat -> seq<S>, image: nat -> seq<T>, lo: nat, b: nat) {
    f(Span(source, lo, b) + source(b)) == f(Span(source, lo, b)) + image(b)
  }

  /** A function that distributes over the blocks of a span turns the span into the span of its images. */
  lemma {:induction false} MapBlocks<S, T>(
      f: seq<S> -> seq<T>, source: nat -> seq<S>, image: nat -> seq<T>, lo: nat, hi: int)
    requires f([]) == []
    requires forall b: nat :: lo <= b < hi ==> Distributes(f, source, image, lo, b)
    ensures f(Span(source, lo, hi)) == Span(image, lo, hi)
    decreases hi - lo
  {
    if lo < hi {
      MapBlocks(f, source, image, lo, hi - 1);
      assert Distributes(f, source, image, lo, hi - 1);
    }
  }

  lemma BlockGroup(chainId: nat, parse: Parser, chain: nat -> seq<Log>, b: nat)
    ensures BlockMessages(chainId, parse, chain)(b) == Group(chainId, BlockEvents(parse, chain)(b))
  {
    assert BlockEvents(parse, chain)(b) == Sort(EventKey, Extract(parse, chain(b)));
    assert BlockMessages(chainId, parse, chain)(b) == BatchMessages(chainId, parse, chain(b));
  }

  /** Grouping a span of blocks is grouping each block. */
  lemma SpanMessages(chainId: nat, parse: Parser, chain: nat -> seq<Log>, lo: nat, hi: int)
    requires WellFormed(parse, chain)
    ensures Group(chainId, Span(BlockEvents(parse, chain), lo, hi))
            == Span(BlockMessages(chainId, parse, chain), lo, hi)
  {
    var events, messages := BlockEvents(parse, chain), BlockMessages(chainId, parse, chain);
    var f := (es: seq<Parsed>) => Group(chainId, es);
    forall b: nat | lo <= b < hi
      ensures Distributes(f, events, messages, lo, b)
    {
      BlocksShareNoTransaction(parse, chain, lo, b);
      GroupAppend(chainId, Span(events, lo, b), events(b));
      BlockGroup(chainId, parse, chain, b);
    }
    MapBlocks(f, events, messages, lo, hi);
  }

  // ----- Main results -----

  /**
   Any permutation of the logs of a span, however they were fetched, yields the same messages: those
   of its blocks in canonical order.
   */
  lemma BatchIsCanonical(chainId: nat, parse: Parser, chain: nat -> seq<Log>, lo: nat, hi: int, logs: seq<Log>)
    requires WellFormed(parse, chain)
    requires multiset(logs) == multiset(Span(chain, lo, hi))
    ensures BatchMessages(chainId, parse, logs) == Span(BlockMessages(chainId, parse, chain), lo, hi)
    ensures StrictlyOrdered(EventKey, Sort(EventKey, Extract(parse, logs))) &&
        Consistent(Sort(EventKey, Extract(parse, logs)))
  {
    ExtractPermutation(parse, logs, Span(chain, lo, hi));
    SpanEvents(parse, chain, lo, hi);
    var es := Span(BlockEvents(parse, chain), lo, hi);
    StrictIsDistinct(es);
    SortForgetsInputOrder(EventKey, Extract(parse, logs), es);
    SortsInto(EventKey, es, es);
    SpanMessages(chainId, parse, chain, lo, hi);
  }

  lemma StrictIsDistinct(es: seq<Parsed>)
    requires StrictlyOrdered(EventKey, es)
    ensures DistinctKeys(EventKey, multiset(es))
    ensures forall i, j :: 0 <= i < j < |es| ==> es[i] != es[j]
  {
    ListedOnce(EventKey, es, es);
  }

  /** The messages of successive batches, the logs of each returned in any order. */
  ghost function Concatenated(chainId: nat, parse: Parser, batches: seq<seq<Log>>): seq<TransactionMessage> {
    if batches == [] then []
    else Concatenated(chainId, parse, batches[..|batches| - 1]) + BatchMessages(chainId, parse, batches[|batches| - 1])
  }

  /** `batches` are truthful fetches of the pieces of a range cut at `cuts`. */
  ghost predicate CutInto(chain: nat -> seq<Log>, cuts: seq<nat>, batches: seq<seq<Log>>) {
    && |cuts| == |batches| + 1
    && forall i :: 0 <= i < |batches| ==>
        cuts[i] <= cuts[i + 1] && multiset(batches[i]) == multiset(Span(chain, cuts[i], cuts[i + 1]))
  }

  lemma FewerCuts(chain: nat -> seq<Log>, cuts: seq<nat>, batches: seq<seq<Log>>)
    requires CutInto(chain, cuts, batches) && batches != []
    ensures CutInto(chain, cuts[..|batches|], batches[..|batches| - 1])
    ensures cuts[|batches| - 1] <= cuts[|batches|]
    ensures multiset(batches[|batches| - 1]) == multiset(Span(chain, cuts[|batches| - 1], cuts[|batches|]))
  {
  }

  lemma {:induction false} CutsAreInvisible(chainId: nat, parse: Parser, chain: nat -> seq<Log>, cuts: seq<nat>,
      batches: seq<seq<Log>>)
    requires WellFormed(parse, chain) && CutInto(chain, cuts, batches)
    ensures cuts[0] <= cuts[|batches|]
    ensures Concatenated(chainId, parse, batches)
            == Span(BlockMessages(chainId, parse, chain), cuts[0], cuts[|batches|])
    decreases |batches|
  {
    var n := |batches|;
    if n > 0 {
      FewerCuts(chain, cuts, batches);
      CutsAreInvisible(chainId, parse, chain, cuts[..n], batches[..n - 1]);
      BatchIsCanonical(chainId, parse, chain, cuts[n - 1], cuts[n], batches[n - 1]);
      SpanJoin(BlockMessages(chainId, parse, chain), cuts[0], cuts[n - 1], cuts[n]);
    }
  }

  /** Two ways of cutting the same blocks into batches, fetched in any order, give the same messages. */
  lemma BatchSizeIndependence(
    chainId: nat, parse: Parser, chain: nat -> seq<Log>,
    cuts: seq<nat>, batches: seq<seq<Log>>, cuts': seq<nat>, batches': seq<seq<Log>>)
    requires WellFormed(parse, chain) && CutInto(chain, cuts, batches) && CutInto(chain, cuts', batches')
    requires cuts[0] == cuts'[0] && cuts[|batches|] == cuts'[|batches'|]
    ensures Concatenated(chainId, parse, batches) == Concatenated(chainId, parse, batches')
  {
    CutsAreInvisible(chainId, parse, chain, cuts, batches);
    CutsAreInvisible(chainId, parse, chain, cuts', batches');
  }

  /** A transaction has one message on the whole chain: equal checksums mean equal block and equal message. */
  lemma ChecksumsAreUnique(chainId: nat, parse: Parser, chain: nat -> seq<Log>, b: nat, c: nat,
      m: TransactionMessage, n: TransactionMessage)
    requires WellFormed(parse, chain)
    requires m in BlockMessages(chainId, parse, chain)(b) && n in BlockMessages(chainId, parse, chain)(c)
    requires m.Checksum() == n.Checksum()
    ensures b == c && m == n
  {
    ChecksumIdentifiesTransaction(m, n);
    assert NoCommonTransaction(parse, chain, b, c);
    BlockEventsProperties(parse, chain, b);
    BlockEventsProperties(parse, chain, c);
    OneMessagePerTransaction(chainId, BlockEvents(parse, chain)(b));
    OneMessagePerTransaction(chainId, BlockEvents(parse, chain)(c));
  }

  /** Within a block no message is listed twice, and each carries its block's number. */
  lemma BlockMessagesAreDistinct(chainId: nat, parse: Parser, chain: nat -> seq<Log>, b: nat)
    requires WellFormed(parse, chain)
    ensures var ms := BlockMessages(chainId, parse, chain)(b);
            && (forall i, j :: 0 <= i < j < |ms| ==> ms[i].Checksum() != ms[j].Checksum())
            && (forall m :: m in ms ==> m.blockNumber == b && m.events != [])
  {
    BlockEventsProperties(parse, chain, b);
    var es := BlockEvents(parse, chain)(b);
    var ms := BlockMessages(chainId, parse, chain)(b);
    OneMessagePerTransaction(chainId, es);
    forall i, j | 0 <= i < j < |ms|
      ensures ms[i].Checksum() != ms[j].Checksum()
    {
      ChecksumIdentifiesTransaction(ms[i], ms[j]);
    }
    forall m | m in ms
      ensures m.blockNumber == b && m.events != []
    {
      var e := MessageKeyComesFromAnEvent(chainId, es, m.transactionHash);
      NoEventsOf(es, m.transactionHash);
    }
  }
}

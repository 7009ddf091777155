/** The block reader: one batch of blocks, fetched by bisection, parsed, sorted and grouped. */
module Reader {
  import opened Wrappers
  import opened Events
  import opened Spans
  import opened Sorting
  import opened Grouping
  import opened Extraction
  import opened Bisection
  import opened BisectionLaws
  import opened Delivery
  import Outside

  datatype BatchResult = BatchResult(transactions: seq<TransactionMessage>, startBlock: u64, endBlock: u64)

  class BlockReader {
    const batchSize: u64
    const chainId: nat
    const parse: Parser
    const provider: nat -> Fetcher<Log> // the provider's behaviour during the n-th batch attempt
    ghost const chain: nat -> seq<Log>
    var attempts: nat

    constructor (batchSize: u64, chainId: nat, parse: Parser, provider: nat -> Fetcher<Log>,
        ghost chain: nat -> seq<Log>)
      requires WellFormed(parse, chain) && forall n: nat :: Truthful(chain, provider(n))
      ensures Valid() && fresh(this)
      ensures this.batchSize == batchSize && this.chainId == chainId && this.parse == parse && this.chain == chain
    {
      this.batchSize := batchSize;
      this.chainId := chainId;
      this.parse := parse;
      this.provider := provider;
      this.chain := chain;
      attempts := 0;
    }

    /** The chain is well formed, and whatever the provider accepts it answers truthfully. */
    ghost predicate Valid() {
      WellFormed(parse, chain) && forall n: nat :: Truthful(chain, provider(n))
    }

    /** The n-th attempt to fetch the logs of startBlock..endBlock meets an error. */
    ghost predicate Fails(n: nat, startBlock: u64, endBlock: u64) {
      Bisect(provider(n), 0, startBlock, endBlock).result.Err?
    }

    /** The error is what the provider answered to some request within startBlock..endBlock. */
    ghost predicate IsAnswer(fetch: Fetcher<Log>, startBlock: u64, endBlock: u64, e: ChainError) {
      exists n: nat, a: u64, b: u64 :: startBlock <= a && b <= endBlock && fetch(n, a, b) == Err(e)
    }

    /**
     Every success is the canonical messages of startBlock..endBlock, whatever was split or reordered: each log
     that parses has its event in one of them, and there is nothing else. An error is the provider's, and comes
     exactly when the fetch fails.
     */
    method ReadBatch(startBlock: u64, latestBlock: u64) returns (r: Result<BatchResult, ChainError>)
      requires Valid()
      requires 1 <= startBlock + batchSize <= U64_MAX
      modifies this
      ensures startBlock > latestBlock ==> r == Ok(BatchResult([], startBlock, Max(startBlock - 1, 0)))
      ensures startBlock <= latestBlock && r.Ok? ==>
        var end := Min(startBlock + batchSize - 1, latestBlock);
        r.value == BatchResult(Span(BlockMessages(chainId, parse, chain), startBlock, end + 1), startBlock, end)
      ensures startBlock <= latestBlock && r.Ok? ==>
        Delivers(chainId, parse, Span(chain, startBlock, r.value.endBlock + 1), r.value.transactions)
      ensures attempts == if startBlock <= latestBlock then old(attempts) + 1 else old(attempts)
      ensures startBlock <= latestBlock ==>
        (r.Err? <==> Fails(old(attempts), startBlock, Min(startBlock + batchSize - 1, latestBlock)))
      ensures r.Err? ==>
        IsAnswer(provider(old(attempts)), startBlock, Min(startBlock + batchSize - 1, latestBlock), r.error)
    {
      if startBlock > latestBlock {
        return Ok(BatchResult([], startBlock, Max(startBlock - 1, 0)));
      }
      var endBlock: u64 := Min(startBlock + batchSize - 1, latestBlock);
      var fetch := provider(attempts);
      attempts := attempts + 1;
      var fetched, _, _, _, _ := SplitLogsOnError(startBlock, endBlock, fetch);
      match fetched {
        case Err(e) =>
          AnErrorIsAnAnswer(fetch, startBlock, endBlock);
          return Err(e);
        case Ok(logs) =>
          assert multiset(logs) == multiset(Span(chain, startBlock, endBlock + 1)) by {
            assert Truthful(chain, fetch);
            SuccessReturnsTheRange(chain, fetch, 0, startBlock, endBlock);
          }
          BatchIsCanonical(chainId, parse, chain, startBlock, endBlock + 1, logs);
          SpanDelivers(chainId, parse, chain, startBlock, endBlock + 1);
          var events := Sort(EventKey, Extract(parse, logs));
          var transactions := GroupByTransaction(chainId, events);
          return Ok(BatchResult(transactions, startBlock, endBlock));
      }
    }

    lemma AnErrorIsAnAnswer(fetch: Fetcher<Log>, startBlock: u64, endBlock: u64)
      requires Bisect(fetch, 0, startBlock, endBlock).result.Err?
      ensures IsAnswer(fetch, startBlock, endBlock, Bisect(fetch, 0, startBlock, endBlock).result.error)
    {
      if startBlock <= endBlock {
        var n := TooLargeIsIrreducible(fetch, 0, startBlock, endBlock);
      }
    }

    /** The attempts from `first` to `next` - 1 failed. */
    ghost predicate AllFailed(first: nat, next: nat, startBlock: u64, endBlock: u64) {
      forall n: nat :: first <= n < next ==> Fails(n, startBlock, endBlock)
    }

    /** The last attempt is the first one from `first` on that has not failed, and the batch is what it read. */
    ghost predicate FirstSuccess(first: nat, batch: BatchResult, startBlock: u64, endBlock: u64)
      reads this
    {
      && first < attempts && AllFailed(first, attempts - 1, startBlock, endBlock)
      && !Fails(attempts - 1, startBlock, endBlock)
      && batch.transactions == Span(BlockMessages(chainId, parse, chain), startBlock, endBlock + 1)
      && batch.startBlock == startBlock && batch.endBlock == endBlock
    }

    lemma OneMoreFailure(first: nat, next: nat, startBlock: u64, endBlock: u64)
      requires AllFailed(first, next, startBlock, endBlock) && Fails(next, startBlock, endBlock)
      ensures AllFailed(first, next + 1, startBlock, endBlock)
    {
    }

    /** One attempt of the retry loop: it succeeds as the provider's answers allow. */
    method Attempt(startBlock: u64, latestBlock: u64, ghost first: nat) returns (r: Option<BatchResult>)
      requires Valid()
      requires 1 <= startBlock + batchSize <= U64_MAX
      requires startBlock <= latestBlock && first <= attempts
      requires AllFailed(first, attempts, startBlock, Min(startBlock + batchSize - 1, latestBlock))
      modifies this
      ensures attempts == old(attempts) + 1
      ensures var end := Min(startBlock + batchSize - 1, latestBlock);
              match r
              case Some(batch) => FirstSuccess(first, batch, startBlock, end)
              case None => AllFailed(first, attempts, startBlock, end)
    {
      var result := ReadBatch(startBlock, latestBlock);
      if result.Ok? {
        return Some(result.value);
      }
      OneMoreFailure(first, attempts - 1, startBlock, Min(startBlock + batchSize - 1, latestBlock));
      return None;
    }

    /**
     Retries until a batch is read: the first attempt that does not fail, however many failed before. None if
     the caller is dropped while it waits between two attempts.
     */
    method ReadBatchWithRetry(startBlock: u64, latestBlock: u64, world: Outside.World) returns (r: Option<BatchResult>)
      requires Valid() && world.Valid() && !world.sys.pc.Down?
      requires 1 <= startBlock + batchSize <= U64_MAX
      requires startBlock <= latestBlock
      modifies this, world`conn, world`unseen, world`sys, world`patience, world`record
      ensures world.Valid() && Outside.EnvironmentMoved(old(world.sys), world.sys)
      ensures r.Some? ==>
        && world.record == old(world.record)
        && FirstSuccess(old(attempts), r.value, startBlock, Min(startBlock + batchSize - 1, latestBlock))
      ensures r.None? ==>
        && world.record == Outside.CutShort(old(world.record))
        && AllFailed(old(attempts), attempts, startBlock, Min(startBlock + batchSize - 1, latestBlock))
    {
      while true
        invariant world.Valid() && Outside.EnvironmentMoved(old(world.sys), world.sys)
        invariant world.record == old(world.record) && attempts >= old(attempts)
        invariant AllFailed(old(attempts), attempts, startBlock, Min(startBlock + batchSize - 1, latestBlock))
        decreases world.patience
      {
        r := Attempt(startBlock, latestBlock, old(attempts));
        if r.Some? {
          return;
        }
        var polled := world.Waits();
        if !polled {
          return;
        }
      }
    }
  }
}

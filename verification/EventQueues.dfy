/** The event-queue lookup of the FLP client and its cache (src/flp/index.ts). */
module EventQueues {
  import opened Results
  import opened RuntimeFlags

  const QUEUE_OFFSET := 128
  const SLICE_END := QUEUE_OFFSET + 32

  /** Account data by key; an absent key is an account that does not exist. */
  type Chain = map<Pubkey, seq<byte>>

  type Discriminator = d: seq<byte> | |d| == 8 witness seq(8, _ => 0)

  /** The event queue of a perp market, read from its account data; None for any other account. */
  function QueueOf(chain: Chain, disc: Discriminator, key: Pubkey): Option<Pubkey> {
    if key in chain && |chain[key]| >= SLICE_END && chain[key][..8] == disc
    then Some(chain[key][QUEUE_OFFSET..SLICE_END])
    else None
  }

  /** Keys in order of first occurrence. */
  function Distinct(keys: seq<Pubkey>): (d: seq<Pubkey>)
    ensures forall k :: k in d <==> k in keys
    ensures forall i, j | 0 <= i < j < |d| :: d[i] != d[j]
  {
    if keys == [] then []
    else
      var init, last := keys[..|keys| - 1], keys[|keys| - 1];
      assert keys == init + [last];
      if last in init then Distinct(init) else Distinct(init) + [last]
  }

  function Keys(metas: seq<AccountMeta>): (keys: seq<Pubkey>)
    ensures |keys| == |metas| && forall i | 0 <= i < |keys| :: keys[i] == metas[i].pubkey
  {
    seq(|metas|, i requires 0 <= i < |metas| => metas[i].pubkey)
  }

  function QueueMetas(chain: Chain, disc: Discriminator, keys: seq<Pubkey>): seq<AccountMeta> {
    if keys == [] then []
    else
      var queue := QueueOf(chain, disc, keys[|keys| - 1]);
      QueueMetas(chain, disc, keys[..|keys| - 1])
      + (if queue.Some? then [AccountMeta(queue.value, false, false)] else [])
  }

  /** The uncached answer: one read-only queue for each distinct perp market, in order of first occurrence. */
  function Scan(chain: Chain, disc: Discriminator, health: seq<AccountMeta>): seq<AccountMeta> {
    QueueMetas(chain, disc, Distinct(Keys(health)))
  }

  /** Keys that still have to be fetched. */
  function Unknown(cache: map<Pubkey, Option<Pubkey>>, keys: seq<Pubkey>): (u: seq<Pubkey>)
    ensures forall k :: k in u <==> k in keys && k !in cache
    ensures forall i, j | 0 <= i < j < |u| :: u[i] != u[j]
  {
    Filter(cache, Distinct(keys))
  }

  function Filter(cache: map<Pubkey, Option<Pubkey>>, keys: seq<Pubkey>): (u: seq<Pubkey>)
    ensures forall k :: k in u <==> k in keys && k !in cache
    ensures (forall i, j | 0 <= i < j < |keys| :: keys[i] != keys[j]) ==> forall i, j | 0 <= i < j < |u| :: u[i] != u[j]
  {
    if keys == [] then []
    else
      var init, last := keys[..|keys| - 1], keys[|keys| - 1];
      assert keys == init + [last];
      if last in cache then Filter(cache, init) else Filter(cache, init) + [last]
  }

  /** What fetching those accounts finds. */
  function Entries(chain: Chain, disc: Discriminator, keys: seq<Pubkey>): map<Pubkey, Option<Pubkey>> {
    map k | k in keys :: QueueOf(chain, disc, k)
  }

  lemma EntriesSnoc(cache: map<Pubkey, Option<Pubkey>>, chain: Chain, disc: Discriminator, keys: seq<Pubkey>, i: nat)
    requires i < |keys|
    ensures (cache + Entries(chain, disc, keys[..i]))[keys[i] := QueueOf(chain, disc, keys[i])]
            == cache + Entries(chain, disc, keys[..i + 1])
  {
    assert keys[..i + 1] == keys[..i] + [keys[i]];
  }

  /** What one call does to the cache. */
  function Filled(cache: map<Pubkey, Option<Pubkey>>, chain: Chain, disc: Discriminator,
                  keys: seq<Pubkey>): map<Pubkey, Option<Pubkey>> {
    cache + Entries(chain, disc, Unknown(cache, keys))
  }

  /** What a call answers from the cache alone: the queue of each key that has one, at the key's first occurrence. */
  function Answered(cache: map<Pubkey, Option<Pubkey>>, keys: seq<Pubkey>): seq<AccountMeta>
    requires forall k | k in keys :: k in cache
  {
    if keys == [] then []
    else
      var init, last := keys[..|keys| - 1], keys[|keys| - 1];
      Answered(cache, init)
      + (if last !in init && cache[last].Some? then [AccountMeta(cache[last].value, false, false)] else [])
  }

  class FlpClient {
    var marketQueues: map<Pubkey, Option<Pubkey>>
    const disc: Discriminator

    /** Every cached entry, including "not a market", agrees with the chain. */
    ghost predicate Agrees(chain: Chain)
      reads this
    {
      forall k | k in marketQueues :: marketQueues[k] == QueueOf(chain, disc, k)
    }

    constructor (disc: Discriminator)
      ensures marketQueues == map[] && this.disc == disc
    {
      marketQueues := map[];
      this.disc := disc;
    }

    /** The cache gains exactly the accounts never asked for before, fetched once each, and the answer is read off it.
        Given account data that does not change, the cache so stays in agreement with the chain and the answer is the
        uncached scan. */
    method EventQueueMetas(health: seq<AccountMeta>, chain: Chain)
      returns (queues: seq<AccountMeta>, fetched: seq<Pubkey>)
      modifies this
      ensures fetched == Unknown(old(marketQueues), Keys(health))
      ensures marketQueues == Filled(old(marketQueues), chain, disc, Keys(health))
      ensures queues == Answered(marketQueues, Keys(health))
      ensures old(Agrees(chain)) ==> Agrees(chain) && queues == Scan(chain, disc, health)
    {
      fetched := Unknown(marketQueues, Keys(health));
      Discover(fetched, chain);
      queues := InOrder(health);
      if old(Agrees(chain)) {
        AnsweredIsScan(marketQueues, chain, disc, Keys(health));
      }
    }

    /** Fetches the accounts and caches what each one is. */
    method Discover(unknown: seq<Pubkey>, chain: Chain)
      modifies this
      ensures marketQueues == old(marketQueues) + Entries(chain, disc, unknown)
    {
      for i := 0 to |unknown|
        invariant marketQueues == old(marketQueues) + Entries(chain, disc, unknown[..i])
      {
        var key := unknown[i];
        var entry := ReadMarket(key, chain);
        marketQueues := marketQueues[key := entry];
        EntriesSnoc(old(marketQueues), chain, disc, unknown, i);
      }
      assert unknown[..|unknown|] == unknown;
    }

    /** The RPC answers with at most the first SLICE_END bytes of an account. */
    method ReadMarket(key: Pubkey, chain: Chain) returns (entry: Option<Pubkey>)
      ensures entry == QueueOf(chain, disc, key)
    {
      if key !in chain {
        return None;
      }
      var account := chain[key];
      var data := if |account| > SLICE_END then account[..SLICE_END] else account;
      if |data| >= SLICE_END {
        assert data[..8] == account[..8];
        assert data[QUEUE_OFFSET..SLICE_END] == account[QUEUE_OFFSET..SLICE_END];
        if data[..8] == disc {
          var queue: Pubkey := data[QUEUE_OFFSET..SLICE_END];
          return Some(queue);
        }
      }
      entry := None;
    }

    /** Reads the answer off the cache. */
    method InOrder(health: seq<AccountMeta>) returns (queues: seq<AccountMeta>)
      requires forall k | k in Keys(health) :: k in marketQueues
      ensures queues == Answered(marketQueues, Keys(health))
    {
      ghost var keys := Keys(health);
      queues := [];
      var seen: set<Pubkey> := {};
      for i := 0 to |health|
        invariant forall k | k in keys[..i] :: k in marketQueues
        invariant forall k :: k in seen <==> k in keys[..i] && marketQueues[k].Some?
        invariant queues == Answered(marketQueues, keys[..i])
      {
        var key := health[i].pubkey;
        assert key == keys[i] && keys[i] in keys;
        assert keys[..i + 1] == keys[..i] + [key];
        assert keys[..i + 1][..i] == keys[..i];
        var queue := marketQueues[key];
        if queue.Some? && key !in seen {
          seen := seen + {key};
          queues := queues + [AccountMeta(queue.value, false, false)];
        }
      }
      assert keys[..|health|] == keys;
    }
  }

  /** From a cache that agrees with the chain the answer is the uncached scan. */
  lemma {:induction false} AnsweredIsScan(cache: map<Pubkey, Option<Pubkey>>, chain: Chain, disc: Discriminator,
                                          keys: seq<Pubkey>)
    requires forall k | k in keys :: k in cache && cache[k] == QueueOf(chain, disc, k)
    ensures Answered(cache, keys) == QueueMetas(chain, disc, Distinct(keys))
  {
    if keys != [] {
      var init, last := keys[..|keys| - 1], keys[|keys| - 1];
      assert keys == init + [last];
      AnsweredIsScan(cache, chain, disc, init);
      DistinctStep(chain, disc, init, last);
    }
  }

  lemma DistinctStep(chain: Chain, disc: Discriminator, init: seq<Pubkey>, last: Pubkey)
    ensures QueueMetas(chain, disc, Distinct(init + [last])) ==
              QueueMetas(chain, disc, Distinct(init)) +
              (if last in init || QueueOf(chain, disc, last).None? then []
               else [AccountMeta(QueueOf(chain, disc, last).value, false, false)])
  {
    assert (init + [last])[..|init|] == init;
    if last !in init {
      assert (Distinct(init) + [last])[..|Distinct(init)|] == Distinct(init);
    } else {
      assert QueueMetas(chain, disc, Distinct(init)) + [] == QueueMetas(chain, disc, Distinct(init));
    }
  }

  // ---- Any sequence of calls ----

  function Fetches(cache: map<Pubkey, Option<Pubkey>>, chain: Chain, disc: Discriminator,
        calls: seq<seq<AccountMeta>>): seq<Pubkey>
    decreases |calls|
  {
    if calls == [] then []
    else Unknown(cache, Keys(calls[0])) + Fetches(Filled(cache, chain, disc, Keys(calls[0])), chain, disc, calls[1..])
  }

  function CacheAfter(cache: map<Pubkey, Option<Pubkey>>, chain: Chain, disc: Discriminator,
        calls: seq<seq<AccountMeta>>): map<Pubkey, Option<Pubkey>>
    decreases |calls|
  {
    if calls == [] then cache else CacheAfter(Filled(cache, chain, disc, Keys(calls[0])), chain, disc, calls[1..])
  }

  /** After any calls, the next one answers like an uncached scan. */
  lemma {:induction false} CachedCallsAreScans(
      cache: map<Pubkey, Option<Pubkey>>, chain: Chain, disc: Discriminator, calls: seq<seq<AccountMeta>>,
      next: seq<AccountMeta>)
    requires forall k | k in cache :: cache[k] == QueueOf(chain, disc, k)
    ensures var c := Filled(CacheAfter(cache, chain, disc, calls), chain, disc, Keys(next));
            && (forall k | k in c :: c[k] == QueueOf(chain, disc, k))
            && (forall k | k in Keys(next) :: k in c)
            && Answered(c, Keys(next)) == Scan(chain, disc, next)
    decreases |calls|
  {
    if calls == [] {
      AnsweredIsScan(Filled(cache, chain, disc, Keys(next)), chain, disc, Keys(next));
    } else {
      CachedCallsAreScans(Filled(cache, chain, disc, Keys(calls[0])), chain, disc, calls[1..], next);
    }
  }

  /** Over any sequence of calls no account is fetched twice, nor one the cache already held. */
  lemma {:induction false} NoAccountFetchedTwice(
      cache: map<Pubkey, Option<Pubkey>>, chain: Chain, disc: Discriminator, calls: seq<seq<AccountMeta>>)
    ensures var f := Fetches(cache, chain, disc, calls);
            && (forall k | k in f :: k !in cache)
            && forall i, j | 0 <= i < j < |f| :: f[i] != f[j]
    decreases |calls|
  {
    if calls != [] {
      var filled := Filled(cache, chain, disc, Keys(calls[0]));
      NoAccountFetchedTwice(filled, chain, disc, calls[1..]);
      DisjointConcat(Unknown(cache, Keys(calls[0])), Fetches(filled, chain, disc, calls[1..]));
    }
  }

  lemma DisjointConcat(a: seq<Pubkey>, b: seq<Pubkey>)
    requires forall i, j | 0 <= i < j < |a| :: a[i] != a[j]
    requires forall i, j | 0 <= i < j < |b| :: b[i] != b[j]
    requires forall k | k in b :: k !in a
    ensures forall i, j | 0 <= i < j < |a + b| :: (a + b)[i] != (a + b)[j]
  {
    forall i, j | 0 <= i < j < |a + b|
      ensures (a + b)[i] != (a + b)[j]
    {
      if i < |a| <= j {
        assert b[j - |a|] in b;
      }
    }
  }
}

/** What the mempool's fields mean (mempool/mempool.go, mempool/tx.go). */
module MempoolSpec {
  import opened Types

  type TxId = Bytes

  datatype Tx = Tx(
    id: TxId,
    data: Bytes,
    sender: Bytes,
    nonce: U64,
    gasPrice: U64,
    gasLimit: U64,
    timestamp: int,
    height: int
  )

  datatype Config = Config(
    maxTxs: int,
    maxBytes: int,
    maxTxBytes: int,
    maxBatchTxs: nat,
    ttl: int,
    recheckEnabled: bool,
    cacheSize: nat,
    minGasPrice: U64
  )

  datatype AddResult =
    | Added | NotRunning | TooLarge | AlreadyExists | InsufficientGas | LowNonce | InvalidTx | MempoolFull
    | Panicked  // the transaction is stored, but the notification channel was closed by an earlier Stop

  /** A nil callback is None. */
  type CheckTx = Option<Tx -> bool>

  ghost predicate Passes(check: CheckTx, tx: Tx) {
    check.None? || check.value(tx)
  }

  type Store = map<TxId, Tx>
  type Index = map<Bytes, seq<Tx>>

  // ----- Counters -----

  ghost function TotalBytes(m: Store): nat {
    if m == map[] then 0 else
      var id :| id in m;
      |m[id].data| + TotalBytes(m - {id})
  }

  lemma {:induction false} TotalBytesWithout(m: Store, id: TxId)
    requires id in m
    ensures TotalBytes(m) == |m[id].data| + TotalBytes(m - {id})
    decreases |m|
  {
    var k :| k in m && TotalBytes(m) == |m[k].data| + TotalBytes(m - {k});
    if k != id {
      TotalBytesWithout(m - {k}, id);
      TotalBytesWithout(m - {id}, k);
      assert m - {k} - {id} == m - {id} - {k};
    }
  }

  lemma TotalBytesWith(m: Store, tx: Tx)
    requires tx.id !in m
    ensures TotalBytes(m[tx.id := tx]) == TotalBytes(m) + |tx.data|
  {
    TotalBytesWithout(m[tx.id := tx], tx.id);
    assert m[tx.id := tx] - {tx.id} == m;
  }

  // ----- The sender index -----

  ghost predicate NonceSorted(txs: seq<Tx>) {
    forall i, j | 0 <= i < j < |txs| :: txs[i].nonce <= txs[j].nonce
  }

  ghost predicate NoDuplicates<T>(xs: seq<T>) {
    forall i, j | 0 <= i < j < |xs| :: xs[i] != xs[j]
  }

  ghost predicate Keyed(store: Store) {
    forall id <- store :: store[id].id == id
  }

  /** A sender's list: in nonce order, without repeats, exactly the stored transactions of that sender. */
  ghost predicate ListMatches(store: Store, sender: Bytes, txs: seq<Tx>) {
    && NonceSorted(txs) && NoDuplicates(txs)
    && (forall tx <- txs :: tx.sender == sender && tx.id in store && store[tx.id] == tx)
    && (forall id <- store :: store[id].sender == sender ==> store[id] in txs)
  }

  /** There is a list for exactly the non-empty senders with something stored. */
  ghost predicate IndexMatches(store: Store, index: Index) {
    && (forall s <- index :: s != [] && index[s] != [] && ListMatches(store, s, index[s]))
    && (forall id <- store :: store[id].sender != [] ==> store[id].sender in index)
  }

  // ----- Nonces -----

  /** Zeros first, then strictly increasing positive numbers. */
  ghost predicate NonceRun(ns: seq<U64>) {
    forall i, j | 0 <= i < j < |ns| :: ns[i] == 0 || ns[i] < ns[j]
  }

  ghost predicate AllZero(ns: seq<U64>) {
    forall n <- ns :: n == 0
  }

  ghost predicate ZerosThenGrowing(ns: seq<U64>, k: nat) {
    && k <= |ns|
    && (forall i | 0 <= i < k :: ns[i] == 0)
    && (forall i | k <= i < |ns| :: ns[i] > 0)
    && (forall i, j | k <= i < j < |ns| :: ns[i] < ns[j])
  }

  /** The shape a NonceRun has, spelled out. */
  lemma NonceRunShape(ns: seq<U64>)
    ensures NonceRun(ns) <==> exists k: nat :: ZerosThenGrowing(ns, k)
  {
    if NonceRun(ns) {
      var k := 0;
      while k < |ns| && ns[k] == 0
        invariant 0 <= k <= |ns| && forall i | 0 <= i < k :: ns[i] == 0
      {
        k := k + 1;
      }
      assert forall i | k <= i < |ns| :: ns[i] > 0 by {
        if k < |ns| {
          assert forall i | k < i < |ns| :: ns[k] < ns[i];
        }
      }
      assert ZerosThenGrowing(ns, k);
    }
  }

  /** senderNonce records the last nonce of every sender from whom a positive one was accepted. */
  ghost predicate NoncesMatch(accepted: map<Bytes, seq<U64>>, senderNonce: map<Bytes, U64>) {
    && (forall s <- accepted :: NonceRun(accepted[s]))
    && (forall s <- senderNonce :: s in accepted && accepted[s] != []
                                   && senderNonce[s] == accepted[s][|accepted[s]| - 1] > 0)
    && (forall s <- accepted :: s !in senderNonce ==> AllZero(accepted[s]))
  }

  ghost function AcceptedFrom(accepted: map<Bytes, seq<U64>>, sender: Bytes): seq<U64> {
    if sender in accepted then accepted[sender] else []
  }

  /** The nonce check lets through exactly the nonces that continue the run. */
  lemma NonceCheckExactly(accepted: map<Bytes, seq<U64>>, senderNonce: map<Bytes, U64>, sender: Bytes, nonce: U64)
    requires NoncesMatch(accepted, senderNonce)
    ensures (sender in senderNonce ==> nonce > senderNonce[sender]) <==>
            NonceRun(AcceptedFrom(accepted, sender) + [nonce])
  {
    var ns := AcceptedFrom(accepted, sender);
    var next := ns + [nonce];
    if sender in senderNonce {
      assert ns == accepted[sender];
      assert next[|ns| - 1] == senderNonce[sender] && next[|ns|] == nonce;
      if nonce > senderNonce[sender] {
        forall i, j | 0 <= i < j < |next| ensures next[i] == 0 || next[i] < next[j] {
          if j == |ns| && i < |ns| - 1 {
            assert ns[i] == 0 || ns[i] < ns[|ns| - 1];
          }
        }
      }
    } else {
      assert forall i | 0 <= i < |ns| :: ns[i] in ns;
      assert forall i | 0 <= i < |ns| :: next[i] == ns[i] == 0;
    }
  }

  /** The recorded nonce is the largest accepted. */
  lemma RecordedIsLargest(accepted: map<Bytes, seq<U64>>, senderNonce: map<Bytes, U64>, sender: Bytes)
    requires NoncesMatch(accepted, senderNonce)
    ensures sender in senderNonce <==> exists n <- AcceptedFrom(accepted, sender) :: n > 0
    ensures sender in senderNonce ==>
              && senderNonce[sender] in accepted[sender]
              && forall n <- accepted[sender] :: n <= senderNonce[sender]
  {
    if sender in senderNonce {
      var ns := accepted[sender];
      assert ns[|ns| - 1] in ns;
      forall i | 0 <= i < |ns| ensures ns[i] <= senderNonce[sender] {
        if i < |ns| - 1 {
          assert ns[i] == 0 || ns[i] < ns[|ns| - 1];
        }
      }
    }
  }

  // ----- Capacity -----

  ghost predicate Fits(config: Config, store: Store, tx: Tx) {
    |store| < config.maxTxs && TotalBytes(store) + |tx.data| <= config.maxBytes
  }

  /** An empty pool may sit above a limit that is negative. */
  ghost predicate WithinLimits(config: Config, store: Store) {
    store == map[] || (|store| <= config.maxTxs && TotalBytes(store) <= config.maxBytes)
  }

  /** The cache gained exactly what `before` lost, stamped `now`. */
  ghost predicate CacheGrew(cache: map<TxId, int>, cache': map<TxId, int>, before: Store, after: Store, now: int) {
    && (forall id :: id in cache' <==> id in cache || (id in before && id !in after))
    && (forall id <- cache' :: cache'[id] == if id in before && id !in after then now else cache[id])
  }

  /** `after` is what is left of `before` once cheaper transactions made room for one at `price`. */
  ghost predicate EvictedFor(before: Store, after: Store, price: U64) {
    && (forall id <- after :: id in before && after[id] == before[id])
    && (forall id <- before :: id !in after ==>
          && before[id].gasPrice < price
          && forall k <- after :: before[id].gasPrice <= after[k].gasPrice)
  }

  /** The last eviction was needed: with one evicted transaction back, `tx` would not have fitted. */
  ghost predicate EvictedNoMore(config: Config, before: Store, after: Store, tx: Tx) {
    after == before || exists id <- before :: id !in after && !Fits(config, after[id := before[id]], tx)
  }

  lemma EvictNext(config: Config, before: Store, after: Store, price: U64, id: TxId, tx: Tx)
    requires EvictedFor(before, after, price) && id in after
    requires after[id].gasPrice < price && forall k <- after :: after[id].gasPrice <= after[k].gasPrice
    requires !Fits(config, after, tx)
    ensures EvictedFor(before, after - {id}, price) && EvictedNoMore(config, before, after - {id}, tx)
  {
    assert (after - {id})[id := before[id]] == after;
  }

  lemma CacheNext(before: Store, after: Store, id: TxId, cache: map<TxId, int>, cache': map<TxId, int>, now: int)
    requires CacheGrew(cache, cache', before, after, now) && id in after && id in before
    ensures CacheGrew(cache, cache'[id := now], before, after - {id}, now)
    ensures |after - {id}| < |after|
  {
    assert |after - {id}| == |(after - {id}).Keys| && |after| == |after.Keys|;
    assert (after - {id}).Keys == after.Keys - {id};
  }

  // ----- Who fits -----

  /** What evictions for a transaction at `price` can never take. */
  ghost function NotCheaper(store: Store, price: U64): Store {
    map id | id in store && store[id].gasPrice >= price :: store[id]
  }

  ghost predicate SubStore(a: Store, b: Store) {
    forall id <- a :: id in b && a[id] == b[id]
  }

  lemma {:induction false} SmallerStore(a: Store, b: Store)
    requires SubStore(a, b)
    ensures |a| <= |b| && TotalBytes(a) <= TotalBytes(b)
    decreases |a|
  {
    if a == map[] {
    } else {
      var id :| id in a;
      TotalBytesWithout(a, id);
      TotalBytesWithout(b, id);
      SmallerStore(a - {id}, b - {id});
    }
  }

  /** `rest` is left when the evictions for `tx` are over: it fits, or nothing cheaper is left to evict. */
  ghost predicate EvictionsEnd(config: Config, before: Store, rest: Store, tx: Tx) {
    && EvictedFor(before, rest, tx.gasPrice)
    && (!Fits(config, rest, tx) ==> forall id <- rest :: rest[id].gasPrice >= tx.gasPrice)
  }

  /** Evictions for `tx` end with it fitting exactly if it fits beside everything that is not cheaper; if it does
      not, exactly the cheaper transactions are gone. */
  lemma RejectedExactly(config: Config, before: Store, rest: Store, tx: Tx)
    requires EvictionsEnd(config, before, rest, tx)
    ensures Fits(config, rest, tx) <==> Fits(config, NotCheaper(before, tx.gasPrice), tx)
    ensures !Fits(config, rest, tx) ==> rest == NotCheaper(before, tx.gasPrice)
  {
    var kept := NotCheaper(before, tx.gasPrice);
    assert SubStore(kept, rest);
    SmallerStore(kept, rest);
    if !Fits(config, rest, tx) {
      assert rest == kept;
    }
  }

  /** What additions and evictions change: the store, the cache and the nonces accepted from each sender. */
  datatype Contents = Contents(store: Store, cache: map<TxId, int>, accepted: map<Bytes, seq<U64>>)

  ghost function WithNonce(accepted: map<Bytes, seq<U64>>, tx: Tx): map<Bytes, seq<U64>> {
    if tx.sender == [] then accepted else accepted[tx.sender := AcceptedFrom(accepted, tx.sender) + [tx.nonce]]
  }

  /** `rest` is what is left of the store once there is room for `size` more bytes at `price`: only cheaper transactions
      are gone, none of them dearer than one that stays, and not all of them had to stay for lack of room. */
  ghost predicate HasRoom(config: Config, store: Store, rest: Store, price: nat, size: nat) {
    && (forall id <- rest :: id in store && rest[id] == store[id])
    && (forall id <- store :: id !in rest ==>
          store[id].gasPrice < price && forall k <- rest :: store[id].gasPrice <= rest[k].gasPrice)
    && |rest| < config.maxTxs && TotalBytes(rest) + size <= config.maxBytes
    && (rest == store || exists id <- store ::
          id !in rest && (|rest| + 1 >= config.maxTxs || TotalBytes(rest) + |store[id].data| + size > config.maxBytes))
  }

  lemma NeededRoom(config: Config, store: Store, rest: Store, tx: Tx)
    requires EvictedFor(store, rest, tx.gasPrice) && EvictedNoMore(config, store, rest, tx) && Fits(config, rest, tx)
    requires Keyed(store)
    ensures HasRoom(config, store, rest, tx.gasPrice, |tx.data|)
  {
    if rest != store {
      var id :| id in store && id !in rest && !Fits(config, rest[id := store[id]], tx);
      TotalBytesWith(rest, store[id]);
      assert |rest[id := store[id]]| == |rest| + 1;
    }
  }

  /** The transaction is stored, with room made for it. */
  ghost predicate Stored(config: Config, was: Contents, left: Contents, tx: Tx) {
    && tx.id in left.store && left.store[tx.id] == tx
    && HasRoom(config, was.store, left.store - {tx.id}, tx.gasPrice, |tx.data|)
    && left.accepted == WithNonce(was.accepted, tx)
  }

  lemma StoredInto(config: Config, was: Contents, rest: Store, left: Contents, tx: Tx, now: int)
    requires HasRoom(config, was.store, rest, tx.gasPrice, |tx.data|) && tx.id !in was.store
    requires left.store == rest[tx.id := tx] && left.accepted == WithNonce(was.accepted, tx)
    requires CacheGrew(was.cache, left.cache, was.store, rest, now)
    ensures Stored(config, was, left, tx) && CacheGrew(was.cache, left.cache, was.store, left.store, now)
  {
    assert left.store - {tx.id} == rest;
  }

  /** Bytes are counted once per transaction. */
  lemma TotalBytesExactly(store: Store, tx: Tx)
    ensures TotalBytes(map[]) == 0
    ensures tx.id !in store ==> TotalBytes(store[tx.id := tx]) == TotalBytes(store) + |tx.data|
  {
    if tx.id !in store {
      TotalBytesWith(store, tx);
    }
  }

  /** A positive nonce at least as large was accepted before. */
  ghost predicate UsedUp(accepted: seq<U64>, nonce: U64) {
    exists n <- accepted :: n != 0 && n >= nonce
  }

  /** A nonce continues a run exactly if it is above every positive one accepted. */
  lemma ContinuesExactly(ns: seq<U64>, nonce: U64)
    requires NonceRun(ns)
    ensures NonceRun(ns + [nonce]) <==> !UsedUp(ns, nonce)
  {
    var next := ns + [nonce];
    assert next[|ns|] == nonce;
    assert forall i | 0 <= i < |ns| :: next[i] == ns[i] && ns[i] in ns;
    if UsedUp(ns, nonce) {
      var n :| n in ns && n != 0 && n >= nonce;
      var i :| 0 <= i < |ns| && ns[i] == n;
      assert !(next[i] == 0 || next[i] < next[|ns|]);
    } else {
      forall i, j | 0 <= i < j < |next| ensures next[i] == 0 || next[i] < next[j] {
        if j < |ns| {
          assert next[j] == ns[j];
        }
      }
    }
  }

  /** A pool of two: the newcomer is too large beside the dearer transaction, so whatever evictions leave, it is
      rejected and the cheaper transaction is lost for nothing. */
  lemma RejectionCanLose()
    ensures var a := Tx([1], [1], [], 0, 1, 0, 0, 0);
            var b := Tx([2], [1, 2, 3, 4, 5], [], 0, 10, 0, 0, 0);
            var tx := Tx([3], [1, 2, 3, 4, 5], [], 0, 5, 0, 0, 0);
            var config := Config(10, 8, 8, 10, 0, false, 0, 0);
            var pool := map[a.id := a, b.id := b];
            && WithinLimits(config, pool)
            && NotCheaper(pool, tx.gasPrice) == map[b.id := b] != pool
            && forall rest :: EvictionsEnd(config, pool, rest, tx) ==>
                 !Fits(config, rest, tx) && rest == map[b.id := b]
  {
    var a := Tx([1], [1], [], 0, 1, 0, 0, 0);
    var b := Tx([2], [1, 2, 3, 4, 5], [], 0, 10, 0, 0, 0);
    assert [1] != [2] by { assert [1][0] != [2][0]; }
    var one, pool := map[b.id := b], map[a.id := a, b.id := b];
    TotalBytesWith(map[], b);
    assert map[][b.id := b] == one;
    TotalBytesWith(one, a);
    assert one[a.id := a] == pool;
    var tx, config := Tx([3], [1, 2, 3, 4, 5], [], 0, 5, 0, 0, 0), Config(10, 8, 8, 10, 0, false, 0, 0);
    assert NotCheaper(pool, tx.gasPrice) == one;
    forall rest | EvictionsEnd(config, pool, rest, tx)
      ensures !Fits(config, rest, tx) && rest == one
    {
      RejectedExactly(config, pool, rest, tx);
    }
  }

  // ----- The derived fields -----

  /** The transaction is filed under the hash of its data, is not too large and pays the minimum. */
  ghost predicate TxOk(config: Config, hash: Bytes -> TxId, tx: Tx) {
    tx.id == hash(tx.data) && |tx.data| <= config.maxTxBytes && tx.gasPrice >= config.minGasPrice
  }

  /** The index, the counters and the cache agree with the store, which is within its limits and holds only
      transactions that pass the checks on one alone. */
  ghost predicate StoreOk(config: Config, hash: Bytes -> TxId, store: Store, index: Index, count: int, bytes: int,
                          cache: map<TxId, int>)
  {
    && Keyed(store)
    && (forall id <- store :: TxOk(config, hash, store[id]))
    && count == |store| && bytes == TotalBytes(store)
    && IndexMatches(store, index)
    && (forall id <- store :: id !in cache)
    && WithinLimits(config, store)
  }

  lemma EmptyIsOk(config: Config, hash: Bytes -> TxId, cache: map<TxId, int>)
    ensures StoreOk(config, hash, map[], map[], 0, 0, cache) && NoncesMatch(map[], map[])
  {
  }

  lemma StoreGrows(config: Config, hash: Bytes -> TxId, store: Store, index: Index, count: int, bytes: int,
                   cache: map<TxId, int>, tx: Tx, index': Index)
    requires StoreOk(config, hash, store, index, count, bytes, cache) && TxOk(config, hash, tx)
    requires tx.id !in store && tx.id !in cache && Fits(config, store, tx)
    requires IndexMatches(store[tx.id := tx], index')
    ensures StoreOk(config, hash, store[tx.id := tx], index', count + 1, bytes + |tx.data|, cache)
  {
    TotalBytesWith(store, tx);
  }

  lemma StoreShrinks(config: Config, hash: Bytes -> TxId, store: Store, index: Index, count: int, bytes: int,
                     cache: map<TxId, int>, id: TxId, index': Index)
    requires StoreOk(config, hash, store, index, count, bytes, cache)
    requires id in store && IndexMatches(store - {id}, index')
    ensures StoreOk(config, hash, store - {id}, index', count - 1, bytes - |store[id].data|, cache)
  {
    TotalBytesWithout(store, id);
    assert (store - {id}).Keys == store.Keys - {id};
    assert |store - {id}| == |(store - {id}).Keys| && |store| == |store.Keys|;
  }

  lemma CacheGains(config: Config, hash: Bytes -> TxId, store: Store, index: Index, count: int, bytes: int,
                   cache: map<TxId, int>, id: TxId, now: int)
    requires StoreOk(config, hash, store, index, count, bytes, cache) && id !in store
    ensures StoreOk(config, hash, store, index, count, bytes, cache[id := now])
  {
  }

  lemma CacheShrinks(config: Config, hash: Bytes -> TxId, store: Store, index: Index, count: int, bytes: int,
                     cache: map<TxId, int>, cache': map<TxId, int>)
    requires StoreOk(config, hash, store, index, count, bytes, cache) && forall id <- cache' :: id in cache
    ensures StoreOk(config, hash, store, index, count, bytes, cache')
  {
  }

  // ----- Reaping -----

  ghost predicate TimeSorted(txs: seq<Tx>) {
    forall i, j | 0 <= i < j < |txs| :: txs[i].timestamp <= txs[j].timestamp
  }

  ghost function BytesOf(txs: seq<Tx>): nat {
    if txs == [] then 0 else BytesOf(txs[..|txs| - 1]) + |txs[|txs| - 1].data|
  }

  /** A batch of the oldest transactions: distinct stored ones, oldest first, none left out older than one taken. */
  ghost predicate OldestFirst(store: Store, txs: seq<Tx>) {
    && NoDuplicates(txs) && TimeSorted(txs)
    && (forall tx <- txs :: tx.id in store && store[tx.id] == tx)
    && (forall id <- store, tx <- txs :: store[id] !in txs ==> tx.timestamp <= store[id].timestamp)
  }

  /** A prefix of the whole store in time order is a batch of the oldest. */
  lemma PrefixIsOldest(store: Store, all: seq<Tx>, k: nat)
    requires Keyed(store) && NoDuplicates(all) && TimeSorted(all) && k <= |all|
    requires forall tx :: tx in all <==> tx.id in store && store[tx.id] == tx
    ensures OldestFirst(store, all[..k])
  {
    assert all == all[..k] + all[k..];
    forall id <- store, tx <- all[..k] | store[id] !in all[..k] ensures tx.timestamp <= store[id].timestamp {
      assert store[id] in all && store[id] in all[k..];
      var i :| 0 <= i < k && all[i] == tx;
      var j :| k <= j < |all| && all[j] == store[id];
    }
  }

  /** The bytes of a batch are those of its transactions. */
  lemma {:induction false} BytesOfExactly(a: seq<Tx>, b: seq<Tx>, tx: Tx)
    ensures BytesOf([]) == 0 && BytesOf([tx]) == |tx.data| && BytesOf(a + b) == BytesOf(a) + BytesOf(b)
  {
    assert [tx][..0] == [];
    if b == [] {
      assert a + b == a;
    } else {
      BytesOfExactly(a, b[..|b| - 1], tx);
      assert (a + b)[..|a + b| - 1] == a + b[..|b| - 1];
    }
  }

  lemma {:induction false} BytesGrow(txs: seq<Tx>, i: nat, j: nat)
    requires i <= j <= |txs|
    ensures BytesOf(txs[..i]) <= BytesOf(txs[..j])
  {
    if i < j {
      BytesGrow(txs, i, j - 1);
      assert txs[..j][..j - 1] == txs[..j - 1];
    }
  }

  lemma BytesNext(txs: seq<Tx>, i: nat)
    requires i < |txs|
    ensures txs[..i + 1] == txs[..i] + [txs[i]]
    ensures BytesOf(txs[..i + 1]) == BytesOf(txs[..i]) + |txs[i].data|
  {
    assert txs[..i + 1][..i] == txs[..i];
  }

  /** Once the next transaction does not fit, no longer prefix does. */
  lemma NoMoreFits(txs: seq<Tx>, i: nat, maxBytes: int)
    requires i < |txs| && BytesOf(txs[..i]) + |txs[i].data| > maxBytes
    ensures forall k | i < k <= |txs| :: BytesOf(txs[..k]) > maxBytes
  {
    BytesNext(txs, i);
    forall k | i < k <= |txs| ensures BytesOf(txs[..k]) > maxBytes {
      BytesGrow(txs, i + 1, k);
    }
  }

  // ----- Removal and the cache -----

  ghost function Elements(ids: seq<TxId>): set<TxId> {
    set id | id in ids
  }

  lemma ElementsNext(ids: seq<TxId>, i: nat)
    requires i < |ids|
    ensures Elements(ids[..i + 1]) == Elements(ids[..i]) + {ids[i]}
  {
    assert ids[..i + 1] == ids[..i] + [ids[i]];
  }

  /** `gone` was removed from a store, and cached where it was there. */
  ghost predicate Removed(was: Store, cache: map<TxId, int>, gone: set<TxId>, store: Store, cache': map<TxId, int>,
                          now: int)
  {
    store == was - gone && CacheGrew(cache, cache', was, store, now)
  }

  lemma NothingRemoved(was: Store, cache: map<TxId, int>, now: int)
    ensures Removed(was, cache, {}, was, cache, now)
  {
  }

  lemma RemovedTwice(was: Store, gone: set<TxId>, id: TxId)
    ensures was - gone - {id} == was - (gone + {id})
  {
  }

  /** One more removal. */
  lemma RemovedNext(was: Store, gone: set<TxId>, id: TxId, cache: map<TxId, int>, now1: map<TxId, int>, now: int)
    requires CacheGrew(cache, now1, was, was - gone, now)
    ensures was - gone - {id} == was - (gone + {id})
    ensures CacheGrew(cache, if id in was - gone then now1[id := now] else now1, was, was - (gone + {id}), now)
  {
  }

  ghost function Ids(hash: Bytes -> TxId, committed: seq<Bytes>): set<TxId> {
    set b <- committed :: hash(b)
  }

  lemma IdsNext(hash: Bytes -> TxId, committed: seq<Bytes>, i: nat)
    requires i < |committed|
    ensures Ids(hash, committed[..i + 1]) == Ids(hash, committed[..i]) + {hash(committed[i])}
  {
    assert committed[..i + 1] == committed[..i] + [committed[i]];
  }

  /** The transactions that a block leaves: those it does not hold, and with rechecking only those that pass. */
  ghost predicate LeftBy(hash: Bytes -> TxId, committed: seq<Bytes>, recheck: CheckTx, store: Store, left: Store) {
    && (forall id <- left :: id in store && left[id] == store[id])
    && forall id <- store ::
         id in left <==> (forall b <- committed :: hash(b) != id) && (recheck.Some? ==> recheck.value(store[id]))
  }

  /** The cache gained the committed transactions that were stored, stamped `now`. */
  ghost predicate CommittedCached(hash: Bytes -> TxId, committed: seq<Bytes>, store: Store, cache: map<TxId, int>,
                                  cache': map<TxId, int>, now: int)
  {
    && (forall id <- cache :: id in cache')
    && forall id <- cache' ::
         if id in store && exists b <- committed :: hash(b) == id then cache'[id] == now
         else id in cache && cache'[id] == cache[id]
  }

  lemma RemovedIsLeft(hash: Bytes -> TxId, committed: seq<Bytes>, store: Store, left: Store, cache: map<TxId, int>,
                      cache': map<TxId, int>, now: int)
    requires left == store - Ids(hash, committed) && CacheGrew(cache, cache', store, left, now)
    ensures LeftBy(hash, committed, None, store, left)
    ensures CommittedCached(hash, committed, store, cache, cache', now)
  {
    forall id <- store ensures id !in left <==> exists b <- committed :: hash(b) == id {
      assert id in Ids(hash, committed) <==> exists b <- committed :: hash(b) == id;
    }
  }

  lemma RecheckedIsLeft(hash: Bytes -> TxId, committed: seq<Bytes>, check: CheckTx, store: Store, left: Store,
                        rest: Store)
    requires LeftBy(hash, committed, None, store, left)
    requires rest == map id | id in left && (check.Some? ==> check.value(left[id])) :: left[id]
    ensures LeftBy(hash, committed, check, store, rest)
  {
  }

  /** What cleanupCache may leave: of the entries at or after the cutoff all, or as many of the newest as the limit
      allows. */
  ghost predicate Trimmed(limit: nat, cache: map<TxId, int>, cache': map<TxId, int>, cutoff: int) {
    var young := map id | id in cache && cache[id] >= cutoff :: cache[id];
    && (forall id <- cache' :: id in young && cache'[id] == young[id])
    && |cache'| == (if |young| <= limit then |young| else limit)
    && (forall id <- young, k <- cache' :: id !in cache' ==> young[id] <= cache'[k])
  }
}

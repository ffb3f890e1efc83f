/** The mempool object (mempool/mempool.go). The clock and the CheckTx callback are arguments; one call sees one
    clock value. */
module Mempools {
  import opened Types
  import opened MempoolSpec
  import Sorting

  class Mempool {
    const config: Config
    const hash: Bytes -> TxId  // hex of SHA-256
    var txStore: Store
    var senderIndex: Index
    var txCount: int
    var txBytes: int
    var height: int
    var isRunning: bool
    var channelClosed: bool  // newTxCh
    var senderNonce: map<Bytes, U64>
    var recentlyRemoved: map<TxId, int>
    ghost var accepted: map<Bytes, seq<U64>>  // nonces accepted from each non-empty sender since the last flush

    ghost predicate StoreValid()
      reads this`txStore, `txCount, `txBytes, `senderIndex, `recentlyRemoved
    {
      StoreOk(config, hash, txStore, senderIndex, txCount, txBytes, recentlyRemoved)
    }

    ghost predicate NoncesValid()
      reads `accepted, `senderNonce
    {
      NoncesMatch(accepted, senderNonce) && [] !in accepted
    }

    ghost predicate Valid()
      reads this
    {
      StoreValid() && NoncesValid()
    }

    constructor (config: Config, hash: Bytes -> TxId)
      ensures Valid()
      ensures this.config == config && this.hash == hash && !isRunning && !channelClosed
      ensures txStore == map[] && recentlyRemoved == map[] && accepted == map[]
    {
      this.config, this.hash := config, hash;
      txStore, senderIndex, senderNonce, recentlyRemoved := map[], map[], map[], map[];
      txCount, txBytes, height, isRunning, channelClosed := 0, 0, 0, false, false;
      accepted := map[];
    }

    ghost function Model(): Contents
      reads this
    {
      Contents(txStore, recentlyRemoved, accepted)
    }

    /** The goroutines it starts call ExpireTxs and CleanupCache. */
    method Start()
      modifies `isRunning
      ensures isRunning
    {
      if isRunning {
        return;
      }
      isRunning := true;
    }

    /** The channel is closed for good, so a pool that was started again panics when stopped again. */
    method Stop() returns (panicked: bool)
      modifies `isRunning, `channelClosed
      ensures !isRunning
      ensures panicked <==> old(isRunning) && old(channelClosed)
      ensures channelClosed <==> old(channelClosed) || old(isRunning)
    {
      if !isRunning {
        return false;
      }
      isRunning := false;
      if channelClosed {
        return true;
      }
      channelClosed := true;
      return false;
    }

    /** The answer names the first check that fails. A rejection for lack of room costs exactly what is cheaper; any
        other leaves the pool as it was. */
    method AddTxWithMeta(data: Bytes, sender: Bytes, nonce: U64, gasPrice: U64, gasLimit: U64, check: CheckTx, now: int)
      returns (r: AddResult)
      requires StoreValid() && NoncesValid()
      modifies `txStore, `senderIndex, `txCount, `txBytes, `senderNonce, `recentlyRemoved, `accepted
      ensures StoreValid() && NoncesValid()
      ensures var tx := Tx(id := hash(data), data := data, sender := sender, nonce := nonce, gasPrice := gasPrice,
                           gasLimit := gasLimit, timestamp := now, height := old(height));
              var kept := NotCheaper(old(txStore), gasPrice);
              && r == (
                if !old(isRunning) then NotRunning
                else if |data| > config.maxTxBytes then TooLarge
                else if hash(data) in old(txStore) || hash(data) in old(recentlyRemoved) then AlreadyExists
                else if gasPrice < config.minGasPrice then InsufficientGas
                else if sender != [] && UsedUp(AcceptedFrom(old(accepted), sender), nonce) then LowNonce
                else if check.Some? && !check.value(tx) then InvalidTx
                else if |kept| >= config.maxTxs || TotalBytes(kept) + |data| > config.maxBytes then MempoolFull
                else if old(channelClosed) then Panicked
                else Added)
              && match r
                 case Added | Panicked =>
                   hash(data) in txStore && txStore[hash(data)] == tx && Stored(config, old(Model()), Model(), tx)
                 case MempoolFull => txStore == kept && accepted == old(accepted)
                 case _ => Model() == old(Model())
      ensures CacheGrew(old(recentlyRemoved), recentlyRemoved, old(txStore), txStore, now)
    {
      var tx := Tx(hash(data), data, sender, nonce, gasPrice, gasLimit, now, height);
      var objection := CheckNew(tx, check);
      if objection.Some? {
        return objection.value;
      }
      r := Admit(tx, now);
    }

    /** The checks that come before any eviction, in order; None if all pass. */
    method CheckNew(tx: Tx, check: CheckTx) returns (objection: Option<AddResult>)
      requires NoncesValid()
      ensures objection ==
              if !isRunning then Some(NotRunning)
              else if |tx.data| > config.maxTxBytes then Some(TooLarge)
              else if tx.id in txStore || tx.id in recentlyRemoved then Some(AlreadyExists)
              else if tx.gasPrice < config.minGasPrice then Some(InsufficientGas)
              else if tx.sender != [] && UsedUp(AcceptedFrom(accepted, tx.sender), tx.nonce) then Some(LowNonce)
              else if check.Some? && !check.value(tx) then Some(InvalidTx)
              else None
    {
      if !isRunning {
        return Some(NotRunning);
      }
      if |tx.data| > config.maxTxBytes {
        return Some(TooLarge);
      }
      if tx.id in txStore {
        return Some(AlreadyExists);
      }
      if tx.id in recentlyRemoved {
        return Some(AlreadyExists);
      }
      if tx.gasPrice < config.minGasPrice {
        return Some(InsufficientGas);
      }
      if tx.sender != [] {
        var ok := CheckNonce(tx.sender, tx.nonce);
        if !ok {
          return Some(LowNonce);
        }
      }
      if check.Some? && !check.value(tx) {
        return Some(InvalidTx);
      }
      return None;
    }

    /** Make room for a transaction that passed the checks, store it and announce it. */
    method Admit(tx: Tx, now: int) returns (r: AddResult)
      requires StoreValid() && NoncesValid() && TxOk(config, hash, tx)
      requires tx.id !in txStore && tx.id !in recentlyRemoved
      requires tx.sender != [] ==> !UsedUp(AcceptedFrom(accepted, tx.sender), tx.nonce)
      modifies `txStore, `senderIndex, `txCount, `txBytes, `senderNonce, `recentlyRemoved, `accepted
      ensures StoreValid() && NoncesValid()
      ensures var kept := NotCheaper(old(txStore), tx.gasPrice);
              && r == (if |kept| >= config.maxTxs || TotalBytes(kept) + |tx.data| > config.maxBytes then MempoolFull
                       else if old(channelClosed) then Panicked else Added)
              && (r == MempoolFull ==> txStore == kept && accepted == old(accepted))
      ensures r != MempoolFull ==> Stored(config, old(Model()), Model(), tx)
      ensures CacheGrew(old(recentlyRemoved), recentlyRemoved, old(txStore), txStore, now)
    {
      var ok := MakeRoomAndStore(tx, now);
      r := if !ok then MempoolFull else if channelClosed then Panicked else Added;
    }

    method MakeRoomAndStore(tx: Tx, now: int) returns (ok: bool)
      requires StoreValid() && NoncesValid() && TxOk(config, hash, tx)
      requires tx.id !in txStore && tx.id !in recentlyRemoved
      requires tx.sender != [] ==> !UsedUp(AcceptedFrom(accepted, tx.sender), tx.nonce)
      modifies `txStore, `senderIndex, `txCount, `txBytes, `senderNonce, `recentlyRemoved, `accepted
      ensures StoreValid() && NoncesValid()
      ensures var kept := NotCheaper(old(txStore), tx.gasPrice);
              && (ok <==> !(|kept| >= config.maxTxs || TotalBytes(kept) + |tx.data| > config.maxBytes))
              && (!ok ==> txStore == kept && accepted == old(accepted))
      ensures ok ==> Stored(config, old(Model()), Model(), tx)
      ensures CacheGrew(old(recentlyRemoved), recentlyRemoved, old(txStore), txStore, now)
    {
      ghost var was := Model();
      ok := EnsureCapacity(tx, now);
      if !ok {
        return;
      }
      ghost var rest := txStore;
      AddTxLocked(tx);
      StoredInto(config, was, rest, Model(), tx, now);
    }

    /** Gaps are allowed; a nonce passes exactly when it is above every positive one accepted from the sender. */
    method CheckNonce(sender: Bytes, nonce: U64) returns (ok: bool)
      requires NoncesValid()
      ensures ok <==> !UsedUp(AcceptedFrom(accepted, sender), nonce)
    {
      NonceCheckExactly(accepted, senderNonce, sender, nonce);
      ContinuesExactly(AcceptedFrom(accepted, sender), nonce);
      if sender !in senderNonce {
        return true;
      }
      if nonce <= senderNonce[sender] {
        return false;
      }
      return true;
    }

    method EnsureCapacity(tx: Tx, now: int) returns (ok: bool)
      requires StoreValid() && tx.id !in txStore && tx.id !in recentlyRemoved
      modifies `txStore, `senderIndex, `txCount, `txBytes, `recentlyRemoved
      ensures StoreValid() && tx.id !in txStore && tx.id !in recentlyRemoved
      ensures var kept := NotCheaper(old(txStore), tx.gasPrice);
              && (ok <==> |kept| < config.maxTxs && TotalBytes(kept) + |tx.data| <= config.maxBytes)
              && (!ok ==> txStore == kept)
      ensures ok ==> HasRoom(config, old(txStore), txStore, tx.gasPrice, |tx.data|)
      ensures CacheGrew(old(recentlyRemoved), recentlyRemoved, old(txStore), txStore, now)
    {
      ghost var before := txStore;
      ok := EvictWhileFull(tx, now);
      RejectedExactly(config, before, txStore, tx);
      if ok {
        NeededRoom(config, before, txStore, tx);
      }
    }

    /** The two loops of ensureCapacity. */
    method EvictWhileFull(tx: Tx, now: int) returns (ok: bool)
      requires StoreValid() && tx.id !in txStore && tx.id !in recentlyRemoved
      modifies `txStore, `senderIndex, `txCount, `txBytes, `recentlyRemoved
      ensures StoreValid() && tx.id !in txStore && tx.id !in recentlyRemoved
      ensures EvictedFor(old(txStore), txStore, tx.gasPrice)
      ensures EvictedNoMore(config, old(txStore), txStore, tx)
      ensures ok <==> Fits(config, txStore, tx)
      ensures !ok ==> forall id <- txStore :: txStore[id].gasPrice >= tx.gasPrice
      ensures CacheGrew(old(recentlyRemoved), recentlyRemoved, old(txStore), txStore, now)
    {
      ghost var before, cache := txStore, recentlyRemoved;
      while txCount >= config.maxTxs
        invariant StoreValid()
        invariant EvictedFor(before, txStore, tx.gasPrice) && EvictedNoMore(config, before, txStore, tx)
        invariant CacheGrew(cache, recentlyRemoved, before, txStore, now)
        decreases |txStore|
      {
        var evicted := EvictFor(tx, now, before, cache);
        if !evicted {
          return false;
        }
      }
      while txBytes + |tx.data| > config.maxBytes
        invariant StoreValid() && |txStore| < config.maxTxs
        invariant EvictedFor(before, txStore, tx.gasPrice) && EvictedNoMore(config, before, txStore, tx)
        invariant CacheGrew(cache, recentlyRemoved, before, txStore, now)
        decreases |txStore|
      {
        var evicted := EvictFor(tx, now, before, cache);
        if !evicted {
          return false;
        }
      }
      return true;
    }

    /** One round of either eviction loop; `before` and `cache` are the store and the cache at the start. */
    method EvictFor(tx: Tx, now: int, ghost before: Store, ghost cache: map<TxId, int>) returns (ok: bool)
      requires StoreValid() && !Fits(config, txStore, tx)
      requires EvictedFor(before, txStore, tx.gasPrice)
      requires CacheGrew(cache, recentlyRemoved, before, txStore, now)
      modifies `txStore, `senderIndex, `txCount, `txBytes, `recentlyRemoved
      ensures StoreValid()
      ensures EvictedFor(before, txStore, tx.gasPrice)
      ensures CacheGrew(cache, recentlyRemoved, before, txStore, now)
      ensures ok ==> EvictedNoMore(config, before, txStore, tx) && |txStore| < old(|txStore|)
      ensures !ok ==> txStore == old(txStore) && forall id <- txStore :: txStore[id].gasPrice >= tx.gasPrice
    {
      ghost var was, wasCache := txStore, recentlyRemoved;
      ghost var victim;
      ok, victim := EvictLowestPriority(tx.gasPrice, now);
      if ok {
        EvictNext(config, before, was, tx.gasPrice, victim, tx);
        CacheNext(before, was, victim, cache, wasCache, now);
      }
    }

    /** A price of 2^64-1 is never below the starting minimum, so such a transaction is never picked. */
    method EvictLowestPriority(minPrice: U64, now: int) returns (ok: bool, ghost victim: TxId)
      requires StoreValid()
      modifies `txStore, `senderIndex, `txCount, `txBytes, `recentlyRemoved
      ensures StoreValid()
      ensures ok ==>
                && victim in old(txStore) && txStore == old(txStore) - {victim}
                && old(txStore)[victim].gasPrice < minPrice
                && (forall k <- old(txStore) :: old(txStore)[victim].gasPrice <= old(txStore)[k].gasPrice)
                && recentlyRemoved == old(recentlyRemoved)[victim := now]
      ensures !ok ==> txStore == old(txStore) && recentlyRemoved == old(recentlyRemoved)
                      && forall id <- txStore :: txStore[id].gasPrice >= minPrice
    {
      var lowest: Option<Tx> := None;
      var lowestPrice: U64 := U64_LIMIT - 1;
      var pending := txStore.Keys;
      while pending != {}
        invariant pending <= txStore.Keys
        invariant forall id <- txStore :: id in pending || lowestPrice <= txStore[id].gasPrice
        invariant lowest.None? ==> lowestPrice == U64_LIMIT - 1
        invariant lowest.Some? ==> lowest.value.id in txStore && txStore[lowest.value.id] == lowest.value
                                   && lowest.value.gasPrice == lowestPrice
      {
        var id :| id in pending;
        if txStore[id].gasPrice < lowestPrice {
          lowestPrice := txStore[id].gasPrice;
          lowest := Some(txStore[id]);
        }
        pending := pending - {id};
      }
      ok, victim := false, [];
      if lowest.None? {
        return;
      }
      if lowestPrice >= minPrice {
        return;
      }
      RemoveTxLocked(lowest.value.id, true, now);
      ok, victim := true, lowest.value.id;
    }

    method AddTxLocked(tx: Tx)
      requires StoreValid() && NoncesValid() && TxOk(config, hash, tx)
      requires tx.id !in txStore && tx.id !in recentlyRemoved && Fits(config, txStore, tx)
      requires tx.sender != [] ==> !UsedUp(AcceptedFrom(accepted, tx.sender), tx.nonce)
      modifies `txStore, `senderIndex, `txCount, `txBytes, `senderNonce, `accepted
      ensures StoreValid() && NoncesValid()
      ensures txStore == old(txStore)[tx.id := tx] && accepted == WithNonce(old(accepted), tx)
    {
      StoreTx(tx);
      if tx.sender != [] {
        RecordNonce(tx.sender, tx.nonce);
      }
    }

    /** The part of addTxLocked that maintains the store, the counters and senderIndex. */
    method StoreTx(tx: Tx)
      requires StoreValid() && TxOk(config, hash, tx)
      requires tx.id !in txStore && tx.id !in recentlyRemoved && Fits(config, txStore, tx)
      modifies `txStore, `senderIndex, `txCount, `txBytes
      ensures StoreValid()
      ensures txStore == old(txStore)[tx.id := tx]
    {
      ghost var wasIndex := senderIndex;
      IndexTx(tx);
      StoreGrows(config, hash, txStore, wasIndex, txCount, txBytes, recentlyRemoved, tx, senderIndex);
      txStore := txStore[tx.id := tx];
      txCount := txCount + 1;
      txBytes := txBytes + |tx.data|;
    }

    /** The part of addTxLocked that maintains senderNonce. */
    method RecordNonce(sender: Bytes, nonce: U64)
      requires NoncesValid() && sender != []
      requires !UsedUp(AcceptedFrom(accepted, sender), nonce)
      modifies `senderNonce, `accepted
      ensures NoncesValid()
      ensures accepted == old(accepted)[sender := AcceptedFrom(old(accepted), sender) + [nonce]]
    {
      ContinuesExactly(AcceptedFrom(accepted, sender), nonce);
      NonceRecorded(accepted, senderNonce, sender, nonce);
      var last := if sender in senderNonce then senderNonce[sender] else 0;
      if nonce > last {
        senderNonce := senderNonce[sender := nonce];
      }
      accepted := accepted[sender := AcceptedFrom(accepted, sender) + [nonce]];
    }

    /** The part of addTxLocked that maintains senderIndex. */
    method IndexTx(tx: Tx)
      requires Keyed(txStore) && IndexMatches(txStore, senderIndex) && tx.id !in txStore
      modifies `senderIndex
      ensures IndexMatches(txStore[tx.id := tx], senderIndex)
    {
      ghost var wasIndex := senderIndex;
      if tx.sender != [] {
        var senderTxs := if tx.sender in senderIndex then senderIndex[tx.sender] else [];
        var sorted := Sorting.SortSlice(senderTxs + [tx], (t: Tx) => t.nonce);
        ListGrows(txStore, tx, senderTxs, sorted);
        senderIndex := senderIndex[tx.sender := sorted];
      }
      IndexGrows(txStore, wasIndex, tx, senderIndex);
    }

    method RemoveTxLocked(txId: TxId, addToCache: bool, now: int)
      requires StoreValid()
      modifies `txStore, `senderIndex, `txCount, `txBytes, `recentlyRemoved
      ensures StoreValid()
      ensures txStore == old(txStore) - {txId}
      ensures recentlyRemoved == if addToCache && txId in old(txStore) then old(recentlyRemoved)[txId := now]
                                 else old(recentlyRemoved)
    {
      if txId !in txStore {
        assert txStore - {txId} == txStore;
        return;
      }
      UnstoreTx(txStore[txId]);
      if addToCache {
        CacheGains(config, hash, txStore, senderIndex, txCount, txBytes, recentlyRemoved, txId, now);
        recentlyRemoved := recentlyRemoved[txId := now];
      }
    }

    /** The part of removeTxLocked that maintains the store, the counters and senderIndex. */
    method UnstoreTx(tx: Tx)
      requires StoreValid() && tx.id in txStore && txStore[tx.id] == tx
      modifies `txStore, `senderIndex, `txCount, `txBytes
      ensures StoreValid() && txStore == old(txStore) - {tx.id}
    {
      ghost var wasIndex := senderIndex;
      UnindexTx(tx);
      StoreShrinks(config, hash, txStore, wasIndex, txCount, txBytes, recentlyRemoved, tx.id, senderIndex);
      txStore := txStore - {tx.id};
      txCount := txCount - 1;
      txBytes := txBytes - |tx.data|;
    }

    /** The part of removeTxLocked that maintains senderIndex. */
    method UnindexTx(tx: Tx)
      requires Keyed(txStore) && IndexMatches(txStore, senderIndex) && tx.id in txStore && txStore[tx.id] == tx
      modifies `senderIndex
      ensures IndexMatches(txStore - {tx.id}, senderIndex)
    {
      ghost var wasIndex := senderIndex;
      if tx.sender != [] {
        var senderTxs := senderIndex[tx.sender];
        var i := 0;
        while i < |senderTxs| && senderTxs[i].id != tx.id
          invariant 0 <= i <= |senderTxs|
          invariant tx in senderTxs[i..]
        {
          i := i + 1;
        }
        ListShrinks(txStore, tx, senderTxs, i);
        senderIndex := senderIndex[tx.sender := senderTxs[..i] + senderTxs[i + 1..]];
        if |senderIndex[tx.sender]| == 0 {
          senderIndex := senderIndex - {tx.sender};
        }
      }
      IndexShrinks(txStore, wasIndex, tx, senderIndex);
    }

    // ----- Reaping -----

    /** The map may be iterated in any order. */
    method StoredTxs() returns (txs: seq<Tx>)
      requires Keyed(txStore)
      ensures NoDuplicates(txs) && |txs| == |txStore|
      ensures forall tx :: tx in txs <==> tx.id in txStore && txStore[tx.id] == tx
    {
      txs := [];
      var pending := txStore.Keys;
      while pending != {}
        invariant pending <= txStore.Keys && |txs| + |pending| == |txStore|
        invariant NoDuplicates(txs)
        invariant forall tx :: tx in txs <==> tx.id in txStore && txStore[tx.id] == tx && tx.id !in pending
      {
        var id :| id in pending;
        txs := txs + [txStore[id]];
        pending := pending - {id};
      }
    }

    method ReapMaxTxs(max: int) returns (txs: seq<Tx>)
      requires StoreValid()
      ensures OldestFirst(txStore, txs)
      ensures var limit := if 0 < max <= config.maxBatchTxs then max else config.maxBatchTxs;
              |txs| == if |txStore| <= limit then |txStore| else limit
    {
      var limit := max;
      if max <= 0 || max > config.maxBatchTxs {
        limit := config.maxBatchTxs;
      }
      if txCount == 0 {
        return [];
      }
      var stored := StoredTxs();
      txs := Sorting.SortSlice(stored, (t: Tx) => t.timestamp);
      InTimeOrder(txStore, stored, txs);
      if |txs| > limit {
        PrefixIsOldest(txStore, txs, limit);
        txs := txs[..limit];
      }
    }

    /** `batch` is the FIFO batch the byte limit is applied to. */
    method ReapMaxBytes(maxBytes: int) returns (txs: seq<Tx>, ghost batch: seq<Tx>)
      requires StoreValid()
      ensures OldestFirst(txStore, batch) 
      ensures |batch| == if |txStore| <= config.maxBatchTxs then |txStore| else config.maxBatchTxs
      ensures txs <= batch && (txs == [] || BytesOf(txs) <= maxBytes)
      ensures forall k | |txs| < k <= |batch| :: BytesOf(batch[..k]) > maxBytes
    {
      if txCount == 0 {
        return [], [];
      }
      var allTxs := ReapMaxTxs(txCount);
      batch := allTxs;
      txs := [];
      var totalBytes := 0;
      for i := 0 to |allTxs|
        invariant txs == allTxs[..i] && totalBytes == BytesOf(txs)
        invariant txs == [] || totalBytes <= maxBytes
      {
        BytesNext(allTxs, i);
        if totalBytes + |allTxs[i].data| > maxBytes {
          NoMoreFits(allTxs, i, maxBytes);
          return;
        }
        txs := txs + [allTxs[i]];
        totalBytes := totalBytes + |allTxs[i].data|;
      }
      assert allTxs[..|allTxs|] == allTxs;
    }

    // ----- Removal -----
    // The fields that NoncesValid reads are outside the frames of these methods, so they keep it.

    method Update(newHeight: int, committedTxs: seq<Bytes>, check: CheckTx, now: int)
      requires StoreValid()
      modifies `height, `txStore, `senderIndex, `txCount, `txBytes, `recentlyRemoved
      ensures StoreValid() && height == newHeight
      ensures LeftBy(hash, committedTxs, if config.recheckEnabled then check else None, old(txStore), txStore)
      ensures CommittedCached(hash, committedTxs, old(txStore), old(recentlyRemoved), recentlyRemoved, now)
    {
      height := newHeight;
      ghost var was, cache := txStore, recentlyRemoved;
      RemoveCommitted(committedTxs, now);
      ghost var left := txStore;
      RemovedIsLeft(hash, committedTxs, was, left, cache, recentlyRemoved, now);
      if config.recheckEnabled {
        RecheckTxsLocked(check);
        RecheckedIsLeft(hash, committedTxs, check, was, left, txStore);
      }
    }

    /** One removal of a loop that has removed `gone` from `was`, and cached what was there. */
    method RemoveNext(id: TxId, now: int, ghost was: Store, ghost gone: set<TxId>, ghost cache: map<TxId, int>)
      requires StoreValid() && Removed(was, cache, gone, txStore, recentlyRemoved, now)
      modifies `txStore, `senderIndex, `txCount, `txBytes, `recentlyRemoved
      ensures StoreValid() && Removed(was, cache, gone + {id}, txStore, recentlyRemoved, now)
    {
      RemovedNext(was, gone, id, cache, recentlyRemoved, now);
      RemoveTxLocked(id, true, now);
    }

    /** The loop of Update. */
    method RemoveCommitted(committedTxs: seq<Bytes>, now: int)
      requires StoreValid()
      modifies `txStore, `senderIndex, `txCount, `txBytes, `recentlyRemoved
      ensures StoreValid()
      ensures Removed(old(txStore), old(recentlyRemoved), Ids(hash, committedTxs), txStore, recentlyRemoved, now)
    {
      ghost var was, cache := txStore, recentlyRemoved;
      NothingRemoved(was, cache, now);
      assert Ids(hash, committedTxs[..0]) == {};
      for i := 0 to |committedTxs|
        invariant StoreValid()
        invariant Removed(was, cache, Ids(hash, committedTxs[..i]), txStore, recentlyRemoved, now)
      {
        var txId := hash(committedTxs[i]);
        IdsNext(hash, committedTxs, i);
        RemoveNext(txId, now, was, Ids(hash, committedTxs[..i]), cache);
      }
      assert committedTxs[..|committedTxs|] == committedTxs;
    }

    /** The loop with which recheckTxsLocked ends. */
    method RemoveUncached(ids: seq<TxId>)
      requires StoreValid()
      modifies `txStore, `senderIndex, `txCount, `txBytes, `recentlyRemoved
      ensures StoreValid()
      ensures txStore == old(txStore) - Elements(ids) && recentlyRemoved == old(recentlyRemoved)
    {
      ghost var was := txStore;
      assert ids[..0] == [] && was - Elements([]) == was;
      for i := 0 to |ids|
        invariant StoreValid() && recentlyRemoved == old(recentlyRemoved)
        invariant txStore == was - Elements(ids[..i])
      {
        ElementsNext(ids, i);
        RemovedTwice(was, Elements(ids[..i]), ids[i]);
        RemoveTxLocked(ids[i], false, 0);
      }
      assert ids[..|ids|] == ids;
    }

    /** The loop with which expireTxs ends. */
    method RemoveCached(ids: seq<TxId>, now: int)
      requires StoreValid()
      modifies `txStore, `senderIndex, `txCount, `txBytes, `recentlyRemoved
      ensures StoreValid()
      ensures Removed(old(txStore), old(recentlyRemoved), Elements(ids), txStore, recentlyRemoved, now)
    {
      ghost var was, cache := txStore, recentlyRemoved;
      NothingRemoved(was, cache, now);
      assert Elements(ids[..0]) == {};
      for i := 0 to |ids|
        invariant StoreValid()
        invariant Removed(was, cache, Elements(ids[..i]), txStore, recentlyRemoved, now)
      {
        ElementsNext(ids, i);
        RemoveNext(ids[i], now, was, Elements(ids[..i]), cache);
      }
      assert ids[..|ids|] == ids;
    }

    method RecheckTxsLocked(check: CheckTx)
      requires StoreValid()
      modifies `txStore, `senderIndex, `txCount, `txBytes, `recentlyRemoved
      ensures StoreValid() && recentlyRemoved == old(recentlyRemoved)
      ensures txStore ==
              map id | id in old(txStore) && (check.Some? ==> check.value(old(txStore)[id])) :: old(txStore)[id]
    {
      if check.None? {
        return;
      }
      var toRemove: seq<TxId> := [];
      var pending := txStore.Keys;
      while pending != {}
        invariant pending <= txStore.Keys
        invariant forall id :: id in toRemove <==> id in txStore && id !in pending && !check.value(txStore[id])
      {
        var id :| id in pending;
        if !check.value(txStore[id]) {
          toRemove := toRemove + [id];
        }
        pending := pending - {id};
      }
      RemoveUncached(toRemove);
    }

    method ExpireTxs(now: int)
      requires StoreValid()
      modifies `txStore, `senderIndex, `txCount, `txBytes, `recentlyRemoved
      ensures StoreValid()
      ensures txStore == map id | id in old(txStore) && now - old(txStore)[id].timestamp <= config.ttl ::
                           old(txStore)[id]
      ensures CacheGrew(old(recentlyRemoved), recentlyRemoved, old(txStore), txStore, now)
    {
      var toRemove: seq<TxId> := [];
      var pending := txStore.Keys;
      while pending != {}
        invariant pending <= txStore.Keys
        invariant forall id :: id in toRemove <==>
                    id in txStore && id !in pending && now - txStore[id].timestamp > config.ttl
      {
        var id :| id in pending;
        if now - txStore[id].timestamp > config.ttl {
          toRemove := toRemove + [id];
        }
        pending := pending - {id};
      }
      RemoveCached(toRemove, now);
    }

    method CleanupCache(now: int)
      requires StoreValid()
      modifies `recentlyRemoved
      ensures StoreValid()
      ensures Trimmed(config.cacheSize, old(recentlyRemoved), recentlyRemoved, now - config.ttl)
    {
      ghost var cache := recentlyRemoved;
      DropExpired(now - config.ttl);
      ghost var young := recentlyRemoved;
      if |recentlyRemoved| > config.cacheSize {
        recentlyRemoved := DropOldest(recentlyRemoved, |recentlyRemoved| - config.cacheSize);
      }
      assert forall id <- recentlyRemoved :: id in young;
      CacheShrinks(config, hash, txStore, senderIndex, txCount, txBytes, cache, recentlyRemoved);
    }

    /** First half of cleanupCache. */
    method DropExpired(cutoff: int)
      modifies `recentlyRemoved
      ensures recentlyRemoved ==
              map id | id in old(recentlyRemoved) && old(recentlyRemoved)[id] >= cutoff :: old(recentlyRemoved)[id]
    {
      ghost var was := recentlyRemoved;
      var pending := recentlyRemoved.Keys;
      while pending != {}
        invariant pending <= was.Keys
        invariant recentlyRemoved == map id | id in was && (was[id] >= cutoff || id in pending) :: was[id]
      {
        var id :| id in pending;
        if recentlyRemoved[id] < cutoff {
          recentlyRemoved := recentlyRemoved - {id};
        }
        pending := pending - {id};
      }
    }

    method Flush()
      requires Valid()
      modifies `txStore, `senderIndex, `senderNonce, `txCount, `txBytes, `accepted
      ensures Valid() && txStore == map[] && accepted == map[] && senderNonce == map[]
    {
      txStore, senderIndex, senderNonce := map[], map[], map[];
      txCount, txBytes := 0, 0;
      accepted := map[];
      EmptyIsOk(config, hash, recentlyRemoved);
    }
  }

  /** The cache as a list, in any order. */
  method CacheEntries(cache: map<TxId, int>) returns (entries: seq<(TxId, int)>)
    ensures NoDuplicates(entries) && |entries| == |cache|
    ensures forall e :: e in entries <==> e.0 in cache && e.1 == cache[e.0]
  {
    entries := [];
    var pending := cache.Keys;
    while pending != {}
      invariant pending <= cache.Keys && |entries| + |pending| == |cache|
      invariant NoDuplicates(entries)
      invariant forall e :: e in entries <==> e.0 in cache && e.1 == cache[e.0] && e.0 !in pending
    {
      var id :| id in pending;
      entries := entries + [(id, cache[id])];
      pending := pending - {id};
    }
  }

  /** Second half of cleanupCache: all but the `k` oldest entries. */
  method DropOldest(cache: map<TxId, int>, k: nat) returns (rest: map<TxId, int>)
    requires k <= |cache|
    ensures forall id <- rest :: id in cache && rest[id] == cache[id]
    ensures |rest| == |cache| - k
    ensures forall id <- cache, r <- rest :: id !in rest ==> cache[id] <= rest[r]
  {
    var entries := CacheEntries(cache);
    var sorted := Sorting.SortSlice(entries, (e: (TxId, int)) => e.1);
    Sorting.SameElements(entries, sorted);
    DistinctKeys(cache, sorted);
    rest := DropFirst(cache, sorted, k);
    DroppedCount(cache, sorted, k);
    DroppedAreOldest(cache, sorted, k);
  }

  /** The deletion loop of cleanupCache's second half. */
  method DropFirst(cache: map<TxId, int>, sorted: seq<(TxId, int)>, k: nat) returns (rest: map<TxId, int>)
    requires k <= |sorted|
    ensures rest == cache - Keys(sorted[..k])
  {
    rest := cache;
    assert sorted[..0] == [];
    for i := 0 to k
      invariant rest == cache - Keys(sorted[..i])
    {
      KeysNext(sorted, i);
      rest := rest - {sorted[i].0};
    }
  }

  ghost function Keys(entries: seq<(TxId, int)>): set<TxId> {
    set e <- entries :: e.0
  }

  ghost predicate DistinctFirsts(entries: seq<(TxId, int)>) {
    forall i, j | 0 <= i < j < |entries| :: entries[i].0 != entries[j].0
  }

  lemma DistinctKeys(cache: map<TxId, int>, entries: seq<(TxId, int)>)
    requires NoDuplicates(entries) && forall e <- entries :: e.0 in cache && e.1 == cache[e.0]
    ensures DistinctFirsts(entries)
  {
    forall i, j | 0 <= i < j < |entries| ensures entries[i].0 != entries[j].0 {
      assert entries[i] in entries && entries[j] in entries;
    }
  }

  lemma KeysNext(entries: seq<(TxId, int)>, i: nat)
    requires i < |entries|
    ensures Keys(entries[..i + 1]) == Keys(entries[..i]) + {entries[i].0}
  {
    assert entries[..i + 1] == entries[..i] + [entries[i]];
  }

  lemma {:induction false} KeysCount(entries: seq<(TxId, int)>)
    requires DistinctFirsts(entries)
    ensures |Keys(entries)| == |entries|
  {
    if entries == [] {
    } else {
      var i := |entries| - 1;
      KeysCount(entries[..i]);
      KeysNext(entries, i);
      assert entries[..i + 1] == entries;
      KeyIsNew(entries, i);
    }
  }

  lemma KeyIsNew(entries: seq<(TxId, int)>, k: nat)
    requires DistinctFirsts(entries) && k < |entries|
    ensures entries[k].0 !in Keys(entries[..k])
  {
  }

  lemma DroppedCount(cache: map<TxId, int>, entries: seq<(TxId, int)>, k: nat)
    requires k <= |entries| && DistinctFirsts(entries) && forall e <- entries :: e.0 in cache
    ensures |cache - Keys(entries[..k])| == |cache| - k
  {
    var gone := Keys(entries[..k]);
    KeysCount(entries[..k]);
    assert gone <= cache.Keys;
    assert (cache - gone).Keys == cache.Keys - gone;
    assert |cache - gone| == |(cache - gone).Keys| && |cache| == |cache.Keys|;
  }

  lemma DroppedAreOldest(cache: map<TxId, int>, sorted: seq<(TxId, int)>, k: nat)
    requires k <= |sorted| && Sorting.SortedBy(sorted, (e: (TxId, int)) => e.1)
    requires forall e <- sorted :: e.0 in cache && e.1 == cache[e.0]
    requires forall id <- cache :: (id, cache[id]) in sorted
    ensures forall id <- cache, r <- cache :: id in Keys(sorted[..k]) && r !in Keys(sorted[..k]) ==>
              cache[id] <= cache[r]
  {
    var key := (e: (TxId, int)) => e.1;
    forall id <- cache, r <- cache | id in Keys(sorted[..k]) && r !in Keys(sorted[..k])
      ensures cache[id] <= cache[r]
    {
      var i :| 0 <= i < k && sorted[i].0 == id;
      assert sorted == sorted[..k] + sorted[k..];
      assert (r, cache[r]) !in sorted[..k];
      var j :| k <= j < |sorted| && sorted[j] == (r, cache[r]);
      assert sorted[i] in sorted;
      assert key(sorted[i]) <= key(sorted[j]);
    }
  }

  lemma InTimeOrder(store: Store, stored: seq<Tx>, txs: seq<Tx>)
    requires Keyed(store) && NoDuplicates(stored)
    requires forall tx :: tx in stored <==> tx.id in store && store[tx.id] == tx
    requires multiset(txs) == multiset(stored) && Sorting.SortedBy(txs, (t: Tx) => t.timestamp)
    ensures NoDuplicates(txs) && TimeSorted(txs) && |txs| == |stored|
    ensures forall tx :: tx in txs <==> tx.id in store && store[tx.id] == tx
    ensures OldestFirst(store, txs)
  {
    Sorting.SameElements(stored, txs);
    var key := (t: Tx) => t.timestamp;
    assert forall i, j | 0 <= i < j < |txs| :: key(txs[i]) <= key(txs[j]);
    PrefixIsOldest(store, txs, |txs|);
    assert txs[..|txs|] == txs;
  }

  // ----- The index under additions and removals -----

  lemma ListGrows(store: Store, tx: Tx, txs: seq<Tx>, sorted: seq<Tx>)
    requires tx.id !in store && Keyed(store)
    requires ListMatches(store, tx.sender, txs)
    requires multiset(sorted) == multiset(txs + [tx]) && Sorting.SortedBy(sorted, (t: Tx) => t.nonce)
    ensures ListMatches(store[tx.id := tx], tx.sender, sorted) && sorted != []
  {
    Sorting.SameElements(txs + [tx], sorted);
    var key := (t: Tx) => t.nonce;
    assert forall i, j | 0 <= i < j < |sorted| :: key(sorted[i]) <= key(sorted[j]);
    assert forall t :: t in txs + [tx] <==> t in txs || t == tx;
  }

  lemma IndexGrows(store: Store, index: Index, tx: Tx, index': Index)
    requires tx.id !in store && Keyed(store) && IndexMatches(store, index)
    requires tx.sender == [] ==> index' == index
    requires tx.sender != [] ==>
               && tx.sender in index' && index' == index[tx.sender := index'[tx.sender]]
               && index'[tx.sender] != [] && ListMatches(store[tx.id := tx], tx.sender, index'[tx.sender])
    ensures IndexMatches(store[tx.id := tx], index')
  {
    var store' := store[tx.id := tx];
    forall s <- index' ensures s != [] && index'[s] != [] && ListMatches(store', s, index'[s]) {
      if s != tx.sender {
        assert ListMatches(store, s, index[s]);
      }
    }
  }

  lemma Cut<T>(xs: seq<T>, i: nat)
    requires i < |xs|
    ensures var rest := xs[..i] + xs[i + 1..];
            && (forall x :: x in xs <==> x == xs[i] || x in rest)
            && (forall a | 0 <= a < |rest| :: rest[a] == xs[if a < i then a else a + 1])
  {
    assert xs == xs[..i] + [xs[i]] + xs[i + 1..];
  }

  lemma CutKeepsOrder(txs: seq<Tx>, i: nat)
    requires i < |txs| && NonceSorted(txs) && NoDuplicates(txs)
    ensures var rest := txs[..i] + txs[i + 1..];
            NonceSorted(rest) && NoDuplicates(rest) && txs[i] !in rest
  {
    Cut(txs, i);
  }

  lemma ListShrinks(store: Store, tx: Tx, txs: seq<Tx>, i: nat)
    requires tx.id in store && store[tx.id] == tx && Keyed(store)
    requires ListMatches(store, tx.sender, txs) && i < |txs| && txs[i].id == tx.id
    ensures ListMatches(store - {tx.id}, tx.sender, txs[..i] + txs[i + 1..])
  {
    Cut(txs, i);
    CutKeepsOrder(txs, i);
    assert txs[i] == tx;
  }

  lemma IndexShrinks(store: Store, index: Index, tx: Tx, index': Index)
    requires tx.id in store && store[tx.id] == tx && Keyed(store) && IndexMatches(store, index)
    requires tx.sender == [] ==> index' == index
    requires tx.sender != [] ==>
               || (index' == index - {tx.sender} && ListMatches(store - {tx.id}, tx.sender, []))
               || (&& tx.sender in index' && index' == index[tx.sender := index'[tx.sender]]
                   && index'[tx.sender] != [] && ListMatches(store - {tx.id}, tx.sender, index'[tx.sender]))
    ensures IndexMatches(store - {tx.id}, index')
  {
    var store' := store - {tx.id};
    forall s <- index' ensures s != [] && index'[s] != [] && ListMatches(store', s, index'[s]) {
      if s != tx.sender {
        assert ListMatches(store, s, index[s]);
      }
    }
  }

  lemma NonceRecorded(accepted: map<Bytes, seq<U64>>, senderNonce: map<Bytes, U64>, sender: Bytes, nonce: U64)
    requires NoncesMatch(accepted, senderNonce) && NonceRun(AcceptedFrom(accepted, sender) + [nonce])
    ensures var last := if sender in senderNonce then senderNonce[sender] else 0;
            NoncesMatch(accepted[sender := AcceptedFrom(accepted, sender) + [nonce]],
                        if nonce > last then senderNonce[sender := nonce] else senderNonce)
  {
    NonceCheckExactly(accepted, senderNonce, sender, nonce);
  }
}

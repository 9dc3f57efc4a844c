/**
 The inputs of a payment: records of the cache and outputs of the pool, each backed by its
 transaction (node/transactions/manager.go:336-421, node/transactions/unspent.go:636-708).
 */
module Payment {
  import opened Structures
  import opened BlockTree
  import opened Ledger
  import opened OutputRecords
  import opened PreparedBy
  import opened Pool
  import opened Preparation
  import opened TransactionRules
  import opened CoinSelection
  import opened Balance
  import opened PoolReorganisation
  import opened UnspentOutputs
  import opened Drift

  /** The outputs used for a payment: chosen approved ones, then as many pending ones as it takes. */
  ghost predicate Selection(available: seq<UOut>, chosen: seq<UOut>, free: seq<PendingOut>, amount: real, n: nat, used: seq<UOut>) {
    && GoodChoice(available, amount, chosen)
    && if SumOf(chosen) >= amount then used == chosen
       else TakenUpTo(free, amount, SumOf(chosen), n) && used == chosen + OutsOf(free[..n])
  }

  /** A listing of the pool, the available and the chosen approved outputs, the number of pending ones, and all used. */
  datatype Collected = Collected(txs: seq<Transaction>, available: seq<UOut>, chosen: seq<UOut>, n: nat, used: seq<UOut>)

  ghost predicate IsCollected(crypto: Crypto, data: Cache, pool: PoolMap, key: Bytes, amount: real, sel: Collected) {
    var inputs := KeyInputs(crypto, sel.txs, key);
    && PoolListing(pool, sel.txs) && Available(data, key, inputs, sel.available)
    && Selection(sel.available, sel.chosen, FreeOutputs(KeyOutputs(sel.txs, key), inputs), amount, sel.n, sel.used)
  }

  lemma SelectionMade(available: seq<UOut>, chosen: seq<UOut>, free: seq<PendingOut>, amount: real, n: nat)
    requires GoodChoice(available, amount, chosen) && n <= |free| && (SumOf(chosen) >= amount ==> n == 0)
    requires SumOf(chosen) < amount ==> TakenUpTo(free, amount, SumOf(chosen), n)
    ensures Selection(available, chosen, free, amount, n, chosen + OutsOf(free[..n]))
  {
    if n == 0 {
      assert free[..0] == [] && chosen + [] == chosen;
    }
  }

  /** When the used outputs do not cover the amount nothing would: they are everything there is. */
  lemma FundsExhausted(available: seq<UOut>, chosen: seq<UOut>, free: seq<PendingOut>, amount: real, n: nat, used: seq<UOut>)
    requires Selection(available, chosen, free, amount, n, used) && SumOf(used) < amount
    ensures chosen == available && n == |free| && SumOf(available) + PendingSum(free) < amount
  {
    UsedTotal(chosen, free, n);
    assert free[..|free|] == free;
  }

  /** When they do cover it none of them is to spare: without the last one they would not. */
  lemma LastUsedNeeded(available: seq<UOut>, chosen: seq<UOut>, free: seq<PendingOut>, amount: real, n: nat, used: seq<UOut>)
    requires Selection(available, chosen, free, amount, n, used) && SumOf(used) >= amount > 0.0
    ensures used != [] && SumOf(used[..|used| - 1]) < amount
  {
    if SumOf(chosen) < amount {
      FewerPending(chosen, free, amount, n);
    }
  }

  lemma FewerPending(chosen: seq<UOut>, free: seq<PendingOut>, amount: real, n: nat)
    requires SumOf(chosen) < amount && TakenUpTo(free, amount, SumOf(chosen), n) && SumOf(chosen + OutsOf(free[..n])) >= amount
    ensures var used := chosen + OutsOf(free[..n]);
            used != [] && SumOf(used[..|used| - 1]) < amount
  {
    UsedTotal(chosen, free, n);
    UsedTotal(chosen, free, n - 1);
    WithoutLast(chosen, free[..n], free[..n - 1]);
    assert n > 1 ==> Short(free, amount, SumOf(chosen), n - 1);
  }

  lemma WithoutLast(chosen: seq<UOut>, pending: seq<PendingOut>, fewer: seq<PendingOut>)
    requires pending != [] && fewer == pending[..|pending| - 1]
    ensures var used := chosen + OutsOf(pending);
            used != [] && used[..|used| - 1] == chosen + OutsOf(fewer)
  {
  }

  lemma UsedTotal(chosen: seq<UOut>, free: seq<PendingOut>, n: nat)
    requires n <= |free|
    ensures SumOf(chosen + OutsOf(free[..n])) == SumOf(chosen) + PendingSum(free[..n])
  {
    SumAppend(chosen, OutsOf(free[..n]));
    PendingSumIs(free[..n]);
  }

  /** The chain, the cache and the pool agree with one another; the cache may have lost outputs. */
  ghost predicate Synced(t: Tree, top: Bytes, data: Cache, pool: PoolMap) {
    && t.Valid() && top in t.blocks && UniqueIds(Entries(t, top)) && IdsIdentify(t)
    && Tidy(data) && Within(View(data), Unspent(Entries(t, top)))
    && PoolOk(pool) && PoolAgrees(pool, t) && OffMain(pool, t, top)
  }

  /** The record is backed by the transaction read from its block, which is not in the pool. */
  ghost predicate RecordOk(t: Tree, pool: PoolMap, o: UOut) {
    && o.blockHash in t.blocks && InBlock(t, o).Some? && Backing(o, InBlock(t, o).value) && o.txid !in pool
    && InBlock(t, o).value in t.blocks[o.blockHash].txs
  }

  lemma RecordEntry(t: Tree, top: Bytes, data: Cache, o: UOut, id: Bytes) returns (e: Entry)
    requires t.Valid() && top in t.blocks && UniqueIds(Entries(t, top))
    requires Tidy(data) && Within(View(data), Unspent(Entries(t, top))) && id in data && o in data[id]
    ensures e in Entries(t, top) && e.block == o.blockHash && Backing(o, e.tx)
  {
    var es := Entries(t, top);
    RecordShown(data, View(data), o, id);
    UnspentMeaning(es, Op(o));
    var i :| KeptFrom(es, i, Op(o));
    e := es[i];
  }

  /** A record of the cache is backed by the transaction read from its block. */
  lemma RecordBacked(t: Tree, top: Bytes, data: Cache, pool: PoolMap, o: UOut, id: Bytes)
    requires Synced(t, top, data, pool) && id in data && o in data[id]
    ensures RecordOk(t, pool, o)
  {
    var e := RecordEntry(t, top, data, o, id);
    EntrySource(t, top, e);
    assert HasId(Entries(t, top), o.txid) by {
      var i :| 0 <= i < |Entries(t, top)| && Entries(t, top)[i] == e;
    }
    BlockHolds(t, o, e.tx);
  }

  lemma BlockHolds(t: Tree, o: UOut, tx: Transaction)
    requires IdsIdentify(t) && o.blockHash in t.blocks && tx in t.blocks[o.blockHash].txs && Backing(o, tx)
    ensures InBlock(t, o) == Some(tx)
  {
    var txs := t.blocks[o.blockHash].txs;
    var k :| 0 <= k < |txs| && txs[k] == tx;
    FirstWithIdHas(txs, o.txid);
    assert txs[k].id == o.txid;
  }

  /** Records of one transaction are backed by one and the same. */
  lemma SameHolder(t: Tree, pool: PoolMap, o: UOut, q: UOut)
    requires IdsIdentify(t) && RecordOk(t, pool, o) && RecordOk(t, pool, q) && o.txid == q.txid
    ensures InBlock(t, o) == InBlock(t, q)
  {
  }

  ghost predicate FromCache(data: Cache, outs: seq<UOut>) {
    forall o :: o in outs ==> exists id :: id in data && o in data[id]
  }

  lemma AvailableFromCache(data: Cache, key: Bytes, pending: seq<TXInput>, available: seq<UOut>, chosen: seq<UOut>)
    requires Available(data, key, pending, available) && multiset(chosen) <= multiset(available)
    ensures FromCache(data, chosen) && forall o :: o in chosen ==> o.destPubKeyHash == key
    ensures Tidy(data) ==> DistinctOps(chosen)
  {
    var ids :| Listing(data, ids) && available == Gathered(data, ids, key, pending);
    if Tidy(data) {
      GatheredDistinct(data, ids, key, pending);
      ChosenDistinct(available, chosen);
    }
    forall o | o in chosen ensures o.destPubKeyHash == key && exists id :: id in data && o in data[id] {
      MemberOfMultiset(chosen, o);
      MemberOfMultiset(available, o);
      GatheredMembers(data, ids, key, pending, o);
    }
  }

  ghost predicate RecordsOk(t: Tree, pool: PoolMap, outs: seq<UOut>) {
    && (forall o {:trigger RecordOk(t, pool, o)} :: o in outs ==> RecordOk(t, pool, o))
    && (forall o, q {:trigger SameTx(o, q)} :: o in outs && q in outs && SameTx(o, q) ==> InBlock(t, o) == InBlock(t, q))
  }

  predicate SameTx(o: UOut, q: UOut) {
    o.txid == q.txid
  }

  lemma AllBacked(t: Tree, top: Bytes, data: Cache, pool: PoolMap, outs: seq<UOut>)
    requires Synced(t, top, data, pool) && FromCache(data, outs)
    ensures AllInBlocks(t, outs) && RecordsOk(t, pool, outs)
  {
    forall o | o in outs ensures RecordOk(t, pool, o) {
      var id :| id in data && o in data[id];
      RecordBacked(t, top, data, pool, o, id);
    }
    forall o | o in outs ensures InBlock(t, o).Some? {
      assert RecordOk(t, pool, o);
    }
    forall o, q {:trigger SameTx(o, q)} | o in outs && q in outs && SameTx(o, q) ensures InBlock(t, o) == InBlock(t, q) {
      assert RecordOk(t, pool, o) && RecordOk(t, pool, q);
      SameHolder(t, pool, o, q);
    }
  }

  lemma PrefixRecords(t: Tree, pool: PoolMap, outs: seq<UOut>, n: nat)
    requires RecordsOk(t, pool, outs) && n <= |outs|
    ensures RecordsOk(t, pool, outs[..n])
  {
  }

  /** The map of transactions holds, for each record, the one that backs it. */
  lemma {:induction false} HoldersBack(t: Tree, pool: PoolMap, outs: seq<UOut>, o: UOut)
    requires RecordsOk(t, pool, outs) && o in outs
    ensures o.txid in Holders(t, outs) && Backing(o, Holders(t, outs)[o.txid])
    decreases |outs|
  {
    var init, last := outs[..|outs| - 1], outs[|outs| - 1];
    assert last in outs && RecordOk(t, pool, last) && RecordOk(t, pool, o);
    if o.txid == last.txid {
      assert SameTx(o, last);
    } else {
      InitLast(outs);
      PrefixRecords(t, pool, outs, |init|);
      HoldersBack(t, pool, init, o);
    }
  }

  ghost predicate FromPoolOuts(pool: PoolMap, pending: seq<PendingOut>) {
    forall p :: p in pending ==> p.tx.id in pool && pool[p.tx.id] == p.tx && Backing(p.out, p.tx)
  }

  lemma {:induction false} WithPendingAt(before: map<Bytes, Transaction>, pool: PoolMap, pending: seq<PendingOut>, id: Bytes)
    requires FromPoolOuts(pool, pending)
    ensures id !in pool ==> (id in WithPending(before, pending) <==> id in before)
    ensures id !in pool && id in before ==> WithPending(before, pending)[id] == before[id]
    ensures forall p :: p in pending && p.tx.id == id ==> id in WithPending(before, pending) && WithPending(before, pending)[id] == p.tx
    decreases |pending|
  {
    if pending != [] {
      WithPendingAt(before, pool, pending[..|pending| - 1], id);
      InitLast(pending);
    }
  }

  /** The unused outputs of the key in the pool are backed by their transactions. */
  lemma FreeBacked(crypto: Crypto, pool: PoolMap, txs: seq<Transaction>, key: Bytes)
    requires PoolOk(pool) && PoolListing(pool, txs)
    ensures var free := FreeOutputs(KeyOutputs(txs, key), KeyInputs(crypto, txs, key));
            && FromPoolOuts(pool, free) && DistinctPending(free)
            && OfKey(free, key)
  {
    var outs, inputs := KeyOutputs(txs, key), KeyInputs(crypto, txs, key);
    ListingUnique(pool, txs);
    KeyOutputsDistinct(txs, key);
    FreeDistinct(outs, inputs);
    FreeOutputsMembers(outs, inputs);
    forall p | p in outs
      ensures p.tx.id in pool && pool[p.tx.id] == p.tx && Backing(p.out, p.tx) && p.out.destPubKeyHash == key && p.out.txid == p.tx.id
    {
      KeyOutputsMembers(txs, key, p);
      var tx :| tx in txs && p in PaidIn(tx, key, |tx.vout|);
      PaidInMembers(tx, key, |tx.vout|, p);
      ListedPooled(pool, txs, tx);
    }
  }

  lemma ListingUnique(pool: PoolMap, txs: seq<Transaction>)
    requires PoolOk(pool) && PoolListing(pool, txs)
    ensures UniqueTxIds(txs)
  {
    var ids :| ListsPool(pool, ids) && txs == Under(pool, ids);
    forall i, j | 0 <= i < j < |txs| ensures txs[i].id != txs[j].id {
      assert ids[i] in ids && ids[j] in ids;
    }
  }

  lemma ListedPooled(pool: PoolMap, txs: seq<Transaction>, tx: Transaction)
    requires PoolOk(pool) && PoolListing(pool, txs) && tx in txs
    ensures tx.id in pool && pool[tx.id] == tx
  {
    var ids :| ListsPool(pool, ids) && txs == Under(pool, ids);
    var i :| 0 <= i < |txs| && txs[i] == tx;
    assert ids[i] in ids;
  }

  lemma PooledListed(pool: PoolMap, txs: seq<Transaction>, tx: Transaction)
    requires PoolListing(pool, txs) && tx.id in pool && pool[tx.id] == tx
    ensures tx in txs
  {
    var ids :| ListsPool(pool, ids) && txs == Under(pool, ids);
    var i :| 0 <= i < |ids| && ids[i] == tx.id;
    assert txs[i] == tx;
  }

  lemma NotPoolOut(pool: PoolMap, txs: seq<Transaction>, op: Outpoint)
    requires PoolOk(pool) && PoolListing(pool, txs) && op.txid !in pool
    ensures op !in PoolOuts(txs)
  {
    ListingUnique(pool, txs);
    PoolOutsMeans(txs, op);
    forall k | 0 <= k < |txs| ensures txs[k].id != op.txid {
      assert txs[k] in txs;
      ListedPooled(pool, txs, txs[k]);
    }
  }

  ghost predicate OfKey(pending: seq<PendingOut>, key: Bytes) {
    forall p :: p in pending ==> p.out.destPubKeyHash == key && p.out.txid == p.tx.id
  }

  /** The output belongs to the key and the map holds the transaction that backs it. */
  ghost predicate UsedOk(o: UOut, key: Bytes, held: map<Bytes, Transaction>) {
    o.destPubKeyHash == key && o.txid in held && Backing(o, held[o.txid])
  }

  lemma ChosenOk(t: Tree, pool: PoolMap, key: Bytes, chosen: seq<UOut>, pending: seq<PendingOut>, x: nat)
    requires RecordsOk(t, pool, chosen) && FromPoolOuts(pool, pending) && x < |chosen| && chosen[x].destPubKeyHash == key
    ensures UsedOk(chosen[x], key, WithPending(Holders(t, chosen), pending)) && chosen[x].txid !in pool
  {
    assert chosen[x] in chosen && RecordOk(t, pool, chosen[x]);
    HoldersBack(t, pool, chosen, chosen[x]);
    WithPendingAt(Holders(t, chosen), pool, pending, chosen[x].txid);
  }

  lemma PendingOk(t: Tree, pool: PoolMap, key: Bytes, chosen: seq<UOut>, pending: seq<PendingOut>, y: nat)
    requires FromPoolOuts(pool, pending) && OfKey(pending, key) && y < |pending|
    ensures OutsOf(pending)[y] == pending[y].out
    ensures UsedOk(pending[y].out, key, WithPending(Holders(t, chosen), pending)) && pending[y].out.txid in pool
  {
    OutsOfAt(pending, y);
    assert pending[y] in pending;
    WithPendingAt(Holders(t, chosen), pool, pending, pending[y].out.txid);
  }

  /** Chosen records and pending outputs together: each of the key and backed by the map. */
  lemma UsedBacked(t: Tree, pool: PoolMap, key: Bytes, chosen: seq<UOut>, pending: seq<PendingOut>)
    requires RecordsOk(t, pool, chosen) && forall o :: o in chosen ==> o.destPubKeyHash == key
    requires FromPoolOuts(pool, pending) && OfKey(pending, key)
    ensures var used := chosen + OutsOf(pending);
            forall x {:trigger used[x]} :: 0 <= x < |used| ==> UsedOk(used[x], key, WithPending(Holders(t, chosen), pending))
  {
    var used := chosen + OutsOf(pending);
    forall x {:trigger used[x]} | 0 <= x < |used| ensures UsedOk(used[x], key, WithPending(Holders(t, chosen), pending)) {
      if x < |chosen| {
        assert chosen[x] in chosen;
        ChosenOk(t, pool, key, chosen, pending, x);
      } else {
        PendingOk(t, pool, key, chosen, pending, x - |chosen|);
      }
    }
  }

  /** No output is used twice. */
  lemma UsedDistinct(t: Tree, pool: PoolMap, chosen: seq<UOut>, pending: seq<PendingOut>)
    requires RecordsOk(t, pool, chosen) && FromPoolOuts(pool, pending) && DistinctOps(chosen) && DistinctPending(pending)
    ensures DistinctOps(chosen + OutsOf(pending))
  {
    var used := chosen + OutsOf(pending);
    forall i, j | 0 <= i < j < |used| ensures Op(used[i]) != Op(used[j]) {
      if j >= |chosen| {
        OutsOfAt(pending, j - |chosen|);
        assert pending[j - |chosen|] in pending;
        if i >= |chosen| {
          OutsOfAt(pending, i - |chosen|);
        } else {
          assert chosen[i] in chosen && RecordOk(t, pool, chosen[i]);
        }
      }
    }
  }

  ghost predicate AllUsedOk(used: seq<UOut>, key: Bytes, held: map<Bytes, Transaction>) {
    forall x {:trigger used[x]} :: 0 <= x < |used| ==> UsedOk(used[x], key, held)
  }

  lemma PendingPrefix(pool: PoolMap, key: Bytes, free: seq<PendingOut>, n: nat)
    requires FromPoolOuts(pool, free) && DistinctPending(free) && OfKey(free, key) && n <= |free|
    ensures FromPoolOuts(pool, free[..n]) && DistinctPending(free[..n]) && OfKey(free[..n], key)
  {
    assert forall p :: p in free[..n] ==> p in free;
  }

  ghost predicate AllOfKey(outs: seq<UOut>, key: Bytes) {
    forall o :: o in outs ==> o.destPubKeyHash == key
  }

  /** What the inputs, the map and the total come to after the first n pending outputs joined the chosen ones. */
  lemma ExtendedUsed(t: Tree, pool: PoolMap, key: Bytes, pubKey: Bytes, chosen: seq<UOut>, free: seq<PendingOut>, n: nat,
                     inputs: seq<TXInput>, held: map<Bytes, Transaction>, total: real)
    requires RecordsOk(t, pool, chosen) && DistinctOps(chosen) && AllOfKey(chosen, key)
    requires FromPoolOuts(pool, free) && DistinctPending(free) && OfKey(free, key)
    requires Extended(free, pubKey, InputsOf(chosen, pubKey), Holders(t, chosen), SumOf(chosen), n, inputs, held, total)
    ensures var used := chosen + OutsOf(free[..n]);
            inputs == InputsOf(used, pubKey) && total == SumOf(used) && DistinctOps(used) && AllUsedOk(used, key, held)
  {
    PendingPrefix(pool, key, free, n);
    InputsOfAppend(chosen, OutsOf(free[..n]), pubKey);
    SumAppend(chosen, OutsOf(free[..n]));
    PendingSumIs(free[..n]);
    UsedDistinct(t, pool, chosen, free[..n]);
    UsedBacked(t, pool, key, chosen, free[..n]);
  }

  /** The transactions of the inputs, in the order of the inputs. */
  function InputTransactions(vin: seq<TXInput>, held: map<Bytes, Transaction>, n: nat): InputTXs
    requires n <= |vin|
  {
    if n == 0 then map[]
    else
      InputTransactions(vin, held, n - 1)[n - 1 := if vin[n - 1].txid in held then Some(held[vin[n - 1].txid]) else None]
  }

  lemma {:induction false} InputTransactionsAt(vin: seq<TXInput>, held: map<Bytes, Transaction>, n: nat, x: nat)
    requires x < n <= |vin| && vin[x].txid in held
    ensures x in InputTransactions(vin, held, n) && InputTransactions(vin, held, n)[x] == Some(held[vin[x].txid])
    decreases n
  {
    if x < n - 1 {
      InputTransactionsAt(vin, held, n - 1, x);
    }
  }

  /** A transaction on the collected inputs spends the used outputs. */
  lemma CollectedSpends(tx: Transaction, used: seq<UOut>, key: Bytes, pubKey: Bytes, held: map<Bytes, Transaction>)
    requires tx.vin == InputsOf(used, pubKey) && AllUsedOk(used, key, held)
    ensures SpendsUsed(tx, used, key, InputTransactions(tx.vin, held, |tx.vin|))
  {
    forall x {:trigger used[x]} | 0 <= x < |used|
      ensures var prev := InputTransactions(tx.vin, held, |tx.vin|);
              && Ref(tx.vin[x]) == Op(used[x]) && used[x].destPubKeyHash == key
              && x in prev && prev[x].Some? && Backing(used[x], prev[x].value)
    {
      assert UsedOk(used[x], key, held);
      InputsOfAt(used, pubKey, x);
      InputTransactionsAt(tx.vin, held, |tx.vin|, x);
    }
  }
}

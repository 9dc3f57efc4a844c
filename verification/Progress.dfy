/**
 What gets through: a payment that the node prepares is taken into its pool once it is signed,
 and a pool in order goes into the next block as a whole (node/transactions/manager.go:103-164,
 322-421 and 505-531).
 */
module Progress {
  import opened Structures
  import opened BlockTree
  import opened Ledger
  import opened OutputRecords
  import opened PreparedBy
  import opened Pool
  import opened CoinSelection
  import opened TransactionRules
  import opened QuickCheck
  import opened Balance
  import opened Payment
  import opened Reception
  import opened Transfers

  // ----- A prepared payment is received

  /** Whatever the pool spends of these outputs it spends by their owners. */
  ghost predicate PoolByOwners(crypto: Crypto, w: Utxo, txs: seq<Transaction>) {
    forall i {:trigger PoolInput(txs, i)} :: PoolInput(txs, i) && Ref(i) in w ==> w[Ref(i)].owner == crypto.hashPubKey(i.pubKey)
  }

  lemma ChosenUnnamed(data: Cache, key: Bytes, pending: seq<TXInput>, available: seq<UOut>, chosen: seq<UOut>, o: UOut)
    requires Available(data, key, pending, available) && multiset(chosen) <= multiset(available) && o in chosen
    ensures Op(o) !in RefsIn(pending)
  {
    var ids :| Listing(data, ids) && available == Gathered(data, ids, key, pending);
    MemberOfMultiset(chosen, o);
    MemberOfMultiset(available, o);
    GatheredMembers(data, ids, key, pending, o);
    InRefsIn(pending, Op(o));
  }

  /** No used output is named by an input of the key in the pool. */
  lemma UsedUnnamed(crypto: Crypto, data: Cache, pool: PoolMap, key: Bytes, amount: real, sel: Collected, x: nat)
    requires IsCollected(crypto, data, pool, key, amount, sel) && x < |sel.used|
    ensures Op(sel.used[x]) !in KeyRefs(crypto, sel.txs, key)
  {
    var outs, inputs := KeyOutputs(sel.txs, key), KeyInputs(crypto, sel.txs, key);
    if x < |sel.chosen| {
      UsedParts(crypto, data, pool, key, amount, sel, FreeOutputs(outs, inputs), x);
      ChosenUnnamed(data, key, inputs, sel.available, sel.chosen, sel.used[x]);
    } else {
      var p := UsedIsFree(crypto, data, pool, key, amount, sel, x);
      FreeOutputsMembers(outs, inputs);
      UsedByMeans(inputs, p.out);
    }
  }

  lemma SpentInPoolByKey(crypto: Crypto, w: Utxo, pool: PoolMap, txs: seq<Transaction>, key: Bytes, op: Outpoint)
    requires PoolOk(pool) && PoolListing(pool, txs) && PoolByOwners(crypto, w, txs)
    requires op in RefsOf(txs) && op in w && w[op].owner == key
    ensures op in KeyRefs(crypto, txs, key)
  {
    var tx :| tx in txs && op in RefsIn(tx.vin);
    var i :| i in tx.vin && Ref(i) == op;
    PoolInputAt(txs, tx, i);
    ListedPooled(pool, txs, tx);
    KeyInputsMembers(crypto, txs, key, i);
  }

  /** The used outputs are still there after the pool. */
  lemma UsedLeft(crypto: Crypto, t: Tree, top: Bytes, data: Cache, pool: PoolMap, key: Bytes, amount: real, sel: Collected)
    requires Synced(t, top, data, pool) && IsCollected(crypto, data, pool, key, amount, sel)
    requires PoolByOwners(crypto, View(data) + PoolOuts(sel.txs), sel.txs)
    ensures HoldsUsed(AfterPool(View(data), sel.txs), sel.used, key)
  {
    forall x: int {:trigger sel.used[x]} | 0 <= x < |sel.used|
      ensures HeldAs(AfterPool(View(data), sel.txs), sel.used[x], key)
    {
      UsedHeld(crypto, t, top, data, pool, key, amount, sel, x);
      UsedUnnamed(crypto, data, pool, key, amount, sel, x);
      HeldLeft(crypto, View(data), pool, sel.txs, key, sel.used[x]);
    }
  }

  lemma HeldLeft(crypto: Crypto, u: Utxo, pool: PoolMap, txs: seq<Transaction>, key: Bytes, o: UOut)
    requires PoolOk(pool) && PoolListing(pool, txs) && PoolByOwners(crypto, u + PoolOuts(txs), txs)
    requires HeldAs(u + PoolOuts(txs), o, key) && Op(o) !in KeyRefs(crypto, txs, key)
    ensures HeldAs(AfterPool(u, txs), o, key)
  {
    if Op(o) in RefsOf(txs) {
      SpentInPoolByKey(crypto, u + PoolOuts(txs), pool, txs, key, Op(o));
    }
  }

  /** The transaction is the prepared one once it has its ID and its signatures. */
  ghost predicate Signed(crypto: Crypto, tx: Transaction, prepared: Transaction, key: Bytes) {
    && tx.vout == prepared.vout && SameRefs(tx.vin, prepared.vin) && SignedBy(crypto, tx, key)
  }

  ghost predicate SameRefs(a: seq<TXInput>, b: seq<TXInput>) {
    |a| == |b| && forall x {:trigger a[x]} :: 0 <= x < |a| ==> Ref(a[x]) == Ref(b[x])
  }

  ghost predicate Spending(vin: seq<TXInput>, used: seq<UOut>) {
    |vin| == |used| && forall x {:trigger vin[x]} :: 0 <= x < |vin| ==> Ref(vin[x]) == Op(used[x])
  }

  lemma {:induction false} ValueOfUsed(v: Utxo, vin: seq<TXInput>, used: seq<UOut>, key: Bytes)
    requires Spending(vin, used) && HoldsUsed(v, used, key)
    ensures ValueAt(v, vin) == SumOf(used)
    decreases |vin|
  {
    if vin != [] {
      var n := |vin| - 1;
      assert Ref(vin[n]) == Op(used[n]) && HeldAs(v, used[n], key);
      ValueOfUsed(v, vin[..n], used[..n], key);
    }
  }

  /** On outputs that hold the used ones a signed payment is fair unless the amount is too small or the excess exactly one smallest unit. */
  lemma PaymentFair(crypto: Crypto, v: Utxo, tx: Transaction, used: seq<UOut>, key: Bytes, to: Bytes, amount: real)
    requires Spending(tx.vin, used) && HoldsUsed(v, used, key) && SignedBy(crypto, tx, key)
    requires SumOf(used) >= amount && tx.vout == PaymentOutputs(key, to, amount, SumOf(used))
    ensures AllIn(v, tx.vin)
    ensures FairOn(crypto, v, tx) <==> amount >= 0.00000001 && SumOf(used) - amount != 0.00000001
  {
    ValueOfUsed(v, tx.vin, used, key);
    PaymentBalances(key, to, amount, SumOf(used));
    forall x {:trigger tx.vin[x]} | 0 <= x < |tx.vin| ensures Ref(tx.vin[x]) in v && CoinAt(v, tx.vin[x]).owner == key {
      assert Ref(tx.vin[x]) == Op(used[x]) && HeldAs(v, used[x], key);
    }
  }

  lemma SpendingOnce(u: Utxo, vin: seq<TXInput>, used: seq<UOut>)
    requires Spending(vin, used) && DistinctOps(used)
    ensures PooledOnce(u, vin)
  {
    forall x, y | 0 <= x < y < |vin| ensures Ref(vin[x]) != Ref(vin[y]) {
      assert Ref(vin[x]) == Op(used[x]) && Ref(vin[y]) == Op(used[y]);
    }
  }

  lemma PreparedSpending(crypto: Crypto, prepared: Transaction, used: seq<UOut>, key: Bytes, prev: InputTXs, tx: Transaction)
    requires SpendsUsed(prepared, used, key, prev) && Signed(crypto, tx, prepared, key)
    ensures Spending(tx.vin, used) && !tx.IsCoinbase()
  {
    forall x {:trigger tx.vin[x]} | 0 <= x < |tx.vin| ensures Ref(tx.vin[x]) == Op(used[x]) && tx.vin[x].vout >= 0 {
      assert Backing(used[x], prev[x].value);
    }
  }

  lemma NoConflict(pool: PoolMap, txs: seq<Transaction>, u: Utxo, tx: Transaction, used: seq<UOut>, key: Bytes)
    requires PoolListing(pool, txs) && PoolOk(pool) && Spending(tx.vin, used) && HoldsUsed(AfterPool(u, txs), used, key)
    ensures !ConflictsWith(pool, tx)
  {
    forall id | id in pool ensures !SharesInput(tx, pool[id]) {
      PooledListed(pool, txs, pool[id]);
      UsedApart(txs, u, tx, pool[id], used, key);
    }
  }

  lemma UsedApart(txs: seq<Transaction>, u: Utxo, tx: Transaction, pooled: Transaction, used: seq<UOut>, key: Bytes)
    requires pooled in txs && Spending(tx.vin, used) && HoldsUsed(AfterPool(u, txs), used, key)
    ensures !SharesInput(tx, pooled)
  {
    SharesInputRefs(tx, pooled);
    forall op | op in RefsIn(tx.vin) ensures op !in RefsIn(pooled.vin) {
      InRefsIn(tx.vin, op);
      var x :| 0 <= x < |tx.vin| && Ref(tx.vin[x]) == op;
      assert HeldAs(AfterPool(u, txs), used[x], key);
    }
  }

  /**
   What PrepareNewTransaction returns, once signed, is received into the pool if and only if the
   amount is at least one smallest unit and the excess not exactly one; it conflicts with nothing.
   */
  lemma PaymentReceived(crypto: Crypto, t: Tree, top: Bytes, data: Cache, pool: PoolMap, key: Bytes, to: Bytes, amount: real,
                        sel: Collected, prepared: Transaction, prev: InputTXs, tx: Transaction)
    requires Synced(t, top, data, pool) && IsCollected(crypto, data, pool, key, amount, sel)
    requires PoolByOwners(crypto, View(data) + PoolOuts(sel.txs), sel.txs)
    requires SumOf(sel.used) >= amount && DistinctOps(sel.used) && SpendsUsed(prepared, sel.used, key, prev)
    requires prepared.vout == PaymentOutputs(key, to, amount, SumOf(sel.used)) && Signed(crypto, tx, prepared, key)
    ensures !ConflictsWith(pool, tx)
    ensures QuickAccepts(crypto, t, View(data), pool, tx) <==> amount >= 0.00000001 && SumOf(sel.used) - amount != 0.00000001
  {
    var u, v := View(data), AfterPool(View(data), sel.txs);
    PreparedSpending(crypto, prepared, sel.used, key, prev, tx);
    UsedLeft(crypto, t, top, data, pool, key, amount, sel);
    NoConflict(pool, sel.txs, u, tx, sel.used, key);
    ReceivedIff(crypto, t, top, u, pool, sel.txs, tx);
    PaymentFair(crypto, v, tx, sel.used, key, to, amount);
    SpendingOnce(u, tx.vin, sel.used);
  }
}

/**
 Who owns what before and after: what a prepared payment moves from one key to another, and what
 the reward of a prepared block gives its minter (node/transactions/manager.go:339-421,
 node/consensus/manager.go:205-239).
 */
module Transfers {
  import opened Structures
  import opened BlockTree
  import opened Blockchain
  import opened Ledger
  import opened OutputRecords
  import opened TransactionRules
  import opened PreparedBy
  import opened Pool
  import opened Preparation
  import opened CoinSelection
  import opened Money
  import opened Balance
  import opened Payment
  import opened Consensus

  /** What a key owns in all. */
  ghost function Wealth(u: Utxo, key: Bytes): real {
    Total(Owned(u, key))
  }

  /** A transaction with a new ID takes from a key what it spends of its outputs, and gives it what it pays to it. */
  lemma ApplyMoves(u: Utxo, e: Entry, key: Bytes)
    requires forall op: Outpoint :: op in u ==> op.txid != e.tx.id
    ensures Wealth(Apply(u, e), key) == Wealth(u, key) - Total(Only(Owned(u, key), Spends(e.tx))) + Total(Owned(Creates(e), key))
  {
    var left, come := Owned(u, key) - Spends(e.tx), Owned(Creates(e), key);
    AppliedOwned(u, e, key);
    TotalUnion(left, come);
    TotalSplit(Owned(u, key), Spends(e.tx));
  }

  lemma AppliedOwned(u: Utxo, e: Entry, key: Bytes)
    requires forall op: Outpoint :: op in u ==> op.txid != e.tx.id
    ensures Owned(Apply(u, e), key) == (Owned(u, key) - Spends(e.tx)) + Owned(Creates(e), key)
    ensures forall op :: op in Owned(u, key) - Spends(e.tx) ==> op !in Owned(Creates(e), key)
  {
  }

  // ----- Payments

  /** The used outputs are there, with their values, and belong to the key. */
  ghost predicate HoldsUsed(u: Utxo, used: seq<UOut>, key: Bytes) {
    forall x {:trigger used[x]} :: 0 <= x < |used| ==> HeldAs(u, used[x], key)
  }

  ghost predicate HeldAs(u: Utxo, o: UOut, key: Bytes) {
    Op(o) in u && u[Op(o)].value == o.value && u[Op(o)].owner == key
  }

  lemma UsedAreSpends(tx: Transaction, used: seq<UOut>, key: Bytes, prev: InputTXs, op: Outpoint)
    requires SpendsUsed(tx, used, key, prev) && !tx.IsCoinbase()
    ensures op in Spends(tx) <==> exists x {:trigger used[x]} :: 0 <= x < |used| && Op(used[x]) == op
  {
    if op in Spends(tx) {
      var i :| i in tx.vin && Ref(i) == op;
      var x :| 0 <= x < |tx.vin| && tx.vin[x] == i;
      assert Op(used[x]) == op;
    }
    if x {:trigger used[x]} :| 0 <= x < |used| && Op(used[x]) == op {
      assert tx.vin[x] in tx.vin && Ref(tx.vin[x]) == op;
    }
  }

  /** The payment takes from its payer the value of the used outputs, and from nobody else. */
  lemma PaymentTakes(u: Utxo, tx: Transaction, used: seq<UOut>, payer: Bytes, prev: InputTXs, key: Bytes)
    requires SpendsUsed(tx, used, payer, prev) && !tx.IsCoinbase() && DistinctOps(used) && HoldsUsed(u, used, payer)
    ensures Total(Only(Owned(u, key), Spends(tx))) == if key == payer then SumOf(used) else 0.0
  {
    var taken := Only(Owned(u, key), Spends(tx));
    forall op ensures op in Spends(tx) <==> exists x {:trigger used[x]} :: 0 <= x < |used| && Op(used[x]) == op {
      UsedAreSpends(tx, used, payer, prev, op);
    }
    if key == payer {
      forall op | op in taken ensures exists i :: 0 <= i < |used| && Op(used[i]) == op {
        var x {:trigger used[x]} :| 0 <= x < |used| && Op(used[x]) == op;
      }
      TotalOfList(taken, used);
    } else {
      assert taken.Keys == {};
    }
  }

  /** What outputs pay to a key. */
  function PaidTo(vout: seq<TXOutput>, key: Bytes): real {
    if vout == [] then 0.0
    else PaidTo(vout[..|vout| - 1], key) + if vout[|vout| - 1].pubKeyHash == key then vout[|vout| - 1].value else 0.0
  }

  lemma {:induction false} CreatesPay(tx: Transaction, block: Bytes, key: Bytes)
    ensures Total(Owned(Creates(Entry(tx, block)), key)) == PaidTo(tx.vout, key)
    decreases |tx.vout|
  {
    if tx.vout == [] {
      assert Owned(Creates(Entry(tx, block)), key).Keys == {};
    } else {
      var fewer := tx.(vout := tx.vout[..|tx.vout| - 1]);
      CreatesPay(fewer, block, key);
      LastOutput(tx, fewer, block, key);
    }
  }

  lemma LastOutput(tx: Transaction, fewer: Transaction, block: Bytes, key: Bytes)
    requires tx.vout != [] && fewer == tx.(vout := tx.vout[..|tx.vout| - 1])
    ensures var last := tx.vout[|tx.vout| - 1];
            Total(Owned(Creates(Entry(tx, block)), key)) ==
            Total(Owned(Creates(Entry(fewer, block)), key)) + if last.pubKeyHash == key then last.value else 0.0
  {
    var all, op := Owned(Creates(Entry(tx, block)), key), Outpoint(tx.id, |tx.vout| - 1);
    LastCoin(tx, fewer, block, key, op);
    if op in all {
      TotalRemove(all, op);
    }
  }

  lemma CoinLess(tx: Transaction, fewer: Transaction, block: Bytes, key: Bytes, q: Outpoint)
    requires tx.vout != [] && fewer == tx.(vout := tx.vout[..|tx.vout| - 1])
    ensures var all, some := Owned(Creates(Entry(tx, block)), key), Owned(Creates(Entry(fewer, block)), key);
            (q in some <==> q in all && q != Outpoint(tx.id, |tx.vout| - 1)) && (q in some ==> some[q] == all[q])
  {
  }

  lemma LastCoin(tx: Transaction, fewer: Transaction, block: Bytes, key: Bytes, op: Outpoint)
    requires tx.vout != [] && fewer == tx.(vout := tx.vout[..|tx.vout| - 1]) && op == Outpoint(tx.id, |tx.vout| - 1)
    ensures var all, last := Owned(Creates(Entry(tx, block)), key), tx.vout[|tx.vout| - 1];
            && (op in all <==> last.pubKeyHash == key) && (op in all ==> all[op].value == last.value)
            && Owned(Creates(Entry(fewer, block)), key) == if op in all then all - {op} else all
  {
    var all, some := Owned(Creates(Entry(tx, block)), key), Owned(Creates(Entry(fewer, block)), key);
    forall q ensures q in some <==> q in all && q != op ensures q in some ==> some[q] == all[q] {
      CoinLess(tx, fewer, block, key, q);
    }
    if op !in all {
      assert some == all;
    }
  }

  /** It pays the amount to the receiver, and the change to the payer when it is more than one smallest unit. */
  lemma PaymentGives(e: Entry, payer: Bytes, to: Bytes, amount: real, total: real, key: Bytes)
    requires e.tx.vout == PaymentOutputs(payer, to, amount, total) && total >= amount
    ensures Total(Owned(Creates(e), key)) ==
            (if key == to then amount else 0.0) + (if key == payer && total - amount > SMALLEST_UNIT then total - amount else 0.0)
  {
    var vout := e.tx.vout;
    CreatesPay(e.tx, e.block, key);
    PaidToOne(vout[0], key);
    if |vout| == 2 {
      assert vout[..1] == [vout[0]];
    } else {
      assert vout == [vout[0]];
    }
  }

  lemma PaidToOne(out: TXOutput, key: Bytes)
    ensures PaidTo([out], key) == if out.pubKeyHash == key then out.value else 0.0
  {
    assert [out][..0] == [];
  }

  /**
   A prepared payment, once it has its ID and is applied to unspent outputs that hold the used
   ones, makes the receiver richer by exactly the amount and the payer poorer by it and by an
   excess of at most one smallest unit; nobody else is touched.
   */
  lemma PaymentMoves(u: Utxo, tx: Transaction, id: Bytes, block: Bytes, used: seq<UOut>, payer: Bytes, prev: InputTXs, to: Bytes, amount: real,
                     other: Bytes)
    requires SpendsUsed(tx, used, payer, prev) && !tx.IsCoinbase() && DistinctOps(used) && HoldsUsed(u, used, payer)
    requires SumOf(used) >= amount && tx.vout == PaymentOutputs(payer, to, amount, SumOf(used))
    requires (forall op: Outpoint :: op in u ==> op.txid != id) && other != payer && other != to
    ensures var v, excess := Apply(u, Entry(tx.(id := id), block)), SumOf(used) - amount;
            var lost := if excess > 0.00000001 then 0.0 else excess;
            && 0.0 <= lost <= 0.00000001
            && (to != payer ==> Wealth(v, to) == Wealth(u, to) + amount && Wealth(v, payer) == Wealth(u, payer) - amount - lost)
            && (to == payer ==> Wealth(v, payer) == Wealth(u, payer) - lost)
            && Wealth(v, other) == Wealth(u, other)
  {
    var e := Entry(tx.(id := id), block);
    SameInputs(tx, e.tx, used, payer, prev);
    PaymentAt(u, e, used, payer, prev, to, amount, payer);
    PaymentAt(u, e, used, payer, prev, to, amount, to);
    PaymentAt(u, e, used, payer, prev, to, amount, other);
  }

  lemma SameInputs(tx: Transaction, made: Transaction, used: seq<UOut>, payer: Bytes, prev: InputTXs)
    requires made.vin == tx.vin && SpendsUsed(tx, used, payer, prev) && !tx.IsCoinbase()
    ensures SpendsUsed(made, used, payer, prev) && !made.IsCoinbase()
  {
    assert made.IsCoinbase() <==> tx.IsCoinbase();
  }

  lemma PaymentAt(u: Utxo, e: Entry, used: seq<UOut>, payer: Bytes, prev: InputTXs, to: Bytes, amount: real, key: Bytes)
    requires SpendsUsed(e.tx, used, payer, prev) && !e.tx.IsCoinbase() && DistinctOps(used) && HoldsUsed(u, used, payer)
    requires SumOf(used) >= amount && e.tx.vout == PaymentOutputs(payer, to, amount, SumOf(used))
    requires forall op: Outpoint :: op in u ==> op.txid != e.tx.id
    ensures Wealth(Apply(u, e), key) ==
            Wealth(u, key) - (if key == payer then SumOf(used) else 0.0)
            + (if key == to then amount else 0.0) + (if key == payer && SumOf(used) - amount > SMALLEST_UNIT then SumOf(used) - amount else 0.0)
  {
    ApplyMoves(u, e, key);
    PaymentTakes(u, e.tx, used, payer, prev, key);
    PaymentGives(e, payer, to, amount, SumOf(used), key);
  }

  // ----- What the used outputs of a payment are taken from

  /** A chosen record is an output the cache shows, and none of the pool. */
  lemma ChosenHeld(t: Tree, top: Bytes, data: Cache, pool: PoolMap, txs: seq<Transaction>, o: UOut)
    requires Synced(t, top, data, pool) && PoolListing(pool, txs) && exists id :: id in data && o in data[id]
    ensures HeldAs(View(data) + PoolOuts(txs), o, o.destPubKeyHash)
  {
    var id :| id in data && o in data[id];
    RecordShown(data, View(data), o, id);
    RecordBacked(t, top, data, pool, o, id);
    NotPoolOut(pool, txs, Op(o));
  }

  /** A pending output that is used is one of the pool. */
  lemma PendingHeld(pool: PoolMap, txs: seq<Transaction>, p: PendingOut, u: Utxo)
    requires PoolOk(pool) && PoolListing(pool, txs) && p.tx.id in pool && pool[p.tx.id] == p.tx && Backing(p.out, p.tx)
    ensures HeldAs(u + PoolOuts(txs), p.out, p.out.destPubKeyHash)
  {
    ListingUnique(pool, txs);
    PooledListed(pool, txs, p.tx);
    var k :| 0 <= k < |txs| && txs[k] == p.tx;
    PoolOutsMeans(txs, Op(p.out));
  }

  /** All outputs a payment uses are held by the cache and the pool together, with their values, by the payer. */
  lemma CollectedHeld(crypto: Crypto, t: Tree, top: Bytes, data: Cache, pool: PoolMap, key: Bytes, amount: real, sel: Collected)
    requires Synced(t, top, data, pool) && IsCollected(crypto, data, pool, key, amount, sel)
    ensures HoldsUsed(View(data) + PoolOuts(sel.txs), sel.used, key)
  {
    forall x: int {:trigger sel.used[x]} | 0 <= x < |sel.used| ensures HeldAs(View(data) + PoolOuts(sel.txs), sel.used[x], key) {
      UsedHeld(crypto, t, top, data, pool, key, amount, sel, x);
    }
  }

  lemma UsedHeld(crypto: Crypto, t: Tree, top: Bytes, data: Cache, pool: PoolMap, key: Bytes, amount: real, sel: Collected, x: nat)
    requires Synced(t, top, data, pool) && IsCollected(crypto, data, pool, key, amount, sel) && x < |sel.used|
    ensures HeldAs(View(data) + PoolOuts(sel.txs), sel.used[x], key)
  {
    if x < |sel.chosen| {
      UsedParts(crypto, data, pool, key, amount, sel, FreeOutputs(KeyOutputs(sel.txs, key), KeyInputs(crypto, sel.txs, key)), x);
      ChosenIsHeld(crypto, t, top, data, pool, key, amount, sel, sel.used[x]);
    } else {
      var p := UsedIsFree(crypto, data, pool, key, amount, sel, x);
      FreeIsPooled(crypto, pool, sel.txs, key, p);
      PendingHeld(pool, sel.txs, p, View(data));
    }
  }

  ghost predicate IsFree(crypto: Crypto, txs: seq<Transaction>, key: Bytes, p: PendingOut) {
    p in FreeOutputs(KeyOutputs(txs, key), KeyInputs(crypto, txs, key))
  }

  /** A used output past the chosen ones is a free one of the pool. */
  lemma UsedIsFree(crypto: Crypto, data: Cache, pool: PoolMap, key: Bytes, amount: real, sel: Collected, x: nat) returns (p: PendingOut)
    requires IsCollected(crypto, data, pool, key, amount, sel) && |sel.chosen| <= x < |sel.used|
    ensures IsFree(crypto, sel.txs, key, p) && PoolListing(pool, sel.txs) && sel.used[x] == p.out
  {
    var free := FreeOutputs(KeyOutputs(sel.txs, key), KeyInputs(crypto, sel.txs, key));
    UsedParts(crypto, data, pool, key, amount, sel, free, x);
    p := free[x - |sel.chosen|];
  }

  lemma FreeIsPooled(crypto: Crypto, pool: PoolMap, txs: seq<Transaction>, key: Bytes, p: PendingOut)
    requires PoolOk(pool) && PoolListing(pool, txs) && IsFree(crypto, txs, key, p)
    ensures p.tx.id in pool && pool[p.tx.id] == p.tx && Backing(p.out, p.tx) && p.out.destPubKeyHash == key
  {
    FreeBacked(crypto, pool, txs, key);
  }

  lemma UsedParts(crypto: Crypto, data: Cache, pool: PoolMap, key: Bytes, amount: real, sel: Collected, free: seq<PendingOut>, x: nat)
    requires IsCollected(crypto, data, pool, key, amount, sel) && x < |sel.used|
    requires free == FreeOutputs(KeyOutputs(sel.txs, key), KeyInputs(crypto, sel.txs, key))
    ensures PoolListing(pool, sel.txs)
    ensures if x < |sel.chosen| then sel.used[x] in sel.chosen
            else x - |sel.chosen| < |free| && sel.used[x] == free[x - |sel.chosen|].out
  {
    if x >= |sel.chosen| {
      assert sel.n <= |free| && sel.used == sel.chosen + OutsOf(free[..sel.n]);
      OutsOfAt(free[..sel.n], x - |sel.chosen|);
    } else {
      assert sel.used[x] == sel.chosen[x];
    }
  }

  lemma ChosenIsHeld(crypto: Crypto, t: Tree, top: Bytes, data: Cache, pool: PoolMap, key: Bytes, amount: real, sel: Collected, o: UOut)
    requires Synced(t, top, data, pool) && IsCollected(crypto, data, pool, key, amount, sel) && o in sel.chosen
    ensures HeldAs(View(data) + PoolOuts(sel.txs), o, key)
  {
    AvailableFromCache(data, key, KeyInputs(crypto, sel.txs, key), sel.available, sel.chosen);
    ChosenHeld(t, top, data, pool, sel.txs, o);
  }

  // ----- Rewards

  /**
   Besides what the other transactions of a prepared block pay and take, adding the block gives
   its minter exactly ten coins, and nobody else anything.
   */
  lemma RewardPays(u: Utxo, c: Chain, txs: seq<Transaction>, minter: Bytes, data: Bytes, id: Bytes,
                   timestamp: int, hash: Bytes, nonce: int, key: Bytes)
    requires c.Valid()
    requires var b := BlockOf(c, txs, RewardOf(minter, data, id), timestamp, hash, nonce);
             forall op: Outpoint :: op in ApplyAll(u, Tag(b.(txs := txs))) ==> op.txid != id
    ensures var b := BlockOf(c, txs, RewardOf(minter, data, id), timestamp, hash, nonce);
            Wealth(ApplyAll(u, Tag(b)), key) == Wealth(ApplyAll(u, Tag(b.(txs := txs))), key) + if key == minter then 10.0 else 0.0
  {
    var reward := RewardOf(minter, data, id);
    var b := BlockOf(c, txs, reward, timestamp, hash, nonce);
    var others := Tag(b.(txs := txs));
    LastEntry(b, txs, reward);
    ApplyMoves(ApplyAll(u, others), Entry(reward, hash), key);
    assert Only(Owned(ApplyAll(u, others), key), Spends(reward)).Keys == {};
    CreatesPay(reward, hash, key);
    PaidToOne(reward.vout[0], key);
  }

  lemma LastEntry(b: Block, txs: seq<Transaction>, last: Transaction)
    requires b.txs == txs + [last]
    ensures Tag(b) != [] && Tag(b)[..|Tag(b)| - 1] == Tag(b.(txs := txs)) && Tag(b)[|Tag(b)| - 1] == Entry(last, b.hash)
  {
  }

  /** A prepared block, once it has a new hash, is stored on top of the chain it was prepared on. */
  lemma PreparedGoesOnTop(c: Chain, txs: seq<Transaction>, reward: Transaction, timestamp: int, hash: Bytes, nonce: int)
    requires c.Valid() && IsHash(hash) && hash !in c.tree.blocks
    ensures var b := BlockOf(c, txs, reward, timestamp, hash, nonce);
            c.tree.Fits(b) && c.AddStateOf(b) == AddedToTop && c.Add(b).top == hash && b.txs == txs + [reward]
            && b.timestamp == timestamp && b.nonce == nonce
  {
  }
}

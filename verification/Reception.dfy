/**
 What the quick check of an incoming transaction comes to: it looks at the cache and the pool
 alone, and accepts exactly what is fair by the unspent outputs of the main chain and the pool
 (node/transactions/manager.go:322-334 and 505-531).
 */
module Reception {
  import opened Structures
  import opened BlockTree
  import opened Ledger
  import opened TransactionRules
  import opened Pool
  import opened PoolReorganisation
  import opened Acceptance
  import opened Preparation
  import opened QuickCheck
  import opened Drift
  import opened Balance
  import opened Payment

  // ----- Fairness by unspent outputs

  function CoinAt(v: Utxo, vin: TXInput): Coin {
    if Ref(vin) in v then v[Ref(vin)] else Coin(0.0, [], [])
  }

  function ValueAt(v: Utxo, vin: seq<TXInput>): real {
    if vin == [] then 0.0 else ValueAt(v, vin[..|vin| - 1]) + CoinAt(v, vin[|vin| - 1]).value
  }

  /** Every input is there and signed by its owner, no output is too small, and what is paid is what is taken. */
  ghost predicate FairOn(crypto: Crypto, v: Utxo, tx: Transaction) {
    && (forall x {:trigger tx.vin[x]} :: 0 <= x < |tx.vin| ==>
          && CoinAt(v, tx.vin[x]).owner == crypto.hashPubKey(tx.vin[x].pubKey)
          && crypto.signatureValid(tx, x, CoinAt(v, tx.vin[x]).owner))
    && OutputsBigEnough(tx.vout)
    && Abs(ValueAt(v, tx.vin) - OutputTotal(tx.vout)) < SMALLEST_UNIT
  }

  lemma {:induction false} ValueIs(es: seq<Entry>, vin: seq<TXInput>)
    ensures ValueAt(Unspent(es), vin) == InputValue(es, vin)
    decreases |vin|
  {
    if vin != [] {
      ValueIs(es, vin[..|vin| - 1]);
    }
  }

  /** For an ordinary transaction that is fairness after a chain, by its unspent outputs. */
  lemma FairOnChain(crypto: Crypto, es: seq<Entry>, tx: Transaction)
    requires !tx.IsCoinbase()
    ensures FairOn(crypto, Unspent(es), tx) <==> FairNext(crypto, es, tx)
  {
    ValueIs(es, tx.vin);
    forall x {:trigger tx.vin[x]} | 0 <= x < |tx.vin| ensures CoinAt(Unspent(es), tx.vin[x]) == InputCoin(es, tx.vin[x]) {
    }
  }

  /** The input is found with the value and owner of its coin. */
  ghost predicate FoundOn(v: Utxo, tx: Transaction, prev: InputTXs, x: int)
    requires 0 <= x < |tx.vin|
  {
    && Ref(tx.vin[x]) in v && HasInput(tx, prev, x)
    && CoinAt(v, tx.vin[x]).value == InputOutput(tx, prev, x).value
    && CoinAt(v, tx.vin[x]).owner == InputOutput(tx, prev, x).pubKeyHash
  }

  lemma {:induction false} TotalsOn(v: Utxo, tx: Transaction, prev: InputTXs, n: nat)
    requires n <= |tx.vin| && forall x {:trigger FoundOn(v, tx, prev, x)} :: 0 <= x < n ==> FoundOn(v, tx, prev, x)
    ensures forall x :: 0 <= x < n ==> HasInput(tx, prev, x)
    ensures ValueAt(v, tx.vin[..n]) == InputTotal(tx, prev, n)
    decreases n
  {
    forall x | 0 <= x < n ensures HasInput(tx, prev, x) {
      assert FoundOn(v, tx, prev, x);
    }
    if n > 0 {
      assert FoundOn(v, tx, prev, n - 1);
      TotalsOn(v, tx, prev, n - 1);
      assert tx.vin[..n][..n - 1] == tx.vin[..n - 1];
    }
  }

  /** With all inputs found, a transaction verifies if and only if it is fair. */
  lemma VerifiesIffFair(crypto: Crypto, v: Utxo, tx: Transaction, prev: InputTXs)
    requires !tx.IsCoinbase() && forall x {:trigger FoundOn(v, tx, prev, x)} :: 0 <= x < |tx.vin| ==> FoundOn(v, tx, prev, x)
    ensures Verifies(crypto, tx, prev) <==> FairOn(crypto, v, tx)
  {
    TotalsOn(v, tx, prev, |tx.vin|);
    assert tx.vin[..|tx.vin|] == tx.vin;
    forall x {:trigger tx.vin[x]} | 0 <= x < |tx.vin|
      ensures HasInput(tx, prev, x)
      ensures SignedByOwner(crypto, tx, prev, x) <==>
              CoinAt(v, tx.vin[x]).owner == crypto.hashPubKey(tx.vin[x].pubKey) && crypto.signatureValid(tx, x, CoinAt(v, tx.vin[x]).owner)
    {
      assert FoundOn(v, tx, prev, x);
    }
    if Verifies(crypto, tx, prev) {
      forall x {:trigger tx.vin[x]} | 0 <= x < |tx.vin| ensures SignedByOwner(crypto, tx, prev, x) {
      }
    }
    if FairOn(crypto, v, tx) {
      forall x | 0 <= x < |tx.vin| ensures SignedByOwner(crypto, tx, prev, x) {
        assert tx.vin[x] == tx.vin[x];
      }
    }
  }

  // ----- What the quick check finds

  /** The quick check finds an input if and only if its coin is there, and then with its value and owner. */
  ghost predicate Reads(t: Tree, u: Utxo, pool: PoolMap, tx: Transaction, v: Utxo, x: nat)
    requires x < |tx.vin|
  {
    && (Ref(tx.vin[x]) in v <==> QuickPrevTX(t, u, pool, tx.vin[x]).Some? && HasInput(tx, QuickPrev(t, u, pool, tx), x))
    && (Ref(tx.vin[x]) in v ==> FoundOn(v, tx, QuickPrev(t, u, pool, tx), x))
  }

  lemma QuickByCoins(crypto: Crypto, t: Tree, u: Utxo, pool: PoolMap, tx: Transaction, v: Utxo)
    requires !tx.IsCoinbase()
    requires forall x: nat {:trigger Reads(t, u, pool, tx, v, x)} :: x < |tx.vin| ==> Reads(t, u, pool, tx, v, x)
    ensures QuickAccepts(crypto, t, u, pool, tx) <==> AllIn(v, tx.vin) && PooledOnce(u, tx.vin) && FairOn(crypto, v, tx)
  {
    var prev := QuickPrev(t, u, pool, tx);
    if AllIn(v, tx.vin) {
      forall x: int {:trigger FoundOn(v, tx, prev, x)} | 0 <= x < |tx.vin| ensures FoundOn(v, tx, prev, x) {
        assert Reads(t, u, pool, tx, v, x) && tx.vin[x] == tx.vin[x];
      }
      forall x {:trigger tx.vin[x]} | 0 <= x < |tx.vin| ensures QuickPrevTX(t, u, pool, tx.vin[x]).Some? {
        assert Reads(t, u, pool, tx, v, x);
      }
      VerifiesIffFair(crypto, v, tx, prev);
    } else {
      var x :| 0 <= x < |tx.vin| && Ref(tx.vin[x]) !in v;
      assert Reads(t, u, pool, tx, v, x);
    }
  }

  ghost predicate AllIn(v: Utxo, vin: seq<TXInput>) {
    forall x {:trigger vin[x]} :: 0 <= x < |vin| ==> Ref(vin[x]) in v
  }

  lemma ReadsBy(t: Tree, u: Utxo, pool: PoolMap, tx: Transaction, v: Utxo, x: nat, found: Option<Transaction>)
    requires x < |tx.vin| && found == QuickPrevTX(t, u, pool, tx.vin[x])
    requires Ref(tx.vin[x]) in v <==> found.Some? && InRange(found.value, tx.vin[x].vout)
    requires Ref(tx.vin[x]) in v ==> MatchesOutput(v[Ref(tx.vin[x])], found.value.vout[tx.vin[x].vout])
    ensures Reads(t, u, pool, tx, v, x)
  {
    assert QuickPrev(t, u, pool, tx)[x] == found;
  }

  predicate MatchesOutput(coin: Coin, out: TXOutput) {
    coin.value == out.value && coin.owner == out.pubKeyHash
  }

  /** The entry of the chain that made an output the cache shows. */
  lemma KeptEntry(t: Tree, top: Bytes, u: Utxo, op: Outpoint) returns (e: Entry)
    requires t.Valid() && top in t.blocks && UniqueIds(Entries(t, top)) && Within(u, Unspent(Entries(t, top))) && op in u
    ensures e in Entries(t, top) && e.tx.id == op.txid && InRange(e.tx, op.index) && u[op] == CoinOf(e, op.index)
    ensures HasId(Entries(t, top), op.txid)
  {
    var es := Entries(t, top);
    UnspentMeaning(es, op);
    var i :| KeptFrom(es, i, op);
    e := es[i];
  }

  lemma FoundInBlock(t: Tree, h: Bytes, tx: Transaction)
    requires IdsIdentify(t) && h in t.blocks && tx in t.blocks[h].txs
    ensures FirstWithId(t.blocks[h].txs, tx.id) == Some(tx)
  {
    var txs := t.blocks[h].txs;
    var k :| 0 <= k < |txs| && txs[k] == tx;
    FirstWithIdHas(txs, tx.id);
    assert txs[k].id == tx.id;
  }

  /** It is found in the block that made it. */
  lemma KeptIsFound(t: Tree, top: Bytes, u: Utxo, op: Outpoint)
    requires t.Valid() && top in t.blocks && UniqueIds(Entries(t, top)) && IdsIdentify(t) && Within(u, Unspent(Entries(t, top))) && op in u
    ensures var tx := Holder(t, u, op); tx.Some? && InRange(tx.value, op.index) && MatchesOutput(u[op], tx.value.vout[op.index])
    ensures HasId(Entries(t, top), op.txid)
  {
    var e := KeptEntry(t, top, u, op);
    EntrySource(t, top, e);
    PathStored(t, top);
    FoundInBlock(t, e.block, e.tx);
  }

  lemma ReadsKept(t: Tree, top: Bytes, u: Utxo, pool: PoolMap, tx: Transaction, v: Utxo, x: nat)
    requires t.Valid() && top in t.blocks && UniqueIds(Entries(t, top)) && IdsIdentify(t) && Within(u, Unspent(Entries(t, top)))
    requires x < |tx.vin| && Ref(tx.vin[x]) in u && Ref(tx.vin[x]) in v && v[Ref(tx.vin[x])] == u[Ref(tx.vin[x])]
    ensures Reads(t, u, pool, tx, v, x)
  {
    KeptIsFound(t, top, u, Ref(tx.vin[x]));
    ReadsBy(t, u, pool, tx, v, x, Holder(t, u, Ref(tx.vin[x])));
  }

  /**
   A transaction whose inputs the cache holds all passes the quick check if and only if it is
   fair by the unspent outputs of the main chain.
   */
  lemma QuickOnChain(crypto: Crypto, t: Tree, top: Bytes, u: Utxo, pool: PoolMap, tx: Transaction)
    requires t.Valid() && top in t.blocks && UniqueIds(Entries(t, top)) && IdsIdentify(t) && Within(u, Unspent(Entries(t, top)))
    requires !tx.IsCoinbase() && AllIn(u, tx.vin)
    ensures QuickAccepts(crypto, t, u, pool, tx) <==> FairNext(crypto, Entries(t, top), tx)
  {
    var v := Unspent(Entries(t, top));
    forall x: nat {:trigger Reads(t, u, pool, tx, v, x)} | x < |tx.vin| ensures Reads(t, u, pool, tx, v, x) && Ref(tx.vin[x]) in v {
      assert tx.vin[x] == tx.vin[x];
      ReadsKept(t, top, u, pool, tx, v, x);
    }
    forall x {:trigger tx.vin[x]} | 0 <= x < |tx.vin| ensures Ref(tx.vin[x]) in v {
      assert Reads(t, u, pool, tx, v, x);
    }
    QuickByCoins(crypto, t, u, pool, tx, v);
    FairOnChain(crypto, Entries(t, top), tx);
  }

  // ----- With the pool

  /** An input no pool transaction names is unspent after the pool if and only if the quick check finds it. */
  lemma ReadsPool(t: Tree, top: Bytes, u: Utxo, pool: PoolMap, txs: seq<Transaction>, tx: Transaction, x: nat)
    requires t.Valid() && top in t.blocks && UniqueIds(Entries(t, top)) && IdsIdentify(t) && Within(u, Unspent(Entries(t, top)))
    requires PoolOk(pool) && OffMain(pool, t, top) && PoolListing(pool, txs)
    requires x < |tx.vin| && Ref(tx.vin[x]) !in RefsOf(txs)
    ensures Reads(t, u, pool, tx, AfterPool(u, txs), x)
  {
    var op := Ref(tx.vin[x]);
    if op in u {
      KeptIsFound(t, top, u, op);
      NotPoolOut(pool, txs, op);
      ReadsKept(t, top, u, pool, tx, AfterPool(u, txs), x);
    } else if op.txid in pool {
      ReadsPending(t, u, pool, txs, tx, x);
    } else {
      NotPoolOut(pool, txs, op);
    }
  }

  lemma ReadsPending(t: Tree, u: Utxo, pool: PoolMap, txs: seq<Transaction>, tx: Transaction, x: nat)
    requires PoolOk(pool) && PoolListing(pool, txs)
    requires x < |tx.vin| && Ref(tx.vin[x]) !in RefsOf(txs) && Ref(tx.vin[x]) !in u && tx.vin[x].txid in pool
    ensures Reads(t, u, pool, tx, AfterPool(u, txs), x)
  {
    PendingCoin(pool, txs, Ref(tx.vin[x]));
    ReadsBy(t, u, pool, tx, AfterPool(u, txs), x, Some(pool[tx.vin[x].txid]));
  }

  /** The outputs of the pool are those its transactions pay. */
  lemma PendingCoin(pool: PoolMap, txs: seq<Transaction>, op: Outpoint)
    requires PoolOk(pool) && PoolListing(pool, txs) && op.txid in pool
    ensures op in PoolOuts(txs) <==> InRange(pool[op.txid], op.index)
    ensures op in PoolOuts(txs) ==> MatchesOutput(PoolOuts(txs)[op], pool[op.txid].vout[op.index])
  {
    PooledListed(pool, txs, pool[op.txid]);
    var k :| 0 <= k < |txs| && txs[k] == pool[op.txid];
    ListingUnique(pool, txs);
    PoolOutsMeans(txs, op);
    assert txs[k].id == op.txid;
    forall m | 0 <= m < |txs| && txs[m].id == op.txid ensures m == k {
    }
  }

  lemma ApartFromPool(pool: PoolMap, txs: seq<Transaction>, tx: Transaction, x: nat)
    requires PoolOk(pool) && PoolListing(pool, txs) && !ConflictsWith(pool, tx) && x < |tx.vin|
    ensures Ref(tx.vin[x]) !in RefsOf(txs)
  {
    forall u | u in txs ensures Ref(tx.vin[x]) !in RefsIn(u.vin) {
      ListedPooled(pool, txs, u);
      assert !SharesInput(tx, pool[u.id]);
      SharesInputRefs(tx, u);
      InRefsIn(tx.vin, Ref(tx.vin[x]));
    }
  }

  /**
   A transaction that conflicts with none of the pool gets in if and only if each input is an
   unspent output after the pool, none from the pool is named twice, and it is fair by those outputs.
   */
  lemma ReceivedIff(crypto: Crypto, t: Tree, top: Bytes, u: Utxo, pool: PoolMap, txs: seq<Transaction>, tx: Transaction)
    requires t.Valid() && top in t.blocks && UniqueIds(Entries(t, top)) && IdsIdentify(t) && Within(u, Unspent(Entries(t, top)))
    requires PoolOk(pool) && OffMain(pool, t, top) && PoolListing(pool, txs)
    requires !tx.IsCoinbase() && !ConflictsWith(pool, tx)
    ensures QuickAccepts(crypto, t, u, pool, tx) <==>
            var v := AfterPool(u, txs);
            AllIn(v, tx.vin) && PooledOnce(u, tx.vin) && FairOn(crypto, v, tx)
  {
    forall x: nat {:trigger Reads(t, u, pool, tx, AfterPool(u, txs), x)} | x < |tx.vin| ensures Reads(t, u, pool, tx, AfterPool(u, txs), x) {
      ApartFromPool(pool, txs, tx, x);
      ReadsPool(t, top, u, pool, txs, tx, x);
    }
    QuickByCoins(crypto, t, u, pool, tx, AfterPool(u, txs));
  }
}

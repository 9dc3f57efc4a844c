/**
 The quick check of an incoming transaction, against the unspent outputs and the pool alone
 (node/transactions/manager.go:322-334 and 505-531).
 */
module QuickCheck {
  import opened Structures
  import opened BlockTree
  import opened Ledger
  import opened Soundness
  import opened TransactionRules
  import opened Pool
  import opened PoolReorganisation
  import opened Drift

  /** The transaction of an unspent output, read from the block its record names. */
  function Holder(t: Tree, u: Utxo, op: Outpoint): Option<Transaction>
    requires op in u
  {
    if u[op].block in t.blocks then FirstWithId(t.blocks[u[op].block].txs, op.txid) else None
  }

  function FromPool(pool: PoolMap, id: Bytes): Option<Transaction> {
    if id in pool then Some(pool[id]) else None
  }

  function QuickPrevTX(t: Tree, u: Utxo, pool: PoolMap, vin: TXInput): Option<Transaction> {
    if Ref(vin) in u then Holder(t, u, Ref(vin)) else FromPool(pool, vin.txid)
  }

  function QuickPrev(t: Tree, u: Utxo, pool: PoolMap, tx: Transaction): InputTXs {
    map x: nat | x < |tx.vin| :: QuickPrevTX(t, u, pool, tx.vin[x])
  }

  /** No two inputs from outside the unspent outputs name the same output. */
  ghost predicate PooledOnce(u: Utxo, vin: seq<TXInput>) {
    forall x, y :: 0 <= x < y < |vin| && Ref(vin[x]) !in u && Ref(vin[y]) !in u ==> Ref(vin[x]) != Ref(vin[y])
  }

  /** Every input is an unspent output of a stored block or names a transaction of the pool, and the transaction verifies. */
  ghost predicate QuickAccepts(crypto: Crypto, t: Tree, u: Utxo, pool: PoolMap, tx: Transaction) {
    && (forall x {:trigger tx.vin[x]} :: 0 <= x < |tx.vin| ==> QuickPrevTX(t, u, pool, tx.vin[x]).Some?)
    && PooledOnce(u, tx.vin)
    && Verifies(crypto, tx, QuickPrev(t, u, pool, tx))
  }

  /** What receiving a transaction makes of the pool. */
  ghost function PoolAfter(crypto: Crypto, t: Tree, u: Utxo, pool: PoolMap, tx: Transaction): PoolMap {
    if QuickAccepts(crypto, t, u, pool, tx) then Added(pool, tx) else pool
  }

  // ----- The inputs that are no unspent output

  function NotUnspent(u: Utxo, vin: seq<TXInput>, n: nat): seq<MissingInput>
    requires n <= |vin|
  {
    if n == 0 then []
    else NotUnspent(u, vin, n - 1) + if Ref(vin[n - 1]) in u then [] else [MissingInput(n - 1, vin[n - 1])]
  }

  lemma {:induction false} NotUnspentMeans(u: Utxo, vin: seq<TXInput>, n: nat)
    requires n <= |vin|
    ensures forall i :: 0 <= i < |NotUnspent(u, vin, n)| ==>
              var m := NotUnspent(u, vin, n)[i];
              m.ind < n && m.vin == vin[m.ind] && Ref(m.vin) !in u
    ensures forall i, j :: 0 <= i < j < |NotUnspent(u, vin, n)| ==> NotUnspent(u, vin, n)[i].ind < NotUnspent(u, vin, n)[j].ind
    ensures forall x: nat :: x < n && Ref(vin[x]) !in u ==> MissingInput(x, vin[x]) in NotUnspent(u, vin, n)
    decreases n
  {
    if n > 0 {
      NotUnspentMeans(u, vin, n - 1);
    }
  }

  lemma NotUnspentOnce(u: Utxo, vin: seq<TXInput>)
    ensures NamedOnce(NotUnspent(u, vin, |vin|)) <==> PooledOnce(u, vin)
  {
    var us := NotUnspent(u, vin, |vin|);
    NotUnspentMeans(u, vin, |vin|);
    if NamedOnce(us) {
      forall x, y | 0 <= x < y < |vin| && Ref(vin[x]) !in u && Ref(vin[y]) !in u ensures Ref(vin[x]) != Ref(vin[y]) {
        assert MissingInput(x, vin[x]) in us && MissingInput(y, vin[y]) in us;
        var i :| 0 <= i < |us| && us[i] == MissingInput(x, vin[x]);
        var j :| 0 <= j < |us| && us[j] == MissingInput(y, vin[y]);
        assert i < j;
      }
    }
    if PooledOnce(u, vin) {
      forall i, j | 0 <= i < j < |us| ensures Ref(us[i].vin) != Ref(us[j].vin) {
        assert us[i].vin == vin[us[i].ind] && us[j].vin == vin[us[j].ind];
      }
    }
  }

  /** What the unspent outputs say of the first n inputs. */
  function FoundUnspent(t: Tree, u: Utxo, vin: seq<TXInput>, n: nat): InputTXs
    requires n <= |vin|
  {
    if n == 0 then map[]
    else FoundUnspent(t, u, vin, n - 1)[n - 1 := if Ref(vin[n - 1]) in u then Holder(t, u, Ref(vin[n - 1])) else None]
  }

  lemma {:induction false} FoundUnspentMeans(t: Tree, u: Utxo, vin: seq<TXInput>, n: nat)
    requires n <= |vin|
    ensures forall x: nat :: x in FoundUnspent(t, u, vin, n) <==> x < n
    ensures forall x: nat :: x < n ==> FoundUnspent(t, u, vin, n)[x] == if Ref(vin[x]) in u then Holder(t, u, Ref(vin[x])) else None
    decreases n
  {
    if n > 0 {
      FoundUnspentMeans(t, u, vin, n - 1);
    }
  }

  ghost predicate AllHeld(t: Tree, u: Utxo, vin: seq<TXInput>) {
    forall x {:trigger vin[x]} :: 0 <= x < |vin| && Ref(vin[x]) in u ==> Holder(t, u, Ref(vin[x])).Some?
  }

  lemma ListedInput(u: Utxo, vin: seq<TXInput>, x: nat) returns (i: nat)
    requires x < |vin| && Ref(vin[x]) !in u
    ensures i < |NotUnspent(u, vin, |vin|)| && NotUnspent(u, vin, |vin|)[i] == MissingInput(x, vin[x])
  {
    NotUnspentMeans(u, vin, |vin|);
    i :| 0 <= i < |NotUnspent(u, vin, |vin|)| && NotUnspent(u, vin, |vin|)[i] == MissingInput(x, vin[x]);
  }

  lemma NoListedInput(u: Utxo, vin: seq<TXInput>, x: nat)
    requires x < |vin| ==> Ref(vin[x]) in u
    ensures forall i :: 0 <= i < |NotUnspent(u, vin, |vin|)| ==> NotUnspent(u, vin, |vin|)[i].ind != x
  {
    NotUnspentMeans(u, vin, |vin|);
  }

  lemma InputsInOrder(u: Utxo, vin: seq<TXInput>)
    ensures forall i, j :: 0 <= i < j < |NotUnspent(u, vin, |vin|)| ==> NotUnspent(u, vin, |vin|)[i].ind < NotUnspent(u, vin, |vin|)[j].ind
  {
    NotUnspentMeans(u, vin, |vin|);
  }

  lemma QuickPrevAt(t: Tree, u: Utxo, pool: PoolMap, tx: Transaction, x: nat)
    ensures var filled := FilledFromPool(FoundUnspent(t, u, tx.vin, |tx.vin|), NotUnspent(u, tx.vin, |tx.vin|), pool);
            && (x in filled <==> x < |tx.vin|)
            && (x < |tx.vin| ==> filled[x] == QuickPrevTX(t, u, pool, tx.vin[x]))
  {
    InputsInOrder(u, tx.vin);
    FoundUnspentMeans(t, u, tx.vin, |tx.vin|);
    FilledFromPoolAt(FoundUnspent(t, u, tx.vin, |tx.vin|), NotUnspent(u, tx.vin, |tx.vin|), pool, x);
    if x < |tx.vin| && Ref(tx.vin[x]) !in u {
      var i := ListedInput(u, tx.vin, x);
    } else {
      NoListedInput(u, tx.vin, x);
    }
  }

  lemma QuickPrevIs(t: Tree, u: Utxo, pool: PoolMap, tx: Transaction)
    ensures FilledFromPool(FoundUnspent(t, u, tx.vin, |tx.vin|), NotUnspent(u, tx.vin, |tx.vin|), pool) == QuickPrev(t, u, pool, tx)
    ensures (forall x {:trigger tx.vin[x]} :: 0 <= x < |tx.vin| ==> QuickPrevTX(t, u, pool, tx.vin[x]).Some?) <==>
            AllHeld(t, u, tx.vin) && AllPooled(NotUnspent(u, tx.vin, |tx.vin|), pool)
  {
    forall x: nat
      ensures var filled := FilledFromPool(FoundUnspent(t, u, tx.vin, |tx.vin|), NotUnspent(u, tx.vin, |tx.vin|), pool);
              (x in filled <==> x < |tx.vin|) && (x < |tx.vin| ==> filled[x] == QuickPrevTX(t, u, pool, tx.vin[x]))
    {
      QuickPrevAt(t, u, pool, tx, x);
    }
    FilledIs(t, u, pool, tx, FilledFromPool(FoundUnspent(t, u, tx.vin, |tx.vin|), NotUnspent(u, tx.vin, |tx.vin|), pool));
    QuickAllFound(t, u, pool, tx);
  }

  lemma FilledIs(t: Tree, u: Utxo, pool: PoolMap, tx: Transaction, filled: InputTXs)
    requires forall x: nat :: (x in filled <==> x < |tx.vin|) && (x < |tx.vin| ==> filled[x] == QuickPrevTX(t, u, pool, tx.vin[x]))
    ensures filled == QuickPrev(t, u, pool, tx)
  {
  }

  lemma QuickAllFound(t: Tree, u: Utxo, pool: PoolMap, tx: Transaction)
    ensures (forall x {:trigger tx.vin[x]} :: 0 <= x < |tx.vin| ==> QuickPrevTX(t, u, pool, tx.vin[x]).Some?) <==>
            AllHeld(t, u, tx.vin) && AllPooled(NotUnspent(u, tx.vin, |tx.vin|), pool)
  {
    AllPooledMeans(u, tx.vin, pool);
  }

  lemma AllPooledMeans(u: Utxo, vin: seq<TXInput>, pool: PoolMap)
    ensures AllPooled(NotUnspent(u, vin, |vin|), pool) <==>
            forall x {:trigger vin[x]} :: 0 <= x < |vin| && Ref(vin[x]) !in u ==> vin[x].txid in pool
  {
    var us := NotUnspent(u, vin, |vin|);
    NotUnspentMeans(u, vin, |vin|);
    if AllPooled(us, pool) {
      forall x {:trigger vin[x]} | 0 <= x < |vin| && Ref(vin[x]) !in u ensures vin[x].txid in pool {
        assert MissingInput(x, vin[x]) in us;
        var i :| 0 <= i < |us| && us[i] == MissingInput(x, vin[x]);
      }
    } else {
      var i :| 0 <= i < |us| && us[i].vin.txid !in pool;
      assert us[i].vin == vin[us[i].ind];
    }
  }

  lemma FirstIs(txs: seq<Transaction>, id: Bytes, i: nat)
    requires i < |txs| && txs[i].id == id && forall j :: 0 <= j < i ==> txs[j].id != id
    ensures FirstWithId(txs, id) == Some(txs[i])
  {
    if i > 0 {
      FirstIs(txs[1..], id, i - 1);
    }
  }

  lemma FirstIsNone(txs: seq<Transaction>, id: Bytes)
    requires forall j :: 0 <= j < |txs| ==> txs[j].id != id
    ensures FirstWithId(txs, id) == None
  {
    if txs != [] {
      FirstIsNone(txs[1..], id);
    }
  }

  /** A transaction of a sound main chain does not pass again: its inputs are spent there, and the pool holds none of their makers. */
  lemma QuickRefusesOnMain(crypto: Crypto, t: Tree, top: Bytes, u: Utxo, pool: PoolMap, tx: Transaction)
    requires t.Valid() && top in t.blocks && Sound(Entries(t, top)) && Within(u, Unspent(Entries(t, top)))
    requires OffMain(pool, t, top) && tx.vin != [] && !tx.IsCoinbase()
    requires exists h :: Entry(tx, h) in Entries(t, top)
    ensures !QuickAccepts(crypto, t, u, pool, tx)
  {
    var es, op := Entries(t, top), Ref(tx.vin[0]);
    var h :| Entry(tx, h) in es;
    var j :| 0 <= j < |es| && es[j] == Entry(tx, h);
    assert IsInput(es, j, 0) && RefAt(es, j, 0) == op;
    assert tx.vin[0] in tx.vin && SpentAt(es, j, op);
    SpendableIsUnspent(es, op);
    var i :| i < j && CreatedAt(es, i, op);
    assert HasId(es, op.txid);
    assert QuickPrevTX(t, u, pool, tx.vin[0]) == None;
  }

  /** A reward does not pass on its own: its input names no output at all. */
  lemma QuickRefusesRewards(crypto: Crypto, t: Tree, es: seq<Entry>, u: Utxo, pool: PoolMap, tx: Transaction)
    requires UniqueIds(es) && Within(u, Unspent(es)) && tx.IsCoinbase() && tx.vin[0].txid !in pool
    ensures !QuickAccepts(crypto, t, u, pool, tx)
  {
    UnspentMeaning(es, Ref(tx.vin[0]));
    assert QuickPrevTX(t, u, pool, tx.vin[0]) == None;
  }
}

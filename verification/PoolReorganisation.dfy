/**
 What a branch replacement makes of the pool: no transaction is lost, the pool stays free of
 conflicts, and nothing of the new main chain is in it.
 */
module PoolReorganisation {
  import opened Structures
  import opened BlockTree
  import opened Blockchain
  import opened Ledger
  import opened Soundness
  import opened Pool

  function TxsOf(bs: seq<Block>): seq<Transaction> {
    if bs == [] then [] else TxsOf(bs[..|bs| - 1]) + bs[|bs| - 1].txs
  }

  ghost function ReturnAll(pool: PoolMap, bs: seq<Block>): PoolMap {
    if bs == [] then pool else Returned(ReturnAll(pool, bs[..|bs| - 1]), bs[|bs| - 1].txs)
  }

  ghost function DeleteAll(pool: PoolMap, bs: seq<Block>): PoolMap {
    if bs == [] then pool else DeleteAll(pool, bs[..|bs| - 1]) - OrdinaryIds(bs[|bs| - 1].txs)
  }

  lemma {:induction false} ReturnedAppend(pool: PoolMap, a: seq<Transaction>, b: seq<Transaction>)
    ensures Returned(pool, a + b) == Returned(Returned(pool, a), b)
    decreases |b|
  {
    if b == [] {
      assert a + b == a;
    } else {
      assert (a + b)[..|a + b| - 1] == a + b[..|b| - 1];
      ReturnedAppend(pool, a, b[..|b| - 1]);
    }
  }

  lemma {:induction false} ReturnAllIs(pool: PoolMap, bs: seq<Block>)
    ensures ReturnAll(pool, bs) == Returned(pool, TxsOf(bs))
    decreases |bs|
  {
    if bs != [] {
      ReturnAllIs(pool, bs[..|bs| - 1]);
      ReturnedAppend(pool, TxsOf(bs[..|bs| - 1]), bs[|bs| - 1].txs);
    }
  }

  lemma {:induction false} DeleteAllIs(pool: PoolMap, bs: seq<Block>)
    ensures DeleteAll(pool, bs) == pool - OrdinaryIds(TxsOf(bs))
    decreases |bs|
  {
    if bs != [] {
      var init, last := bs[..|bs| - 1], bs[|bs| - 1];
      DeleteAllIs(pool, init);
      assert OrdinaryIds(TxsOf(init) + last.txs) == OrdinaryIds(TxsOf(init)) + OrdinaryIds(last.txs);
    }
  }

  lemma {:induction false} TxsOfMember(bs: seq<Block>, tx: Transaction)
    ensures tx in TxsOf(bs) <==> exists b :: b in bs && tx in b.txs
    decreases |bs|
  {
    if bs != [] {
      TxsOfMember(bs[..|bs| - 1], tx);
      InitLast(bs);
    }
  }

  /** One ID, one transaction, over all stored blocks. */
  ghost predicate IdsIdentify(t: Tree) {
    forall h, g, u, v :: h in t.blocks && g in t.blocks && u in t.blocks[h].txs && v in t.blocks[g].txs && u.id == v.id ==> u == v
  }

  ghost predicate PoolAgrees(pool: PoolMap, t: Tree) {
    forall h, u :: h in t.blocks && u in t.blocks[h].txs && u.id in pool ==> pool[u.id] == u
  }

  /** No transaction of the pool is on the path of the tip. */
  ghost predicate OffMain(pool: PoolMap, t: Tree, tip: Bytes)
    requires t.Valid() && tip in t.blocks
  {
    forall id :: id in pool ==> !HasId(Entries(t, tip), id)
  }

  /** The pool after the blocks of side leave the main chain and those of main join it. */
  ghost function PoolMoved(pool: PoolMap, side: seq<Block>, main: seq<Block>): PoolMap {
    DeleteAll(ReturnAll(pool, side), main)
  }

  /** A transaction of a branch is on the path of its end, in a stored block above the common one. */
  lemma BranchTx(t: Tree, end_: Bytes, other: Bytes, tx: Transaction) returns (h: Bytes)
    requires t.Valid() && end_ in t.blocks && other in t.blocks
    requires tx in TxsOf(BlocksOf(t, t.Path(end_)[..Merge(t, end_, other)]))
    ensures h in t.Path(end_) && h !in t.Path(other) && tx in t.blocks[h].txs && Entry(tx, h) in Entries(t, end_)
  {
    var m := Merge(t, end_, other);
    var bs := BlocksOf(t, t.Path(end_)[..m]);
    TxsOfMember(bs, tx);
    var b :| b in bs && tx in b.txs;
    var i :| 0 <= i < m && bs[i] == b;
    PathStep(t, end_, i);
    h := t.Path(end_)[i];
    EntrySource(t, end_, Entry(tx, h));
  }

  /** An entry of a path is in a block of the branch above the common block, or on the other path too. */
  lemma EntryPlace(t: Tree, end_: Bytes, other: Bytes, e: Entry)
    requires t.Valid() && end_ in t.blocks && other in t.blocks && e in Entries(t, end_)
    ensures e.tx in TxsOf(BlocksOf(t, t.Path(end_)[..Merge(t, end_, other)])) || e in Entries(t, other)
  {
    var m := Merge(t, end_, other);
    var bs := BlocksOf(t, t.Path(end_)[..m]);
    EntrySource(t, end_, e);
    EntrySource(t, other, e);
    var i :| 0 <= i < |t.Path(end_)| && t.Path(end_)[i] == e.block;
    if i < m {
      assert bs[i] == t.blocks[e.block];
      TxsOfMember(bs, e.tx);
    } else {
      MergeHighest(t, end_, other);
      PathAt(t, end_, i);
      PathAt(t, end_, m);
      PathsMeet(t, end_, other, t.Path(end_)[m]);
    }
  }

  /** The order of a list of blocks does not matter for what it holds. */
  lemma ReversedTxs(bs: seq<Block>, tx: Transaction)
    ensures tx in TxsOf(Reversed(bs)) <==> tx in TxsOf(bs)
  {
    TxsOfMember(bs, tx);
    TxsOfMember(Reversed(bs), tx);
    assert forall i :: 0 <= i < |bs| ==> Reversed(bs)[|bs| - 1 - i] == bs[i];
    if b :| b in bs && tx in b.txs {
      var i :| 0 <= i < |bs| && bs[i] == b;
      assert Reversed(bs)[|bs| - 1 - i] == b;
    }
  }

  /** Two transactions of one sound path that share an input are the same. */
  lemma SharedInputSame(es: seq<Entry>, e: Entry, f: Entry)
    requires Sound(es) && e in es && f in es && SharesInput(e.tx, f.tx) && !e.tx.IsCoinbase() && !f.tx.IsCoinbase()
    ensures e == f
  {
    var x, y :| 0 <= x < |e.tx.vin| && 0 <= y < |f.tx.vin| && Ref(e.tx.vin[x]) == Ref(f.tx.vin[y]);
    var j :| 0 <= j < |es| && es[j] == e;
    var k :| 0 <= k < |es| && es[k] == f;
    assert IsInput(es, j, x) && IsInput(es, k, y) && RefAt(es, j, x) == RefAt(es, k, y);
  }

  lemma UniqueEntry(es: seq<Entry>, e: Entry, f: Entry)
    requires UniqueIds(es) && e in es && f in es && e.tx.id == f.tx.id
    ensures e == f
  {
    var j :| 0 <= j < |es| && es[j] == e;
    var k :| 0 <= k < |es| && es[k] == f;
    assert es[j].tx.id == es[k].tx.id;
  }

  /** The standing conditions on the pool and the chain before the blocks of the old branch come back. */
  ghost predicate PoolReady(c: Chain, old_: Bytes, pool: PoolMap)
    requires c.Valid() && old_ in c.tree.blocks
  {
    && IdsIdentify(c.tree) && Sound(Entries(c.tree, old_))
    && PoolOk(pool) && PoolAgrees(pool, c.tree) && OffMain(pool, c.tree, old_)
  }

  ghost function SideTxs(c: Chain, old_: Bytes): seq<Transaction>
    requires c.Valid() && old_ in c.tree.blocks
  {
    TxsOf(Branches(c.tree, old_, c.top).0)
  }

  ghost function MainTxs(c: Chain, old_: Bytes): seq<Transaction>
    requires c.Valid() && old_ in c.tree.blocks
  {
    TxsOf(Branches(c.tree, old_, c.top).1)
  }

  lemma SideTxFits(c: Chain, old_: Bytes, pool: PoolMap, tx: Transaction)
    requires c.Valid() && old_ in c.tree.blocks && PoolReady(c, old_, pool) && tx in SideTxs(c, old_)
    ensures (!tx.IsCoinbase() ==> tx.vin != []) && (tx.id in pool ==> pool[tx.id] == tx)
  {
    var h := BranchTx(c.tree, old_, c.top, tx);
    var i :| 0 <= i < |Entries(c.tree, old_)| && Entries(c.tree, old_)[i] == Entry(tx, h);
  }

  lemma SideTxById(c: Chain, old_: Bytes, a: Transaction, b: Transaction)
    requires c.Valid() && old_ in c.tree.blocks && IdsIdentify(c.tree)
    requires a in SideTxs(c, old_) && b in SideTxs(c, old_) && a.id == b.id
    ensures a == b
  {
    var h := BranchTx(c.tree, old_, c.top, a);
    var g := BranchTx(c.tree, old_, c.top, b);
  }

  /** The pool grew by some of the transactions, and each ordinary one of them is in it or has a rival there. */
  ghost predicate BroughtBack(pool: PoolMap, q: PoolMap, txs: seq<Transaction>) {
    && PoolOk(q) && Extends(pool, q)
    && (forall id :: id in q && id !in pool ==> q[id] in txs)
    && (forall tx :: tx in txs && !tx.IsCoinbase() ==> Accounted(q, tx))
  }

  /** The pool once the abandoned blocks came back. */
  lemma BackInPool(c: Chain, old_: Bytes, pool: PoolMap)
    requires c.Valid() && old_ in c.tree.blocks && PoolReady(c, old_, pool)
    ensures BroughtBack(pool, Returned(pool, SideTxs(c, old_)), SideTxs(c, old_))
  {
    SideTxsFit(c, old_, pool);
    Brought(pool, SideTxs(c, old_));
  }

  lemma Brought(pool: PoolMap, txs: seq<Transaction>)
    requires PoolOk(pool) && forall tx :: tx in txs ==> (!tx.IsCoinbase() ==> tx.vin != []) && (tx.id in pool ==> pool[tx.id] == tx)
    requires forall a, b :: a in txs && b in txs && a.id == b.id ==> a == b
    ensures BroughtBack(pool, Returned(pool, txs), txs)
  {
    ReturnedKeeps(pool, txs);
  }

  lemma SideTxsFit(c: Chain, old_: Bytes, pool: PoolMap)
    requires c.Valid() && old_ in c.tree.blocks && PoolReady(c, old_, pool)
    ensures forall tx :: tx in SideTxs(c, old_) ==> (!tx.IsCoinbase() ==> tx.vin != []) && (tx.id in pool ==> pool[tx.id] == tx)
    ensures forall a, b :: a in SideTxs(c, old_) && b in SideTxs(c, old_) && a.id == b.id ==> a == b
  {
    var txs := SideTxs(c, old_);
    forall tx | tx in txs ensures (!tx.IsCoinbase() ==> tx.vin != []) && (tx.id in pool ==> pool[tx.id] == tx) {
      SideTxFits(c, old_, pool, tx);
    }
    forall a, b | a in txs && b in txs && a.id == b.id ensures a == b {
      SideTxById(c, old_, a, b);
    }
  }

  /** Two ordinary transactions of the abandoned branch share no input. */
  lemma SideTxsDisjoint(c: Chain, old_: Bytes, a: Transaction, b: Transaction)
    requires c.Valid() && old_ in c.tree.blocks && Sound(Entries(c.tree, old_))
    requires a in SideTxs(c, old_) && b in SideTxs(c, old_) && !a.IsCoinbase() && !b.IsCoinbase() && SharesInput(a, b)
    ensures a == b
  {
    var h := BranchTx(c.tree, old_, c.top, a);
    var g := BranchTx(c.tree, old_, c.top, b);
    SharedInputSame(Entries(c.tree, old_), Entry(a, h), Entry(b, g));
  }

  /** Another transaction of the pool, from before the replacement, has an input of tx. */
  ghost predicate RivalIn(pool: PoolMap, tx: Transaction) {
    exists id :: id in pool && pool[id] != tx && SharesInput(tx, pool[id])
  }

  lemma BackOrRival(c: Chain, old_: Bytes, pool: PoolMap, tx: Transaction)
    requires c.Valid() && old_ in c.tree.blocks && PoolReady(c, old_, pool)
    requires tx in SideTxs(c, old_) && !tx.IsCoinbase()
    ensures tx.id in Returned(pool, SideTxs(c, old_)) || RivalIn(pool, tx)
  {
    BackInPool(c, old_, pool);
    forall u | u in SideTxs(c, old_) && !u.IsCoinbase() && SharesInput(tx, u) ensures u == tx {
      SideTxsDisjoint(c, old_, tx, u);
    }
    BackUnlessRival(pool, Returned(pool, SideTxs(c, old_)), SideTxs(c, old_), tx);
  }

  lemma BackUnlessRival(pool: PoolMap, q: PoolMap, txs: seq<Transaction>, tx: Transaction)
    requires BroughtBack(pool, q, txs) && tx in txs && !tx.IsCoinbase()
    requires forall u :: u in txs && !u.IsCoinbase() && SharesInput(tx, u) ==> u == tx
    ensures tx.id in q || RivalIn(pool, tx)
  {
    assert Accounted(q, tx);
    if tx.id !in q {
      var id :| id in q && q[id] != tx && SharesInput(tx, q[id]);
      if id in pool {
        assert q[id] == pool[id];
      }
    }
  }

  lemma MovedIs(c: Chain, old_: Bytes, pool: PoolMap)
    requires c.Valid() && old_ in c.tree.blocks
    ensures var b := Branches(c.tree, old_, c.top);
            PoolMoved(pool, b.0, b.1) == Returned(pool, SideTxs(c, old_)) - OrdinaryIds(MainTxs(c, old_))
  {
    var b := Branches(c.tree, old_, c.top);
    ReturnAllIs(pool, b.0);
    DeleteAllIs(ReturnAll(pool, b.0), b.1);
  }

  /**
   A reorganisation loses no transaction: each ordinary transaction of the abandoned branch is
   in the pool, or in the new branch, or shared an input with one that was in the pool before.
   */
  lemma NothingLost(c: Chain, old_: Bytes, pool: PoolMap, tx: Transaction)
    requires c.Valid() && old_ in c.tree.blocks && PoolReady(c, old_, pool)
    requires tx in SideTxs(c, old_) && !tx.IsCoinbase()
    ensures var b := Branches(c.tree, old_, c.top);
            || tx.id in PoolMoved(pool, b.0, b.1)
            || tx.id in OrdinaryIds(MainTxs(c, old_))
            || RivalIn(pool, tx)
  {
    BackOrRival(c, old_, pool, tx);
    MovedIs(c, old_, pool);
  }

  /** The moved pool is free of conflicts, agrees with the stored blocks and holds nothing of the new main chain. */
  lemma PoolStaysReady(c: Chain, old_: Bytes, pool: PoolMap)
    requires c.Valid() && old_ in c.tree.blocks && PoolReady(c, old_, pool)
    ensures var b := Branches(c.tree, old_, c.top);
            var p := PoolMoved(pool, b.0, b.1);
            PoolOk(p) && PoolAgrees(p, c.tree) && OffMain(p, c.tree, c.top)
  {
    var t, b, q := c.tree, Branches(c.tree, old_, c.top), Returned(pool, SideTxs(c, old_));
    BackInPool(c, old_, pool);
    MovedIs(c, old_, pool);
    var p := PoolMoved(pool, b.0, b.1);
    ReturnedAgrees(c, old_, pool);
    forall id | id in p ensures !HasId(Entries(t, c.top), id) {
      if HasId(Entries(t, c.top), id) {
        NotOnNewChain(c, old_, pool, id);
      }
    }
  }

  lemma ReturnedAgrees(c: Chain, old_: Bytes, pool: PoolMap)
    requires c.Valid() && old_ in c.tree.blocks && PoolReady(c, old_, pool)
    ensures PoolAgrees(Returned(pool, SideTxs(c, old_)), c.tree)
  {
    BackInPool(c, old_, pool);
    forall tx, h, u | tx in SideTxs(c, old_) && h in c.tree.blocks && u in c.tree.blocks[h].txs && u.id == tx.id ensures u == tx {
      SideTxIsStored(c, old_, tx, h, u);
    }
    GrownAgrees(c.tree, pool, Returned(pool, SideTxs(c, old_)), SideTxs(c, old_));
  }

  lemma GrownAgrees(t: Tree, pool: PoolMap, q: PoolMap, txs: seq<Transaction>)
    requires BroughtBack(pool, q, txs) && PoolAgrees(pool, t)
    requires forall tx, h, u :: tx in txs && h in t.blocks && u in t.blocks[h].txs && u.id == tx.id ==> u == tx
    ensures PoolAgrees(q, t)
  {
    forall h, u | h in t.blocks && u in t.blocks[h].txs && u.id in q ensures q[u.id] == u {
      if u.id !in pool {
        assert q[u.id] in txs && q[u.id].id == u.id;
      }
    }
  }

  lemma SideTxIsStored(c: Chain, old_: Bytes, tx: Transaction, h: Bytes, u: Transaction)
    requires c.Valid() && old_ in c.tree.blocks && IdsIdentify(c.tree) && tx in SideTxs(c, old_)
    requires h in c.tree.blocks && u in c.tree.blocks[h].txs && u.id == tx.id
    ensures u == tx
  {
    var g := BranchTx(c.tree, old_, c.top, tx);
  }

  /** Nothing that came back or stayed in the pool is, under its ID, another transaction than the one of the chain. */
  lemma BackIsOnOldOnly(c: Chain, old_: Bytes, pool: PoolMap, e: Entry)
    requires c.Valid() && old_ in c.tree.blocks && PoolReady(c, old_, pool)
    requires e in Entries(c.tree, c.top) && e.tx.id in Returned(pool, SideTxs(c, old_))
    ensures !e.tx.IsCoinbase() && e !in Entries(c.tree, old_)
  {
    var t, q := c.tree, Returned(pool, SideTxs(c, old_));
    BackInPool(c, old_, pool);
    ReturnedAgrees(c, old_, pool);
    EntrySource(t, c.top, e);
    assert q[e.tx.id] == e.tx;
    if e in Entries(t, old_) {
      var k :| 0 <= k < |Entries(t, old_)| && Entries(t, old_)[k] == e;
      assert HasId(Entries(t, old_), e.tx.id);
      var g := BranchTx(t, old_, c.top, e.tx);
      UniqueEntry(Entries(t, old_), e, Entry(e.tx, g));
      EntrySource(t, c.top, Entry(e.tx, g));
    }
  }

  /** A returned transaction that is on the new chain is an ordinary one of the new branch. */
  lemma NotOnNewChain(c: Chain, old_: Bytes, pool: PoolMap, id: Bytes)
    requires c.Valid() && old_ in c.tree.blocks && PoolReady(c, old_, pool)
    requires id in Returned(pool, SideTxs(c, old_)) && HasId(Entries(c.tree, c.top), id)
    ensures id in OrdinaryIds(MainTxs(c, old_))
  {
    var t := c.tree;
    var i :| 0 <= i < |Entries(t, c.top)| && Entries(t, c.top)[i].tx.id == id;
    var e := Entries(t, c.top)[i];
    BackIsOnOldOnly(c, old_, pool, e);
    EntryPlace(t, c.top, old_, e);
    ReversedTxs(BlocksOf(t, t.Path(c.top)[..Merge(t, c.top, old_)]), e.tx);
  }
}

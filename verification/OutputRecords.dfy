/**
 The records of the unspent output cache, and what a cache shows output by output
 (node/structures/transaction_output.go, node/database/unspentoutputs.go).
 */
module OutputRecords {
  import opened Structures
  import opened Ledger

  datatype UOut = UOut(value: real, destPubKeyHash: Bytes, sendPubKeyHash: Bytes, txid: Bytes, oIndex: int, isBase: bool, blockHash: Bytes)

  type Cache = map<Bytes, seq<UOut>>

  /** An output of a pool transaction, with the transaction that is kept in place of a block hash. */
  datatype PendingOut = PendingOut(out: UOut, tx: Transaction)

  function LoadFromSimple(out: TXOutput, txid: Bytes, ind: int, sender: Bytes, isCoinbase: bool, blockHash: Bytes): UOut {
    UOut(out.value, out.pubKeyHash, sender, txid, ind, isCoinbase, blockHash)
  }

  /** The first record of an output index. */
  function Find(outs: seq<UOut>, k: int): (r: Option<UOut>)
    ensures r.Some? ==> r.value in outs && r.value.oIndex == k
    ensures r.None? ==> forall i :: 0 <= i < |outs| ==> outs[i].oIndex != k
  {
    if outs == [] then None else if outs[0].oIndex == k then Some(outs[0]) else Find(outs[1..], k)
  }

  function CoinOfOut(o: UOut): Coin {
    Coin(o.value, o.destPubKeyHash, o.blockHash)
  }

  function Lookup(data: Cache, op: Outpoint): Option<Coin> {
    if op.txid in data && Find(data[op.txid], op.index).Some? then Some(CoinOfOut(Find(data[op.txid], op.index).value)) else None
  }

  function Get(u: Utxo, op: Outpoint): Option<Coin> {
    if op in u then Some(u[op]) else None
  }

  /** The cache, read outpoint by outpoint, holds exactly u: value, owner and containing block. */
  ghost predicate Shows(data: Cache, u: Utxo) {
    forall op {:trigger Lookup(data, op)} {:trigger Get(u, op)} :: Lookup(data, op) == Get(u, op)
  }

  lemma SameGets(u: Utxo, v: Utxo)
    requires forall op :: Get(u, op) == Get(v, op)
    ensures u == v
  {
    forall op ensures op in u <==> op in v ensures op in u ==> u[op] == v[op] {
      assert Get(u, op) == Get(v, op);
    }
    assert u.Keys == v.Keys;
  }

  lemma SomeViewShown(data: Cache)
    ensures exists u :: Shows(data, u)
  {
    var kept := set id, i | id in data && 0 <= i < |data[id]| :: Outpoint(id, data[id][i].oIndex);
    var u := map op | op in kept && Lookup(data, op).Some? :: Lookup(data, op).value;
    forall op ensures Lookup(data, op) == Get(u, op) {
      if Lookup(data, op).Some? {
        var i :| 0 <= i < |data[op.txid]| && data[op.txid][i] == Find(data[op.txid], op.index).value;
        assert Outpoint(op.txid, data[op.txid][i].oIndex) in kept;
      }
    }
    assert Shows(data, u);
  }

  /** What the cache shows. */
  ghost function View(data: Cache): (u: Utxo)
    ensures Shows(data, u)
  {
    SomeViewShown(data);
    var u :| Shows(data, u);
    u
  }

  lemma ViewIs(data: Cache, u: Utxo)
    requires Shows(data, u)
    ensures View(data) == u
  {
    forall op ensures Get(View(data), op) == Get(u, op) {
      assert Lookup(data, op) == Get(View(data), op);
    }
    SameGets(View(data), u);
  }

  lemma FindAppend(outs: seq<UOut>, o: UOut, k: int)
    ensures Find(outs + [o], k) == if Find(outs, k).Some? then Find(outs, k) else if o.oIndex == k then Some(o) else None
  {
    if outs != [] {
      assert (outs + [o])[1..] == outs[1..] + [o];
      FindAppend(outs[1..], o, k);
    }
  }

  /** The record list after an input took one output index away. */
  function Drop(outs: seq<UOut>, k: int): seq<UOut> {
    if outs == [] then [] else (if outs[0].oIndex != k then [outs[0]] else []) + Drop(outs[1..], k)
  }

  lemma FindDrop(outs: seq<UOut>, k: int, j: int)
    ensures Find(Drop(outs, k), j) == if j == k then None else Find(outs, j)
  {
    if outs != [] {
      FindDrop(outs[1..], k, j);
      if outs[0].oIndex != k {
        assert Drop(outs, k)[1..] == Drop(outs[1..], k);
      } else {
        assert Drop(outs, k) == Drop(outs[1..], k);
      }
    }
  }

  lemma DropAppend(outs: seq<UOut>, o: UOut, k: int)
    ensures Drop(outs + [o], k) == Drop(outs, k) + if o.oIndex != k then [o] else []
  {
    if outs != [] {
      assert (outs + [o])[1..] == outs[1..] + [o];
      DropAppend(outs[1..], o, k);
    }
  }

  /** The list under one ID holds exactly outputs 0..n-1 of the transaction that pass the filter. */
  ghost predicate Lists(outs: seq<UOut>, tx: Transaction, n: int, skip: set<int>, blockHash: Bytes) {
    forall k :: (Find(outs, k).Some? <==> 0 <= k < n <= |tx.vout| && k !in skip)
                && (Find(outs, k).Some? && 0 <= k < n <= |tx.vout| ==>
                      CoinOfOut(Find(outs, k).value) == CoinOf(Entry(tx, blockHash), k))
  }

  // ----- Tidy caches

  /** Records lie under their own ID, one for each output index. */
  ghost predicate TidyList(outs: seq<UOut>, id: Bytes) {
    && (forall i :: 0 <= i < |outs| ==> outs[i].txid == id)
    && (forall i, j :: 0 <= i < j < |outs| ==> outs[i].oIndex != outs[j].oIndex)
  }

  ghost predicate Tidy(data: Cache) {
    forall id :: id in data ==> TidyList(data[id], id)
  }

  lemma FindMember(outs: seq<UOut>, id: Bytes, i: nat)
    requires TidyList(outs, id) && i < |outs|
    ensures Find(outs, outs[i].oIndex) == Some(outs[i])
  {
    if i > 0 {
      FindMember(outs[1..], id, i - 1);
    }
  }

  lemma {:induction false} DropMembers(outs: seq<UOut>, k: int)
    ensures forall o :: o in Drop(outs, k) <==> o in outs && o.oIndex != k
    decreases |outs|
  {
    if outs != [] {
      DropMembers(outs[1..], k);
      assert outs == [outs[0]] + outs[1..];
    }
  }

  lemma LaterIndexDiffers(outs: seq<UOut>, id: Bytes, o: UOut)
    requires TidyList(outs, id) && outs != [] && o in outs[1..]
    ensures o.oIndex != outs[0].oIndex
  {
    var m :| 0 <= m < |outs[1..]| && outs[1..][m] == o;
    assert outs[m + 1] == o;
  }

  lemma ConsTidy(o: UOut, rest: seq<UOut>, id: Bytes)
    requires TidyList(rest, id) && o.txid == id && forall j :: 0 <= j < |rest| ==> rest[j].oIndex != o.oIndex
    ensures TidyList([o] + rest, id)
  {
  }

  lemma {:induction false} DropTidy(outs: seq<UOut>, id: Bytes, k: int)
    requires TidyList(outs, id)
    ensures TidyList(Drop(outs, k), id)
    decreases |outs|
  {
    if outs != [] {
      var rest := Drop(outs[1..], k);
      DropTidy(outs[1..], id, k);
      DropMembers(outs[1..], k);
      forall j | 0 <= j < |rest| ensures rest[j].oIndex != outs[0].oIndex {
        assert rest[j] in rest && rest[j] in outs[1..];
        LaterIndexDiffers(outs, id, rest[j]);
      }
      if outs[0].oIndex != k {
        ConsTidy(outs[0], rest, id);
      }
    }
  }

  /** A record for an output that the cache does not show yet. */
  lemma TidyAppend(data: Cache, id: Bytes, o: UOut)
    requires Tidy(data) && id in data && o.txid == id && Lookup(data, Outpoint(id, o.oIndex)).None?
    ensures Tidy(data[id := data[id] + [o]])
  {
    assert Find(data[id], o.oIndex).None?;
    SnocTidy(data[id], o, id);
  }

  lemma SnocTidy(outs: seq<UOut>, o: UOut, id: Bytes)
    requires TidyList(outs, id) && o.txid == id && forall i :: 0 <= i < |outs| ==> outs[i].oIndex != o.oIndex
    ensures TidyList(outs + [o], id)
  {
  }
}

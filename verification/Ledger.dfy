/**
 The meaning of a chain of transactions: which outputs are unspent after it, and when the
 chain is sound. A chain is read as a list of entries, a transaction with the block it is in.
 */
module Ledger {
  import opened Structures
  import opened BlockTree

  datatype Entry = Entry(tx: Transaction, block: Bytes)

  datatype Outpoint = Outpoint(txid: Bytes, index: int)

  datatype Coin = Coin(value: real, owner: Bytes, block: Bytes)

  type Utxo = map<Outpoint, Coin>

  function Ref(i: TXInput): Outpoint {
    Outpoint(i.txid, i.vout)
  }

  function Spends(tx: Transaction): set<Outpoint> {
    if tx.IsCoinbase() then {} else set i | i in tx.vin :: Ref(i)
  }

  predicate InRange(tx: Transaction, k: int) {
    0 <= k < |tx.vout|
  }

  function CoinOf(e: Entry, k: int): Coin
    requires InRange(e.tx, k)
  {
    Coin(e.tx.vout[k].value, e.tx.vout[k].pubKeyHash, e.block)
  }

  function Creates(e: Entry): Utxo {
    map k | 0 <= k < |e.tx.vout| :: Outpoint(e.tx.id, k) := CoinOf(e, k)
  }

  /** One transaction: its inputs go, its outputs replace whatever was kept under its ID. */
  function Apply(u: Utxo, e: Entry): Utxo {
    (map op | op in u && op !in Spends(e.tx) && op.txid != e.tx.id :: u[op]) + Creates(e)
  }

  ghost function ApplyAll(u: Utxo, es: seq<Entry>): Utxo {
    if es == [] then u else Apply(ApplyAll(u, es[..|es| - 1]), es[|es| - 1])
  }

  ghost function Unspent(es: seq<Entry>): Utxo {
    ApplyAll(map[], es)
  }

  /** Every output the entries ever created. */
  ghost function AllOutputs(es: seq<Entry>): Utxo {
    if es == [] then map[] else AllOutputs(es[..|es| - 1]) + Creates(es[|es| - 1])
  }

  function Tag(b: Block): (es: seq<Entry>)
    ensures |es| == |b.txs| && forall i :: 0 <= i < |es| ==> es[i] == Entry(b.txs[i], b.hash)
  {
    seq(|b.txs|, i requires 0 <= i < |b.txs| => Entry(b.txs[i], b.hash))
  }

  /** The entries from the genesis block up to and including block h. */
  ghost function Entries(t: Tree, h: Bytes): seq<Entry>
    requires t.Valid() && h in t.blocks
    decreases t.blocks[h].height
  {
    assert t.Link(h);
    if h == t.genesis then Tag(t.blocks[h]) else Entries(t, t.blocks[h].prev) + Tag(t.blocks[h])
  }

  lemma {:induction false} ApplyAllAppend(u: Utxo, es: seq<Entry>, fs: seq<Entry>)
    ensures ApplyAll(u, es + fs) == ApplyAll(ApplyAll(u, es), fs)
    decreases |fs|
  {
    if fs == [] {
      assert es + fs == es;
    } else {
      var init := fs[..|fs| - 1];
      assert (es + fs)[..|es + fs| - 1] == es + init;
      ApplyAllAppend(u, es, init);
    }
  }

  lemma {:induction false} EntriesFrame(t: Tree, u: Tree, h: Bytes)
    requires t.Valid() && u.Valid() && t.genesis == u.genesis && h in t.blocks
    requires forall a :: a in t.Path(h) ==> a in u.blocks && u.blocks[a] == t.blocks[a]
    ensures h in u.blocks && Entries(u, h) == Entries(t, h)
    decreases t.blocks[h].height
  {
    assert t.Link(h) && h in t.Path(h);
    if h != t.genesis {
      assert t.Path(h) == [h] + t.Path(t.blocks[h].prev);
      EntriesFrame(t, u, t.blocks[h].prev);
    }
  }

  /** An entry comes from a block of the path, and every transaction of the path is an entry. */
  lemma {:induction false} EntrySource(t: Tree, h: Bytes, e: Entry)
    requires t.Valid() && h in t.blocks
    ensures e in Entries(t, h) <==> e.block in t.Path(h) && e.tx in t.blocks[e.block].txs
    decreases t.blocks[h].height
  {
    assert t.Link(h);
    var tag := Tag(t.blocks[h]);
    assert e in tag <==> e.block == h && e.tx in t.blocks[h].txs by {
      if e.block == h && e.tx in t.blocks[h].txs {
        var k :| 0 <= k < |tag| && t.blocks[h].txs[k] == e.tx;
        assert tag[k] == e;
      }
    }
    if h != t.genesis {
      EntrySource(t, t.blocks[h].prev, e);
      var prev := t.blocks[h].prev;
      assert h !in t.Path(prev) by {
        if h in t.Path(prev) { OnPath(t, prev, h); assert false; }
      }
    }
  }

  // ----- Where outputs are created and spent

  ghost predicate CreatedAt(es: seq<Entry>, i: int, op: Outpoint) {
    0 <= i < |es| && es[i].tx.id == op.txid && InRange(es[i].tx, op.index)
  }

  ghost predicate SpentAt(es: seq<Entry>, j: int, op: Outpoint) {
    0 <= j < |es| && op in Spends(es[j].tx)
  }

  /** Created by entry i and spent by no later entry. */
  ghost predicate KeptFrom(es: seq<Entry>, i: int, op: Outpoint) {
    CreatedAt(es, i, op) && forall j :: i < j < |es| ==> !SpentAt(es, j, op)
  }

  ghost predicate HasId(es: seq<Entry>, id: Bytes) {
    exists i :: 0 <= i < |es| && es[i].tx.id == id
  }

  ghost predicate UniqueIds(es: seq<Entry>) {
    forall i, j :: 0 <= i < j < |es| ==> es[i].tx.id != es[j].tx.id
  }

  /** With unique IDs the unspent outputs are exactly those created and not spent later. */
  lemma {:induction false} UnspentMeaning(es: seq<Entry>, op: Outpoint)
    requires UniqueIds(es)
    ensures op in Unspent(es) <==> exists i :: KeptFrom(es, i, op)
    ensures forall i :: KeptFrom(es, i, op) ==> op in Unspent(es) && Unspent(es)[op] == CoinOf(es[i], op.index)
    ensures op in Unspent(es) ==> HasId(es, op.txid)
    decreases |es|
  {
    if es != [] {
      var init, last := es[..|es| - 1], es[|es| - 1];
      UnspentMeaning(init, op);
      KeptStep(init, last, op);
      InitLast(es);
      if op in Unspent(es) {
        if op !in Creates(last) {
          var i :| KeptFrom(init, i, op);
          assert KeptFrom(es, i, op);
        } else {
          assert KeptFrom(es, |init|, op);
        }
      }
    }
  }

  lemma KeptStep(init: seq<Entry>, last: Entry, op: Outpoint)
    requires UniqueIds(init + [last])
    ensures forall i :: KeptFrom(init + [last], i, op) <==>
              if i == |init| then CreatedAt(init + [last], i, op)
              else KeptFrom(init, i, op) && op !in Spends(last.tx)
    ensures forall i :: KeptFrom(init, i, op) ==> last.tx.id != op.txid
  {
    var es := init + [last];
    forall i ensures KeptFrom(es, i, op) <==>
                     if i == |init| then CreatedAt(es, i, op) else KeptFrom(init, i, op) && op !in Spends(last.tx)
    {
      if 0 <= i < |init| {
        assert SpentAt(es, |init|, op) <==> op in Spends(last.tx);
        assert forall j :: 0 <= j < |init| ==> (SpentAt(es, j, op) <==> SpentAt(init, j, op));
      }
    }
    forall i | KeptFrom(init, i, op) ensures last.tx.id != op.txid {
      assert es[i].tx.id != es[|init|].tx.id;
    }
  }
}

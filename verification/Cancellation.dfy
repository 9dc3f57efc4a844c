/**
 What cancelling a block makes of the unspent outputs, and when it undoes adding it
 (node/transactions/unspent.go:546-634).
 */
module Cancellation {
  import opened Structures
  import opened BlockTree
  import opened Blockchain
  import opened Ledger
  import opened Soundness
  import opened TransactionIndex

  ghost function IdsIn(txs: seq<Transaction>): set<Bytes> {
    set tx | tx in txs :: tx.id
  }

  ghost function IdsOf(b: Block): set<Bytes> {
    IdsIn(b.txs)
  }

  /** The input loop gets to input x: every input up to it names a transaction of the chain below. */
  ghost predicate ReachesInput(tx: Transaction, below: seq<Entry>, x: int) {
    && 0 <= x < |tx.vin|
    && forall y :: 0 <= y <= x ==> HasId(below, tx.vin[y].txid)
  }

  ghost function ReachedBy(tx: Transaction, below: seq<Entry>): set<Bytes> {
    if tx.IsCoinbase() then {} else set x | 0 <= x < |tx.vin| && ReachesInput(tx, below, x) :: tx.vin[x].txid
  }

  ghost function ReachedIn(txs: seq<Transaction>, below: seq<Entry>): set<Bytes> {
    set tx, id | tx in txs && id in ReachedBy(tx, below) :: id
  }

  /** The transactions whose records cancelling rebuilds. */
  ghost function Reached(b: Block, below: seq<Entry>): set<Bytes> {
    ReachedIn(b.txs, below)
  }

  /** The rebuilt records: the outputs that no block counted under the tip spends. */
  ghost function Rebuilt(c: Chain, tip: Bytes, ids: set<Bytes>): Utxo
    requires c.Valid() && tip in c.tree.blocks
  {
    var all := AllOutputs(Entries(c.tree, tip));
    map op | op in all && op.txid in ids && all[op].block in c.tree.blocks && !SpentUnder(c, op, all[op].block, tip) :: all[op]
  }

  ghost function Without(u: Utxo, ids: set<Bytes>): Utxo {
    map op | op in u && op.txid !in ids :: u[op]
  }

  /** The unspent outputs after the block is cancelled. */
  ghost function Cancelled(c: Chain, u: Utxo, b: Block): Utxo
    requires c.Valid() && b.prev in c.tree.blocks
  {
    var reached := Reached(b, Entries(c.tree, b.prev));
    Without(u, IdsOf(b) + reached) + Rebuilt(c, b.prev, reached)
  }

  lemma {:induction false} AllOutputsMeaning(es: seq<Entry>, op: Outpoint)
    requires UniqueIds(es)
    ensures op in AllOutputs(es) <==> exists i :: CreatedAt(es, i, op)
    ensures forall i :: CreatedAt(es, i, op) ==> op in AllOutputs(es) && AllOutputs(es)[op] == CoinOf(es[i], op.index)
    decreases |es|
  {
    if es != [] {
      var init, last := es[..|es| - 1], es[|es| - 1];
      AllOutputsMeaning(init, op);
      assert forall i :: 0 <= i < |init| ==> (CreatedAt(es, i, op) <==> CreatedAt(init, i, op));
      assert op in Creates(last) <==> CreatedAt(es, |init|, op);
      if op in AllOutputs(init) {
        var i :| CreatedAt(init, i, op);
        assert CreatedAt(es, i, op);
      }
    }
  }

  /** Unspent outputs are created outputs, with the same coin. */
  lemma UnspentAmongAll(es: seq<Entry>, op: Outpoint)
    requires UniqueIds(es) && op in Unspent(es)
    ensures op in AllOutputs(es) && AllOutputs(es)[op] == Unspent(es)[op]
  {
    UnspentMeaning(es, op);
    AllOutputsMeaning(es, op);
    var i :| KeptFrom(es, i, op);
    assert CreatedAt(es, i, op);
  }

  // ----- Counted spends and real spends

  /** A stored block off the path of tip is counted under it and spends the output. */
  ghost predicate StraySpend(c: Chain, op: Outpoint, bottom: Bytes, tip: Bytes)
    requires c.Valid() && bottom in c.tree.blocks && tip in c.tree.blocks
  {
    exists h :: h in c.tree.blocks && SpendsOutput(c.tree.blocks[h].txs, op) && Stray(c, h, bottom, tip)
  }

  lemma CreatorBlock(t: Tree, tip: Bytes, op: Outpoint)
    requires t.Valid() && tip in t.blocks && UniqueIds(Entries(t, tip)) && op in AllOutputs(Entries(t, tip))
    ensures AllOutputs(Entries(t, tip))[op].block in t.Path(tip)
    ensures exists i :: CreatedAt(Entries(t, tip), i, op) && Entries(t, tip)[i].block == AllOutputs(Entries(t, tip))[op].block
  {
    var es := Entries(t, tip);
    AllOutputsMeaning(es, op);
    var i :| CreatedAt(es, i, op);
    EntrySource(t, tip, es[i]);
    assert es[i] in es && AllOutputs(es)[op].block == es[i].block;
  }

  /** A real spend on the path is counted. */
  lemma RealSpendCounts(c: Chain, tip: Bytes, op: Outpoint, i: int, j: int)
    requires c.Valid() && tip in c.tree.blocks && Sound(Entries(c.tree, tip))
    requires CreatedAt(Entries(c.tree, tip), i, op) && SpentAt(Entries(c.tree, tip), j, op)
    requires Entries(c.tree, tip)[i].block in c.tree.blocks
    ensures SpentUnder(c, op, Entries(c.tree, tip)[i].block, tip)
  {
    var t, es := c.tree, Entries(c.tree, tip);
    EntrySource(t, tip, es[j]);
    assert es[j] in es;
    SpentAfterCreated(es, i, j, op);
    EntryOrder(t, tip, i, j);
    SpendIn(t.blocks[es[j].block].txs, es[j].tx, op);
    assert OnSegment(t, es[j].block, es[i].block, tip);
  }

  /** A counted spend is a real one on the path, or a stray one. */
  lemma CountedIsRealOrStray(c: Chain, tip: Bytes, op: Outpoint, bottom: Bytes)
    requires c.Valid() && tip in c.tree.blocks && bottom in c.tree.blocks && SpentUnder(c, op, bottom, tip)
    ensures StraySpend(c, op, bottom, tip) || exists j :: SpentAt(Entries(c.tree, tip), j, op)
  {
    var t, es := c.tree, Entries(c.tree, tip);
    var h :| h in t.blocks && SpendsOutput(t.blocks[h].txs, op) && InTipRange(c, h, bottom, tip);
    if h in t.Path(tip) {
      var k :| 0 <= k < |t.blocks[h].txs| && op in Spends(t.blocks[h].txs[k]);
      var e := Entry(t.blocks[h].txs[k], h);
      EntrySource(t, tip, e);
      var j :| 0 <= j < |es| && es[j] == e;
      assert SpentAt(es, j, op);
    }
  }

  /** On a sound path the counted spends are the real ones and the stray ones. */
  lemma SpentUnderMeans(c: Chain, tip: Bytes, op: Outpoint)
    requires c.Valid() && tip in c.tree.blocks && Sound(Entries(c.tree, tip))
    requires op in AllOutputs(Entries(c.tree, tip))
    ensures var bottom := AllOutputs(Entries(c.tree, tip))[op].block;
            && bottom in c.tree.Path(tip)
            && (SpentUnder(c, op, bottom, tip) <==> op !in Unspent(Entries(c.tree, tip)) || StraySpend(c, op, bottom, tip))
  {
    var es := Entries(c.tree, tip);
    CreatorBlock(c.tree, tip, op);
    var bottom := AllOutputs(es)[op].block;
    var i :| CreatedAt(es, i, op) && es[i].block == bottom;
    SpendableIsUnspent(es, op);
    if op !in Unspent(es) {
      var j :| SpentAt(es, j, op);
      RealSpendCounts(c, tip, op, i, j);
    }
    if SpentUnder(c, op, bottom, tip) {
      CountedIsRealOrStray(c, tip, op, bottom);
    }
  }

  lemma SpendIn(txs: seq<Transaction>, tx: Transaction, op: Outpoint)
    requires tx in txs && op in Spends(tx)
    ensures SpendsOutput(txs, op)
  {
    var k :| 0 <= k < |txs| && txs[k] == tx;
  }

  /** Later entries come from blocks at least as high. */
  lemma {:induction false} EntryOrder(t: Tree, h: Bytes, i: nat, j: nat)
    requires t.Valid() && h in t.blocks && i <= j < |Entries(t, h)|
    ensures Entries(t, h)[i].block in t.blocks && Entries(t, h)[j].block in t.blocks
    ensures t.blocks[Entries(t, h)[i].block].height <= t.blocks[Entries(t, h)[j].block].height <= t.blocks[h].height
    decreases t.blocks[h].height
  {
    assert t.Link(h);
    if h != t.genesis {
      var prev := t.blocks[h].prev;
      var n := |Entries(t, prev)|;
      assert t.Link(prev);
      if j < n {
        EntryOrder(t, prev, i, j);
      } else if i < n {
        EntryOrder(t, prev, i, i);
      }
    }
  }

  // ----- When cancelling undoes adding

  /** Every input that names a transaction of the chain below lies where the loop reaches its transaction. */
  ghost predicate AllReached(b: Block, below: seq<Entry>) {
    forall k, x {:trigger b.txs[k].vin[x]} ::
      (0 <= k < |b.txs| && !b.txs[k].IsCoinbase() && 0 <= x < |b.txs[k].vin| && HasId(below, b.txs[k].vin[x].txid))
      ==> b.txs[k].vin[x].txid in Reached(b, below)
  }

  /** No unspent output of a rebuilt record is spent by a stray block. */
  ghost predicate NoStraySpends(c: Chain, b: Block)
    requires c.Valid() && b.prev in c.tree.blocks
  {
    var below := Entries(c.tree, b.prev);
    forall op :: op in Unspent(below) && op.txid in Reached(b, below) && Unspent(below)[op].block in c.tree.blocks
      ==> !StraySpend(c, op, Unspent(below)[op].block, b.prev)
  }

  lemma TagIds(es: seq<Entry>, b: Block, id: Bytes)
    requires UniqueIds(es + Tag(b)) && id in IdsOf(b)
    ensures !HasId(es, id)
  {
    var all := es + Tag(b);
    var tx :| tx in b.txs && tx.id == id;
    var k :| 0 <= k < |b.txs| && b.txs[k] == tx;
    assert all[|es| + k].tx.id == id;
    forall i | 0 <= i < |es| ensures es[i].tx.id != id {
      assert all[i].tx.id != all[|es| + k].tx.id;
    }
  }

  /** In the chain with the block, an output of the chain below is created and spent as before, or spent by the block. */
  lemma EntriesWithBlock(es: seq<Entry>, b: Block, op: Outpoint)
    requires op.txid !in IdsOf(b)
    ensures forall i :: CreatedAt(es + Tag(b), i, op) <==> CreatedAt(es, i, op)
    ensures forall j :: SpentAt(es + Tag(b), j, op) <==>
              SpentAt(es, j, op) || (|es| <= j < |es| + |b.txs| && op in Spends(b.txs[j - |es|]))
  {
    var all := es + Tag(b);
    forall i ensures CreatedAt(all, i, op) <==> CreatedAt(es, i, op) {
      if |es| <= i < |all| {
        assert all[i].tx == b.txs[i - |es|] && b.txs[i - |es|] in b.txs;
      }
    }
  }

  lemma KeptWithBlock(es: seq<Entry>, b: Block, op: Outpoint, i: int)
    requires op.txid !in IdsOf(b)
    ensures KeptFrom(es + Tag(b), i, op) <==> KeptFrom(es, i, op) && !SpendsOutput(b.txs, op)
  {
    var all := es + Tag(b);
    EntriesWithBlock(es, b, op);
    if KeptFrom(all, i, op) {
      forall k | 0 <= k < |b.txs| ensures op !in Spends(b.txs[k]) {
        assert !SpentAt(all, |es| + k, op);
      }
    }
  }

  /** What one block does to an output of the chain below it. */
  lemma BelowAfterBlock(es: seq<Entry>, b: Block, op: Outpoint)
    requires Sound(es + Tag(b)) && op.txid !in IdsOf(b)
    ensures op in Unspent(es + Tag(b)) <==> op in Unspent(es) && !SpendsOutput(b.txs, op)
    ensures op in Unspent(es + Tag(b)) ==> Unspent(es + Tag(b))[op] == Unspent(es)[op]
  {
    var all := es + Tag(b);
    assert all[..|es|] == es;
    SoundPrefix(all, |es|);
    UnspentMeaning(all, op);
    UnspentMeaning(es, op);
    forall i ensures KeptFrom(all, i, op) <==> KeptFrom(es, i, op) && !SpendsOutput(b.txs, op) {
      KeptWithBlock(es, b, op, i);
    }
  }

  lemma BlockInputUnspent(es: seq<Entry>, b: Block, k: nat, x: nat)
    requires Sound(es + Tag(b)) && k < |b.txs| && !b.txs[k].IsCoinbase() && x < |b.txs[k].vin|
    requires b.txs[k].vin[x].txid !in IdsOf(b)
    ensures Ref(b.txs[k].vin[x]) in Unspent(es)
  {
    var all, op := es + Tag(b), Ref(b.txs[k].vin[x]);
    assert IsInput(all, |es| + k, x) && RefAt(all, |es| + k, x) == op;
    InputWasUnspent(all, |es| + k, x);
    var part := Block(0, b.txs[..k], [], b.hash, 0, 0);
    assert all[..|es| + k] == es + Tag(part);
    assert IdsOf(part) <= IdsOf(b) by {
      assert forall tx :: tx in part.txs ==> tx in b.txs;
    }
    BelowAfterBlock(es, part, op);
  }

  /** An output of the chain below that the block spends was unspent there, and its transaction is named by an input. */
  lemma BlockSpendsUnspent(es: seq<Entry>, b: Block, op: Outpoint)
    requires Sound(es + Tag(b)) && SpendsOutput(b.txs, op) && op.txid !in IdsOf(b)
    ensures op in Unspent(es)
    ensures exists k, x :: 0 <= k < |b.txs| && !b.txs[k].IsCoinbase() && 0 <= x < |b.txs[k].vin| && Ref(b.txs[k].vin[x]) == op
  {
    var all := es + Tag(b);
    var k :| 0 <= k < |b.txs| && op in Spends(b.txs[k]);
    var i :| i in b.txs[k].vin && Ref(i) == op;
    var x :| 0 <= x < |b.txs[k].vin| && b.txs[k].vin[x] == i;
    BlockInputUnspent(es, b, k, x);
  }

  /**
   Cancelling the block just added gives back the earlier unspent outputs exactly when the
   input loops reach every transaction of the chain below that the block names, and no stray
   block spends an unspent output of those.
   */
  lemma CancelUndoesAdd(c: Chain, b: Block)
    requires c.Valid() && b.prev in c.tree.blocks
    requires Sound(Entries(c.tree, b.prev) + Tag(b))
    ensures var below := Entries(c.tree, b.prev);
            Cancelled(c, Unspent(below + Tag(b)), b) == Unspent(below) <==> AllReached(b, below) && NoStraySpends(c, b)
  {
    var below := Entries(c.tree, b.prev);
    var after := Cancelled(c, Unspent(below + Tag(b)), b);
    if AllReached(b, below) && NoStraySpends(c, b) {
      forall op ensures op in after <==> op in Unspent(below)
                ensures op in after ==> after[op] == Unspent(below)[op]
      {
        CancelRestores(c, b, op);
      }
      assert after.Keys == Unspent(below).Keys;
    } else if !AllReached(b, below) {
      var k, x :| 0 <= k < |b.txs| && !b.txs[k].IsCoinbase() && 0 <= x < |b.txs[k].vin|
                  && HasId(below, b.txs[k].vin[x].txid) && b.txs[k].vin[x].txid !in Reached(b, below);
      var op := Ref(b.txs[k].vin[x]);
      assert b.txs[k].vin[x] in b.txs[k].vin && op in Spends(b.txs[k]) && SpendsOutput(b.txs, op);
      assert op.txid !in IdsOf(b) by {
        if op.txid in IdsOf(b) {
          TagIds(below, b, op.txid);
        }
      }
      BlockSpendsUnspent(below, b, op);
      CancelledUntouched(c, b, op);
    } else {
      var op :| op in Unspent(below) && op.txid in Reached(b, below) && Unspent(below)[op].block in c.tree.blocks
                && StraySpend(c, op, Unspent(below)[op].block, b.prev);
      CancelledRebuilt(c, b, op);
    }
  }

  lemma CancelRestores(c: Chain, b: Block, op: Outpoint)
    requires c.Valid() && b.prev in c.tree.blocks
    requires Sound(Entries(c.tree, b.prev) + Tag(b))
    requires AllReached(b, Entries(c.tree, b.prev)) && NoStraySpends(c, b)
    ensures var below := Entries(c.tree, b.prev);
            var after := Cancelled(c, Unspent(below + Tag(b)), b);
            && (op in after <==> op in Unspent(below))
            && (op in after ==> after[op] == Unspent(below)[op])
  {
    var below := Entries(c.tree, b.prev);
    if op.txid in IdsOf(b) {
      CancelledOwn(c, b, op);
    } else if op.txid in Reached(b, below) {
      CancelledRebuilt(c, b, op);
    } else {
      CancelledUntouched(c, b, op);
      if SpendsOutput(b.txs, op) {
        BlockSpendsUnspent(below, b, op);
        assert (below + Tag(b))[..|below|] == below;
        SoundPrefix(below + Tag(b), |below|);
        UnspentMeaning(below, op);
        assert false;
      }
    }
  }

  /** Outputs of the block itself are gone. */
  lemma CancelledOwn(c: Chain, b: Block, op: Outpoint)
    requires c.Valid() && b.prev in c.tree.blocks
    requires Sound(Entries(c.tree, b.prev) + Tag(b)) && op.txid in IdsOf(b)
    ensures var below := Entries(c.tree, b.prev);
            op !in Cancelled(c, Unspent(below + Tag(b)), b) && op !in Unspent(below) && op.txid !in Reached(b, below)
  {
    var below := Entries(c.tree, b.prev);
    assert (below + Tag(b))[..|below|] == below;
    SoundPrefix(below + Tag(b), |below|);
    TagIds(below, b, op.txid);
    UnspentMeaning(below, op);
    AllOutputsMeaning(below, op);
  }

  /** Records that are not rebuilt stay as adding the block left them. */
  lemma CancelledUntouched(c: Chain, b: Block, op: Outpoint)
    requires c.Valid() && b.prev in c.tree.blocks
    requires Sound(Entries(c.tree, b.prev) + Tag(b))
    requires op.txid !in IdsOf(b) && op.txid !in Reached(b, Entries(c.tree, b.prev))
    ensures var below := Entries(c.tree, b.prev);
            var after := Cancelled(c, Unspent(below + Tag(b)), b);
            && (op in after <==> op in Unspent(below) && !SpendsOutput(b.txs, op))
            && (op in after ==> after[op] == Unspent(below)[op])
  {
    BelowAfterBlock(Entries(c.tree, b.prev), b, op);
  }

  /** Rebuilt records hold the unspent outputs no stray block spends. */
  lemma CancelledRebuilt(c: Chain, b: Block, op: Outpoint)
    requires c.Valid() && b.prev in c.tree.blocks
    requires Sound(Entries(c.tree, b.prev) + Tag(b)) && op.txid in Reached(b, Entries(c.tree, b.prev))
    ensures var below := Entries(c.tree, b.prev);
            var after := Cancelled(c, Unspent(below + Tag(b)), b);
            && (op in Unspent(below) ==> Unspent(below)[op].block in c.tree.blocks)
            && (op in after <==> op in Unspent(below) && !StraySpend(c, op, Unspent(below)[op].block, b.prev))
            && (op in after ==> after[op] == Unspent(below)[op])
  {
    var below := Entries(c.tree, b.prev);
    assert (below + Tag(b))[..|below|] == below;
    SoundPrefix(below + Tag(b), |below|);
    if op in Unspent(below) {
      UnspentAmongAll(below, op);
    }
    if op in AllOutputs(below) {
      SpentUnderMeans(c, b.prev, op);
    }
  }
}

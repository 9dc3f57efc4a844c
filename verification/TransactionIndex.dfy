/**
 The transaction index: for each transaction the blocks that hold it and the inputs that
 spend it, over all stored branches (node/transactions/index.go, node/database/transactions.go).
 */
module TransactionIndex {
  import opened Structures
  import opened BlockTree
  import opened Blockchain
  import opened Ledger

  datatype SpentOutput = SpentOutput(outInd: int, txWhereUsed: Bytes, inInd: int, blockHash: Bytes)

  datatype TxInfo = TxInfo(tx: Transaction, spent: seq<SpentOutput>, blockHash: Bytes)

  ghost predicate Listed<V>(m: map<Bytes, seq<V>>, id: Bytes, v: V) {
    id in m && v in m[id]
  }

  ghost predicate HoldsId(txs: seq<Transaction>, id: Bytes) {
    exists k :: 0 <= k < |txs| && txs[k].id == id
  }

  ghost predicate SpendsOutput(txs: seq<Transaction>, op: Outpoint) {
    exists k :: 0 <= k < |txs| && op in Spends(txs[k])
  }

  /** The record describes one of the first n inputs of an ordinary transaction. */
  ghost predicate RecordsInput(tx: Transaction, n: int, hash: Bytes, id: Bytes, r: SpentOutput) {
    && !tx.IsCoinbase() && r.blockHash == hash && r.txWhereUsed == tx.id
    && 0 <= r.inInd < n <= |tx.vin| && Ref(tx.vin[r.inInd]) == Outpoint(id, r.outInd)
  }

  ghost predicate RecordsSpend(txs: seq<Transaction>, hash: Bytes, id: Bytes, r: SpentOutput) {
    exists k :: 0 <= k < |txs| && RecordsInput(txs[k], |txs[k].vin|, hash, id, r)
  }

  /** The index lists exactly the stored blocks of each transaction and exactly the spends made in stored blocks. */
  ghost predicate IndexExact(t: Tree, links: map<Bytes, seq<Bytes>>, spent: map<Bytes, seq<SpentOutput>>) {
    && (forall id, h :: Listed(links, id, h) <==> h in t.blocks && HoldsId(t.blocks[h].txs, id))
    && (forall id, r :: Listed(spent, id, r) <==>
          r.blockHash in t.blocks && RecordsSpend(t.blocks[r.blockHash].txs, r.blockHash, id, r))
  }

  /** What a block adds to the index. */
  ghost predicate IndexAdds(links: map<Bytes, seq<Bytes>>, spent: map<Bytes, seq<SpentOutput>>, b: Block,
                            links': map<Bytes, seq<Bytes>>, spent': map<Bytes, seq<SpentOutput>>) {
    && (forall id, h :: Listed(links', id, h) <==> Listed(links, id, h) || (h == b.hash && HoldsId(b.txs, id)))
    && (forall id, r :: Listed(spent', id, r) <==> Listed(spent, id, r) || RecordsSpend(b.txs, b.hash, id, r))
  }

  lemma AddKeepsExact(t: Tree, b: Block, links: map<Bytes, seq<Bytes>>, spent: map<Bytes, seq<SpentOutput>>,
                      links': map<Bytes, seq<Bytes>>, spent': map<Bytes, seq<SpentOutput>>)
    requires IndexExact(t, links, spent) && b.hash !in t.blocks && IndexAdds(links, spent, b, links', spent')
    ensures IndexExact(t.Add(b), links', spent')
  {
  }

  /** What taking a block out leaves of the index: spends go by the output they name, whoever made them. */
  ghost predicate IndexRemoves(links: map<Bytes, seq<Bytes>>, spent: map<Bytes, seq<SpentOutput>>, b: Block,
                               links': map<Bytes, seq<Bytes>>, spent': map<Bytes, seq<SpentOutput>>) {
    && (forall id, h :: Listed(links', id, h) <==> Listed(links, id, h) && !(h == b.hash && HoldsId(b.txs, id)))
    && (forall id, r :: Listed(spent', id, r) <==> Listed(spent, id, r) && !SpendsOutput(b.txs, Outpoint(id, r.outInd)))
  }

  /** Another stored block spends an output that block h spends. */
  ghost predicate SharesSpend(t: Tree, h: Bytes)
    requires h in t.blocks
  {
    exists g, op :: g in t.blocks && g != h && SpendsOutput(t.blocks[g].txs, op) && SpendsOutput(t.blocks[h].txs, op)
  }

  lemma SpendHasRecord(txs: seq<Transaction>, hash: Bytes, op: Outpoint)
    ensures SpendsOutput(txs, op) <==> exists r :: RecordsSpend(txs, hash, op.txid, r) && r.outInd == op.index
  {
    if SpendsOutput(txs, op) {
      var k :| 0 <= k < |txs| && op in Spends(txs[k]);
      var i :| i in txs[k].vin && Ref(i) == op;
      var x :| 0 <= x < |txs[k].vin| && txs[k].vin[x] == i;
      var r := SpentOutput(op.index, txs[k].id, x, hash);
      assert RecordsInput(txs[k], |txs[k].vin|, hash, op.txid, r);
      assert RecordsSpend(txs, hash, op.txid, r);
    }
    forall r | RecordsSpend(txs, hash, op.txid, r) && r.outInd == op.index ensures SpendsOutput(txs, op) {
      var k :| 0 <= k < |txs| && RecordsInput(txs[k], |txs[k].vin|, hash, op.txid, r);
      assert txs[k].vin[r.inInd] in txs[k].vin;
      assert op in Spends(txs[k]);
    }
  }

  lemma SharedSpendLost(t: Tree, h: Bytes, links: map<Bytes, seq<Bytes>>, spent: map<Bytes, seq<SpentOutput>>,
                        links': map<Bytes, seq<Bytes>>, spent': map<Bytes, seq<SpentOutput>>)
    requires t.Valid() && h in t.blocks && IndexExact(t, links, spent) && SharesSpend(t, h)
    requires IndexRemoves(links, spent, t.blocks[h], links', spent')
    ensures !IndexExact(t.Remove(h), links', spent')
  {
    var g, op :| g in t.blocks && g != h && SpendsOutput(t.blocks[g].txs, op) && SpendsOutput(t.blocks[h].txs, op);
    SpendHasRecord(t.blocks[g].txs, g, op);
    var r :| RecordsSpend(t.blocks[g].txs, g, op.txid, r) && r.outInd == op.index;
    assert r.blockHash == g;
    assert !Listed(spent', op.txid, r);
  }

  lemma UnsharedSpendKept(t: Tree, h: Bytes, spent: map<Bytes, seq<SpentOutput>>, id: Bytes, r: SpentOutput)
    requires h in t.blocks && !SharesSpend(t, h) && Listed(spent, id, r)
    requires r.blockHash in t.blocks && RecordsSpend(t.blocks[r.blockHash].txs, r.blockHash, id, r)
    ensures SpendsOutput(t.blocks[h].txs, Outpoint(id, r.outInd)) <==> r.blockHash == h
  {
    SpendHasRecord(t.blocks[r.blockHash].txs, r.blockHash, Outpoint(id, r.outInd));
  }

  /** Removing a block undoes adding it exactly when no other stored block spends an output it spends. */
  lemma RemoveKeepsExact(t: Tree, h: Bytes, links: map<Bytes, seq<Bytes>>, spent: map<Bytes, seq<SpentOutput>>,
                         links': map<Bytes, seq<Bytes>>, spent': map<Bytes, seq<SpentOutput>>)
    requires t.Valid() && h in t.blocks && IndexExact(t, links, spent)
    requires IndexRemoves(links, spent, t.blocks[h], links', spent')
    ensures IndexExact(t.Remove(h), links', spent') <==> !SharesSpend(t, h)
  {
    var u := t.Remove(h);
    assert t.Link(h);
    if SharesSpend(t, h) {
      SharedSpendLost(t, h, links, spent, links', spent');
    } else {
      forall id, r
        ensures Listed(spent', id, r) <==> r.blockHash in u.blocks && RecordsSpend(u.blocks[r.blockHash].txs, r.blockHash, id, r)
      {
        if Listed(spent, id, r) {
          UnsharedSpendKept(t, h, spent, id, r);
        }
      }
    }
  }

  /** The block counts as lying between bottom and the tip. */
  ghost predicate InTipRange(c: Chain, hash: Bytes, bottom: Bytes, tip: Bytes)
    requires c.Valid() && hash in c.tree.blocks && bottom in c.tree.blocks && tip in c.tree.blocks
  {
    OnSegment(c.tree, hash, bottom, tip) || Stray(c, hash, bottom, tip)
  }

  /** Some stored block counted between bottom and the tip spends the output. */
  ghost predicate SpentUnder(c: Chain, op: Outpoint, bottom: Bytes, tip: Bytes)
    requires c.Valid() && bottom in c.tree.blocks && tip in c.tree.blocks
  {
    exists h :: h in c.tree.blocks && SpendsOutput(c.tree.blocks[h].txs, op) && InTipRange(c, h, bottom, tip)
  }

  /** A block of the path of tip holds the transaction. */
  ghost predicate HeldUnder(t: Tree, id: Bytes, tip: Bytes)
    requires t.Valid() && tip in t.blocks
  {
    exists h :: h in t.Path(tip) && HoldsId(t.blocks[h].txs, id)
  }

  class TransactionsDB {
    var blockHashes: map<Bytes, seq<Bytes>>
    var spentOutputs: map<Bytes, seq<SpentOutput>>

    constructor ()
      ensures blockHashes == map[] && spentOutputs == map[]
    {
      blockHashes, spentOutputs := map[], map[];
    }

    method GetBlockHashForTX(id: Bytes) returns (r: Option<seq<Bytes>>)
      ensures r == if id in blockHashes then Some(blockHashes[id]) else None
    {
      r := if id in blockHashes then Some(blockHashes[id]) else None;
    }

    method GetTXSpentOutputs(id: Bytes) returns (r: Option<seq<SpentOutput>>)
      ensures r == if id in spentOutputs then Some(spentOutputs[id]) else None
    {
      r := if id in spentOutputs then Some(spentOutputs[id]) else None;
    }

    method PutTXToBlockLink(id: Bytes, hashes: seq<Bytes>)
      modifies this`blockHashes
      ensures blockHashes == old(blockHashes)[id := hashes]
    {
      blockHashes := blockHashes[id := hashes];
    }

    method DeleteTXToBlockLink(id: Bytes)
      modifies this`blockHashes
      ensures blockHashes == old(blockHashes) - {id}
    {
      blockHashes := blockHashes - {id};
    }

    method PutTXSpentOutputs(id: Bytes, outs: seq<SpentOutput>)
      modifies this`spentOutputs
      ensures spentOutputs == old(spentOutputs)[id := outs]
    {
      spentOutputs := spentOutputs[id := outs];
    }

    method DeleteTXSpentData(id: Bytes)
      modifies this`spentOutputs
      ensures spentOutputs == old(spentOutputs) - {id}
    {
      spentOutputs := spentOutputs - {id};
    }
  }

  class TransactionsIndex {
    const txdb: TransactionsDB
    const bcMan: BlockchainManager

    constructor (txdb: TransactionsDB, bcMan: BlockchainManager)
      ensures this.txdb == txdb && this.bcMan == bcMan
    {
      this.txdb := txdb;
      this.bcMan := bcMan;
    }

    ghost predicate Exact()
      reads txdb, bcMan.db
    {
      IndexExact(bcMan.db.Stored(), txdb.blockHashes, txdb.spentOutputs)
    }

    /** Records the transactions of a block and the outputs they spend. */
    method BlockAdded(block: Block)
      modifies txdb
      ensures IndexAdds(old(txdb.blockHashes), old(txdb.spentOutputs), block, txdb.blockHashes, txdb.spentOutputs)
    {
      for i := 0 to |block.txs|
        invariant LinksAdded(old(txdb.blockHashes), txdb.blockHashes, block.txs[..i], block.hash)
        invariant SpendsAdded(old(txdb.spentOutputs), txdb.spentOutputs, block.txs[..i], block.hash)
      {
        var tx := block.txs[i];
        ghost var links, spent := txdb.blockHashes, txdb.spentOutputs;
        var blocksHashes := txdb.GetBlockHashForTX(tx.id);
        var hashes: seq<Bytes> := [];
        if blocksHashes.Some? {
          hashes := blocksHashes.value;
        }
        hashes := hashes + [block.hash];
        txdb.PutTXToBlockLink(tx.id, hashes);
        LinksStep(old(txdb.blockHashes), links, txdb.blockHashes, block.txs, i, block.hash);
        if !tx.IsCoinbase() {
          AddSpends(tx, block.hash);
        }
        SpendsStep(old(txdb.spentOutputs), spent, txdb.spentOutputs, block.txs, i, block.hash);
      }
      assert block.txs[..|block.txs|] == block.txs;
    }

    /** The inner loop of BlockAdded: one record for each input. */
    method AddSpends(tx: Transaction, hash: Bytes)
      requires !tx.IsCoinbase()
      modifies txdb`spentOutputs
      ensures forall id, r :: Listed(txdb.spentOutputs, id, r) <==>
                old(Listed(txdb.spentOutputs, id, r)) || RecordsInput(tx, |tx.vin|, hash, id, r)
    {
      for x := 0 to |tx.vin|
        invariant forall id, r :: Listed(txdb.spentOutputs, id, r) <==>
                    old(Listed(txdb.spentOutputs, id, r)) || RecordsInput(tx, x, hash, id, r)
      {
        ghost var before := txdb.spentOutputs;
        var vin := tx.vin[x];
        var to := txdb.GetTXSpentOutputs(vin.txid);
        var outs: seq<SpentOutput> := [];
        if to.Some? {
          outs := to.value;
        }
        var record := SpentOutput(vin.vout, tx.id, x, hash);
        outs := outs + [record];
        txdb.PutTXSpentOutputs(vin.txid, outs);
        assert forall id, r :: Listed(txdb.spentOutputs, id, r) <==> Listed(before, id, r) || (id == vin.txid && r == record);
        forall id, r ensures RecordsInput(tx, x + 1, hash, id, r) <==>
                             RecordsInput(tx, x, hash, id, r) || (id == vin.txid && r == record)
        {
          if RecordsInput(tx, x + 1, hash, id, r) && r.inInd == x {
            assert Ref(tx.vin[x]) == Outpoint(id, r.outInd);
          }
        }
      }
    }

    /** Takes a block out of the index; spends are matched by the output they name only. */
    method BlockRemoved(block: Block)
      modifies txdb
      ensures IndexRemoves(old(txdb.blockHashes), old(txdb.spentOutputs), block, txdb.blockHashes, txdb.spentOutputs)
    {
      for i := 0 to |block.txs|
        invariant forall id, h :: Listed(txdb.blockHashes, id, h) <==>
                    old(Listed(txdb.blockHashes, id, h)) && !(h == block.hash && HoldsId(block.txs[..i], id))
        invariant forall id, r :: Listed(txdb.spentOutputs, id, r) <==>
                    old(Listed(txdb.spentOutputs, id, r)) && !SpendsOutput(block.txs[..i], Outpoint(id, r.outInd))
      {
        var tx := block.txs[i];
        PrefixStep(block.txs, i, block.hash);
        ghost var before := txdb.blockHashes;
        var blocksHashes := txdb.GetBlockHashForTX(tx.id);
        var hashes: seq<Bytes> := [];
        if blocksHashes.Some? {
          hashes := blocksHashes.value;
        }
        var newHashes: seq<Bytes> := [];
        for k := 0 to |hashes|
          invariant forall h :: h in newHashes <==> h in hashes[..k] && h != block.hash
        {
          if hashes[k] != block.hash {
            newHashes := newHashes + [hashes[k]];
          }
        }
        assert hashes[..|hashes|] == hashes;
        if |newHashes| > 0 {
          txdb.PutTXToBlockLink(tx.id, newHashes);
        } else {
          txdb.DeleteTXToBlockLink(tx.id);
        }
        assert forall id, h :: Listed(txdb.blockHashes, id, h) <==> Listed(before, id, h) && !(h == block.hash && id == tx.id);
        if !tx.IsCoinbase() {
          RemoveSpends(tx);
        }
      }
      assert block.txs[..|block.txs|] == block.txs;
    }

    /** The inner loop of BlockRemoved. */
    method RemoveSpends(tx: Transaction)
      requires !tx.IsCoinbase()
      modifies txdb`spentOutputs
      ensures forall id, r :: Listed(txdb.spentOutputs, id, r) <==>
                old(Listed(txdb.spentOutputs, id, r)) && Outpoint(id, r.outInd) !in Spends(tx)
    {
      for x := 0 to |tx.vin|
        invariant forall id, r :: Listed(txdb.spentOutputs, id, r) <==>
                    old(Listed(txdb.spentOutputs, id, r)) && forall y :: 0 <= y < x ==> Ref(tx.vin[y]) != Outpoint(id, r.outInd)
      {
        var vin := tx.vin[x];
        var to := txdb.GetTXSpentOutputs(vin.txid);
        if to.Some? {
          var outs := to.value;
          var newOutputs: seq<SpentOutput> := [];
          for k := 0 to |outs|
            invariant forall r :: r in newOutputs <==> r in outs[..k] && r.outInd != vin.vout
          {
            if outs[k].outInd != vin.vout {
              newOutputs := newOutputs + [outs[k]];
            }
          }
          assert outs[..|outs|] == outs;
          if |newOutputs| > 0 {
            txdb.PutTXSpentOutputs(vin.txid, newOutputs);
          } else {
            txdb.DeleteTXSpentData(vin.txid);
          }
        }
      }
      forall id, r: SpentOutput
        ensures Outpoint(id, r.outInd) in Spends(tx) <==> exists y :: 0 <= y < |tx.vin| && Ref(tx.vin[y]) == Outpoint(id, r.outInd)
      {
        if y :| 0 <= y < |tx.vin| && Ref(tx.vin[y]) == Outpoint(id, r.outInd) {
          assert tx.vin[y] in tx.vin;
        }
      }
    }

    method GetTranactionBlocks(id: Bytes) returns (r: seq<Bytes>)
      ensures r == if id in txdb.blockHashes then txdb.blockHashes[id] else []
    {
      var hashes := txdb.GetBlockHashForTX(id);
      if hashes.None? {
        return [];
      }
      return hashes.value;
    }

    /** The recorded spends of a transaction that count between its block and the tip. */
    method GetTranactionOutputsSpent(id: Bytes, blockHash: Bytes, tip: Bytes) returns (r: Result<seq<SpentOutput>>)
      requires bcMan.db.Valid() && Exact()
      requires |tip| == 0 || tip in bcMan.db.blocks
      requires blockHash in bcMan.db.Stored().Path(if |tip| == 0 then bcMan.db.topHash else tip)
      ensures r.Ok?
      ensures forall k :: (exists o :: o in r.value && o.outInd == k) <==>
                SpentUnder(bcMan.State(), Outpoint(id, k), blockHash, if |tip| == 0 then bcMan.db.topHash else tip)
    {
      ghost var c, t := bcMan.State(), if |tip| == 0 then bcMan.db.topHash else tip;
      var to := txdb.GetTXSpentOutputs(id);
      var outs: seq<SpentOutput> := [];
      if to.Some? {
        outs := to.value;
      }
      RecordsStored(c, txdb.blockHashes, txdb.spentOutputs, id, outs);
      var res := FilterTranactionOutputsSpent(outs, blockHash, tip);
      forall k ensures (exists o :: o in res && o.outInd == k) <==> SpentUnder(c, Outpoint(id, k), blockHash, t) {
        RecordsDecide(c, txdb.blockHashes, txdb.spentOutputs, id, k, blockHash, t, outs, res);
      }
      return Ok(res);
    }

    /** Keeps the records whose block counts between the given block and the tip. */
    method FilterTranactionOutputsSpent(outs: seq<SpentOutput>, blockHash: Bytes, tip: Bytes) returns (res: seq<SpentOutput>)
      requires bcMan.db.Valid()
      requires |tip| == 0 || tip in bcMan.db.blocks
      requires blockHash in bcMan.db.Stored().Path(if |tip| == 0 then bcMan.db.topHash else tip)
      requires forall o :: o in outs ==> o.blockHash in bcMan.db.blocks
      ensures forall o :: o in res <==> o in outs && InTipRange(bcMan.State(), o.blockHash, blockHash, if |tip| == 0 then bcMan.db.topHash else tip)
    {
      ghost var c, t := bcMan.State(), if |tip| == 0 then bcMan.db.topHash else tip;
      res := [];
      for i := 0 to |outs|
        invariant forall o :: o in res <==> o in outs[..i] && InTipRange(c, o.blockHash, blockHash, t)
      {
        assert outs[i] in outs;
        var present := bcMan.CheckBlockIsInRange(outs[i].blockHash, blockHash, tip);
        if present.value {
          res := res + [outs[i]];
        }
      }
      assert outs[..|outs|] == outs;
    }

    /** The transaction, its counted spends and its block, as seen from a tip; None when it is not under the tip. */
    method GetTransactionAllInfo(id: Bytes, tip: Bytes) returns (r: Result<Option<TxInfo>>)
      requires bcMan.db.Valid() && Exact()
      requires |tip| == 0 || tip in bcMan.db.blocks
      ensures r.Ok?
      ensures var c, t := bcMan.State(), if |tip| == 0 then bcMan.db.topHash else tip;
              && (r.value.Some? <==> HeldUnder(c.tree, id, t))
              && (r.value.Some? ==>
                    var info := r.value.value;
                    && info.blockHash in c.tree.Path(t) && info.tx in c.tree.blocks[info.blockHash].txs && info.tx.id == id
                    && forall k :: (exists o :: o in info.spent && o.outInd == k) <==>
                         SpentUnder(c, Outpoint(id, k), info.blockHash, t))
    {
      ghost var t := bcMan.db.Stored();
      var blockHashes := GetTranactionBlocks(id);
      forall h | h in blockHashes ensures h != [] && h in t.blocks && HoldsId(t.blocks[h].txs, id) {
        assert Listed(txdb.blockHashes, id, h);
        assert t.Link(h);
      }
      var blockHash := bcMan.ChooseHashUnderTip(blockHashes, tip);
      if blockHash.value.None? {
        forall h | h in t.Path(if |tip| == 0 then bcMan.db.topHash else tip) ensures !HoldsId(t.blocks[h].txs, id) {
          assert h !in blockHashes && !Listed(txdb.blockHashes, id, h);
        }
        return Ok(None);
      }
      var spentOuts := GetTranactionOutputsSpent(id, blockHash.value.value, tip);
      var tx := bcMan.GetTransactionFromBlock(id, blockHash.value.value);
      return Ok(Some(TxInfo(tx.value, spentOuts.value, blockHash.value.value)));
    }
  }

  ghost predicate LinksAdded(links: map<Bytes, seq<Bytes>>, links': map<Bytes, seq<Bytes>>, txs: seq<Transaction>, hash: Bytes) {
    forall id, h :: Listed(links', id, h) <==> Listed(links, id, h) || (h == hash && HoldsId(txs, id))
  }

  ghost predicate SpendsAdded(spent: map<Bytes, seq<SpentOutput>>, spent': map<Bytes, seq<SpentOutput>>, txs: seq<Transaction>, hash: Bytes) {
    forall id, r :: Listed(spent', id, r) <==> Listed(spent, id, r) || RecordsSpend(txs, hash, id, r)
  }

  lemma LinksStep(links: map<Bytes, seq<Bytes>>, a: map<Bytes, seq<Bytes>>, b: map<Bytes, seq<Bytes>>, txs: seq<Transaction>, i: nat, hash: Bytes)
    requires i < |txs| && LinksAdded(links, a, txs[..i], hash)
    requires b == a[txs[i].id := (if txs[i].id in a then a[txs[i].id] else []) + [hash]]
    ensures LinksAdded(links, b, txs[..i + 1], hash)
  {
    PrefixStep(txs, i, hash);
    assert forall id, h :: Listed(b, id, h) <==> Listed(a, id, h) || (id == txs[i].id && h == hash);
  }

  lemma SpendsStep(spent: map<Bytes, seq<SpentOutput>>, a: map<Bytes, seq<SpentOutput>>, b: map<Bytes, seq<SpentOutput>>,
                   txs: seq<Transaction>, i: nat, hash: Bytes)
    requires i < |txs| && SpendsAdded(spent, a, txs[..i], hash)
    requires forall id, r :: Listed(b, id, r) <==> Listed(a, id, r) || RecordsInput(txs[i], |txs[i].vin|, hash, id, r)
    ensures SpendsAdded(spent, b, txs[..i + 1], hash)
  {
    PrefixStep(txs, i, hash);
  }

  lemma PrefixStep(txs: seq<Transaction>, i: nat, hash: Bytes)
    requires i < |txs|
    ensures forall id :: HoldsId(txs[..i + 1], id) <==> HoldsId(txs[..i], id) || txs[i].id == id
    ensures forall op :: SpendsOutput(txs[..i + 1], op) <==> SpendsOutput(txs[..i], op) || op in Spends(txs[i])
    ensures forall id, r :: RecordsSpend(txs[..i + 1], hash, id, r) <==>
              RecordsSpend(txs[..i], hash, id, r) || RecordsInput(txs[i], |txs[i].vin|, hash, id, r)
  {
    var a, b := txs[..i], txs[..i + 1];
    assert b == a + [txs[i]];
    forall id ensures HoldsId(b, id) <==> HoldsId(a, id) || txs[i].id == id {
      assert b[i].id == id || !(b[i].id == id);
      if k :| 0 <= k < |a| && a[k].id == id { assert b[k].id == id; }
    }
    forall op ensures SpendsOutput(b, op) <==> SpendsOutput(a, op) || op in Spends(txs[i]) {
      assert op in Spends(b[i]) || !(op in Spends(b[i]));
      if k :| 0 <= k < |a| && op in Spends(a[k]) { assert op in Spends(b[k]); }
    }
    forall id, r
      ensures RecordsSpend(b, hash, id, r) <==>
              RecordsSpend(a, hash, id, r) || RecordsInput(txs[i], |txs[i].vin|, hash, id, r)
    {
      assert RecordsInput(b[i], |b[i].vin|, hash, id, r) <==> RecordsInput(txs[i], |txs[i].vin|, hash, id, r);
      if k :| 0 <= k < |a| && RecordsInput(a[k], |a[k].vin|, hash, id, r) {
        assert RecordsInput(b[k], |b[k].vin|, hash, id, r);
      }
    }
  }

  lemma RecordsStored(c: Chain, links: map<Bytes, seq<Bytes>>, spent: map<Bytes, seq<SpentOutput>>, id: Bytes, outs: seq<SpentOutput>)
    requires IndexExact(c.tree, links, spent) && outs == if id in spent then spent[id] else []
    ensures forall o :: o in outs ==> o.blockHash in c.tree.blocks
  {
    forall o | o in outs ensures o.blockHash in c.tree.blocks {
      assert Listed(spent, id, o);
    }
  }

  lemma RecordsDecide(c: Chain, links: map<Bytes, seq<Bytes>>, spent: map<Bytes, seq<SpentOutput>>,
                      id: Bytes, k: int, bottom: Bytes, tip: Bytes, outs: seq<SpentOutput>, res: seq<SpentOutput>)
    requires c.Valid() && IndexExact(c.tree, links, spent) && bottom in c.tree.blocks && tip in c.tree.blocks
    requires outs == if id in spent then spent[id] else []
    requires forall o :: o in outs ==> o.blockHash in c.tree.blocks
    requires forall o :: o in res <==> o in outs && InTipRange(c, o.blockHash, bottom, tip)
    ensures (exists o :: o in res && o.outInd == k) <==> SpentUnder(c, Outpoint(id, k), bottom, tip)
  {
    var op := Outpoint(id, k);
    if o :| o in res && o.outInd == k {
      assert Listed(spent, id, o);
      SpendHasRecord(c.tree.blocks[o.blockHash].txs, o.blockHash, op);
    }
    if SpentUnder(c, op, bottom, tip) {
      var h :| h in c.tree.blocks && SpendsOutput(c.tree.blocks[h].txs, op) && InTipRange(c, h, bottom, tip);
      SpendHasRecord(c.tree.blocks[h].txs, h, op);
      var r :| RecordsSpend(c.tree.blocks[h].txs, h, id, r) && r.outInd == k;
      assert r.blockHash == h;
      assert Listed(spent, id, r) && r in res;
    }
  }
}

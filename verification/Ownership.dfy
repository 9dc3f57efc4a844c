/**
 What holds of every transaction a node has stored, in plain terms: outputs are spent by their
 owners, rewards are ten coins, and no output is smaller than one smallest unit; and exactly
 which transactions a node lets into its pool.
 */
module Ownership {
  import opened Structures
  import opened Blockchain
  import opened Ledger
  import opened Soundness
  import opened Pool
  import opened QuickCheck
  import opened Acceptance
  import opened Validity
  import opened Balance
  import opened Reception
  import opened NodeRuns

  lemma ProperAtEntry(crypto: Crypto, es: seq<Entry>, j: nat)
    requires Proper(crypto, es) && j < |es|
    ensures Sound(es) && Sound(es[..j]) && FairNext(crypto, es[..j], es[j].tx)
  {
    ProperIsSound(crypto, es);
    ProperPrefix(crypto, es, j);
    ProperPrefix(crypto, es, j + 1);
    ProperIsSound(crypto, es[..j]);
    assert es[..j + 1][..j] == es[..j] && es[..j + 1][j] == es[j];
  }

  /** On a proper chain an input names an earlier output, shows the key that hashes to its owner, and is signed by that. */
  lemma SpentByOwner(crypto: Crypto, es: seq<Entry>, i: int, j: nat, x: int)
    requires Proper(crypto, es) && IsInput(es, j, x) && CreatedAt(es, i, RefAt(es, j, x))
    ensures var vin := es[j].tx.vin[x];
            && i < j && 0 <= vin.vout < |es[i].tx.vout|
            && crypto.hashPubKey(vin.pubKey) == es[i].tx.vout[vin.vout].pubKeyHash
            && crypto.signatureValid(es[j].tx, x, es[i].tx.vout[vin.vout].pubKeyHash)
  {
    var tx, op := es[j].tx, RefAt(es, j, x);
    ProperAtEntry(crypto, es, j);
    InputWasUnspent(es, j, x);
    assert tx.vin[x] in tx.vin && SpentAt(es, j, op);
    SpentAfterCreated(es, i, j, op);
    CoinOfCreated(es, i, j, op);
    assert tx.vin[x] == tx.vin[x];
  }

  lemma CoinOfCreated(es: seq<Entry>, i: int, j: nat, op: Outpoint)
    requires j < |es| && Sound(es) && Sound(es[..j]) && CreatedAt(es, i, op) && i < j && op in Unspent(es[..j])
    ensures Unspent(es[..j])[op] == CoinOf(es[i], op.index)
  {
    UnspentMeaning(es[..j], op);
    var k :| KeptFrom(es[..j], k, op);
    assert es[k].tx.id == es[i].tx.id;
  }

  /** A reward pays ten coins in one output, and an ordinary transaction no output below one smallest unit. */
  lemma PaysEnough(crypto: Crypto, es: seq<Entry>, j: nat)
    requires Proper(crypto, es) && j < |es|
    ensures es[j].tx.IsCoinbase() ==> |es[j].tx.vout| == 1 && es[j].tx.vout[0].value == 10.0
    ensures !es[j].tx.IsCoinbase() ==> forall k :: 0 <= k < |es[j].tx.vout| ==> es[j].tx.vout[k].value >= 0.00000001
  {
    ProperAtEntry(crypto, es, j);
  }

  lemma StoredIsProper(crypto: Crypto, s: NodeState, evs: seq<Event>, h: Bytes)
    requires NodeInv(crypto, s) && RunFit(crypto, s, evs)
    ensures After(crypto, s, evs).chain.Valid()
    ensures h in After(crypto, s, evs).chain.tree.blocks ==> Proper(crypto, Entries(After(crypto, s, evs).chain.tree, h))
  {
    RunKeepsInv(crypto, s, evs);
    var t := After(crypto, s, evs).chain.tree;
    assert h in t.blocks ==> ProperAt(crypto, t, h);
  }

  /** After any run, on the path to any stored block, every output that is spent is spent by its owner. */
  lemma RunSpentByOwner(crypto: Crypto, s: NodeState, evs: seq<Event>, h: Bytes, i: int, j: nat, x: int)
    requires NodeInv(crypto, s) && RunFit(crypto, s, evs)
    ensures After(crypto, s, evs).chain.Valid()
    ensures h in After(crypto, s, evs).chain.tree.blocks ==>
              var es := Entries(After(crypto, s, evs).chain.tree, h);
              IsInput(es, j, x) && CreatedAt(es, i, RefAt(es, j, x)) ==>
                var vin := es[j].tx.vin[x];
                && i < j && 0 <= vin.vout < |es[i].tx.vout|
                && crypto.hashPubKey(vin.pubKey) == es[i].tx.vout[vin.vout].pubKeyHash
                && crypto.signatureValid(es[j].tx, x, es[i].tx.vout[vin.vout].pubKeyHash)
  {
    StoredIsProper(crypto, s, evs, h);
    if h in After(crypto, s, evs).chain.tree.blocks {
      var es := Entries(After(crypto, s, evs).chain.tree, h);
      if IsInput(es, j, x) && CreatedAt(es, i, RefAt(es, j, x)) {
        SpentByOwner(crypto, es, i, j, x);
      }
    }
  }

  /** After any run every reward on a stored path is ten coins in one output, and no other output is below one smallest unit. */
  lemma RunPaysEnough(crypto: Crypto, s: NodeState, evs: seq<Event>, h: Bytes, j: nat)
    requires NodeInv(crypto, s) && RunFit(crypto, s, evs)
    ensures After(crypto, s, evs).chain.Valid()
    ensures h in After(crypto, s, evs).chain.tree.blocks ==>
              var es := Entries(After(crypto, s, evs).chain.tree, h);
              j < |es| ==>
                && (es[j].tx.IsCoinbase() ==> |es[j].tx.vout| == 1 && es[j].tx.vout[0].value == 10.0)
                && (!es[j].tx.IsCoinbase() ==> forall k :: 0 <= k < |es[j].tx.vout| ==> es[j].tx.vout[k].value >= 0.00000001)
  {
    StoredIsProper(crypto, s, evs, h);
    if h in After(crypto, s, evs).chain.tree.blocks && j < |Entries(After(crypto, s, evs).chain.tree, h)| {
      PaysEnough(crypto, Entries(After(crypto, s, evs).chain.tree, h), j);
    }
  }

  // ----- The pool

  /**
   What an arriving ordinary transaction does to a node: it joins the pool exactly when it names
   no output a pool transaction names, its inputs are unspent outputs of the cache and the pool,
   those of the pool named once, and it is fair by them; otherwise nothing changes.
   */
  lemma NodeReceives(crypto: Crypto, s: NodeState, txs: seq<Transaction>, tx: Transaction)
    requires NodeInv(crypto, s) && PoolListing(s.pool, txs) && !tx.IsCoinbase()
    ensures var v := AfterPool(s.utxo, txs);
            StepTx(crypto, s, tx) ==
            if !ConflictsWith(s.pool, tx) && AllIn(v, tx.vin) && PooledOnce(s.utxo, tx.vin) && FairOn(crypto, v, tx)
            then s.(pool := s.pool[tx.id := tx]) else s
  {
    var t, top := s.chain.tree, s.chain.top;
    assert ProperAt(crypto, t, top);
    ProperIsSound(crypto, Entries(t, top));
    if !ConflictsWith(s.pool, tx) {
      ReceivedIff(crypto, t, top, s.utxo, s.pool, txs, tx);
    }
  }
}

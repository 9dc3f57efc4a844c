/**
 Exactly which transactions and blocks the node accepts: the valid ones, unless a block of
 another branch is mistaken for one of theirs (node/transactions/manager.go:186-209 and
 538-619, node/consensus/manager.go:252-313).
 */
module Validity {
  import opened Structures
  import opened BlockTree
  import opened Blockchain
  import opened Ledger
  import opened Soundness
  import opened Cancellation
  import opened TransactionRules
  import opened Pool
  import opened Acceptance
  import opened QuickCheck

  /** The input names a transaction of the path of tip, and a stray block counts as spending its output. */
  ghost predicate StrayInput(c: Chain, vin: TXInput, tip: Bytes)
    requires c.Valid() && tip in c.tree.blocks
  {
    var e := Resolve(c.tree, vin.txid, tip);
    e.Some? && e.value.block in c.tree.blocks && StraySpend(c, Ref(vin), e.value.block, tip)
  }

  ghost predicate NoStrayInputs(c: Chain, tx: Transaction, tip: Bytes)
    requires c.Valid() && tip in c.tree.blocks
  {
    forall x {:trigger tx.vin[x]} :: 0 <= x < |tx.vin| ==> !StrayInput(c, tx.vin[x], tip)
  }

  // ----- One input

  /** An input made on the path passes the lookup if and only if it is spendable there and no stray block spends it. */
  lemma InputFreeIff(c: Chain, vin: TXInput, tip: Bytes, i: int)
    requires c.Valid() && tip in c.tree.blocks && Sound(Entries(c.tree, tip)) && CreatedAt(Entries(c.tree, tip), i, Ref(vin))
    ensures InputFree(c, vin, tip) <==> Spendable(Entries(c.tree, tip), Ref(vin)) && !StrayInput(c, vin, tip)
  {
    var es := Entries(c.tree, tip);
    assert es[i] in es;
    ResolveUnique(c.tree, tip, es[i]);
    AllOutputsMeaning(es, Ref(vin));
    SpentUnderMeans(c, tip, Ref(vin));
    SpendableIsUnspent(es, Ref(vin));
  }

  /** The transaction found for a spendable input is the one that made it. */
  lemma SpendableFound(t: Tree, b: Block, k: nat, x: nat) returns (i: int)
    requires t.Valid() && b.prev in t.blocks && k < |b.txs| && x < |b.txs[k].vin|
    requires Sound(Entries(t, b.prev)) && UniqueIds(Before(t, b, k)) && Spendable(Before(t, b, k), Ref(b.txs[k].vin[x]))
    ensures CreatedAt(Before(t, b, k), i, Ref(b.txs[k].vin[x]))
    ensures PrevTX(t, b.txs[k].vin[x].txid, b.txs[..k], b.prev) == Some(Before(t, b, k)[i].tx)
    ensures i < |Entries(t, b.prev)| <==> Resolve(t, b.txs[k].vin[x].txid, b.prev).Some?
  {
    var es, below, op := Before(t, b, k), Entries(t, b.prev), Ref(b.txs[k].vin[x]);
    i :| CreatedAt(es, i, op);
    if i < |below| {
      assert below[i] == es[i] && below[i] in below;
      ResolveUnique(t, b.prev, below[i]);
    } else {
      MadeInBlock(t, b, k, i);
    }
  }

  lemma MadeInBlock(t: Tree, b: Block, k: nat, i: int)
    requires t.Valid() && b.prev in t.blocks && k <= |b.txs| && UniqueIds(Before(t, b, k))
    requires |Entries(t, b.prev)| <= i < |Before(t, b, k)|
    ensures Resolve(t, Before(t, b, k)[i].tx.id, b.prev).None?
    ensures FirstWithId(b.txs[..k], Before(t, b, k)[i].tx.id) == Some(Before(t, b, k)[i].tx)
  {
    var es, below := Before(t, b, k), Entries(t, b.prev);
    var m := i - |below|;
    assert es[i] == Tag(b)[m] && b.txs[..k][m] == es[i].tx;
    forall j | 0 <= j < |below| ensures below[j].tx.id != es[i].tx.id {
      assert below[j] == es[j];
    }
    forall j | 0 <= j < m ensures b.txs[..k][j].id != es[i].tx.id {
      assert es[|below| + j] == Tag(b)[j];
    }
    FirstIs(b.txs[..k], es[i].tx.id, m);
  }

  /** A spendable input is found with its real value and owner, and passes the lookup unless a stray block spends it. */
  lemma SpendablePasses(c: Chain, b: Block, k: nat, x: nat)
    requires c.Valid() && b.prev in c.tree.blocks && k < |b.txs| && x < |b.txs[k].vin|
    requires Sound(Entries(c.tree, b.prev)) && UniqueIds(Before(c.tree, b, k)) && Spendable(Before(c.tree, b, k), Ref(b.txs[k].vin[x]))
    ensures var es, vin, prev := Before(c.tree, b, k), b.txs[k].vin[x], PrevTXs(c.tree, b.txs[k], b.txs[..k], b.prev);
            && FoundReal(es, b.txs[k], prev, x)
            && (InputFree(c, vin, b.prev) <==> !StrayInput(c, vin, b.prev))
  {
    var es, below, vin := Before(c.tree, b, k), Entries(c.tree, b.prev), b.txs[k].vin[x];
    var i := SpendableFound(c.tree, b, k, x);
    MadeCoin(es, vin, i);
    if i < |below| {
      SpendableBelow(below, es, Ref(vin), i);
      InputFreeIff(c, vin, b.prev, i);
    }
  }

  lemma SpendableBelow(below: seq<Entry>, es: seq<Entry>, op: Outpoint, i: int)
    requires below <= es && Spendable(es, op) && CreatedAt(es, i, op) && i < |below|
    ensures CreatedAt(below, i, op) && Spendable(below, op)
  {
    assert CreatedAt(below, i, op);
    forall j ensures !SpentAt(below, j, op) {
      assert !SpentAt(es, j, op);
    }
  }

  /** An input that passes the lookup is not spent by a stray block. */
  lemma FreeIsNotStray(c: Chain, b: Block, k: nat, x: nat)
    requires c.Valid() && b.prev in c.tree.blocks && k < |b.txs| && x < |b.txs[k].vin|
    requires Sound(Entries(c.tree, b.prev)) && InputFree(c, b.txs[k].vin[x], b.prev)
    requires HasInput(b.txs[k], PrevTXs(c.tree, b.txs[k], b.txs[..k], b.prev), x)
    ensures !StrayInput(c, b.txs[k].vin[x], b.prev)
  {
    var below, vin := Entries(c.tree, b.prev), b.txs[k].vin[x];
    var e := Resolve(c.tree, vin.txid, b.prev);
    if e.Some? {
      var i :| 0 <= i < |below| && below[i] == e.value;
      InputFreeIff(c, vin, b.prev, i);
    }
  }

  // ----- One transaction

  /** A fair transaction whose inputs are all found verifies. */
  lemma FairVerifies(crypto: Crypto, es: seq<Entry>, tx: Transaction, prev: InputTXs)
    requires !tx.IsCoinbase() && FairNext(crypto, es, tx)
    requires forall x {:trigger FoundReal(es, tx, prev, x)} :: 0 <= x < |tx.vin| ==> FoundReal(es, tx, prev, x)
    ensures Verifies(crypto, tx, prev)
  {
    forall x | 0 <= x < |tx.vin| ensures HasInput(tx, prev, x) && SignedByOwner(crypto, tx, prev, x) {
      assert FoundReal(es, tx, prev, x) && tx.vin[x] == tx.vin[x];
    }
    TotalsAgree(es, tx, prev, |tx.vin|);
    assert tx.vin[..|tx.vin|] == tx.vin;
  }

  /** Every input of transaction k is spendable where the transaction stands. */
  ghost predicate AllSpendable(t: Tree, b: Block, k: nat)
    requires t.Valid() && b.prev in t.blocks && k < |b.txs|
  {
    forall x {:trigger b.txs[k].vin[x]} :: 0 <= x < |b.txs[k].vin| ==> Spendable(Before(t, b, k), Ref(b.txs[k].vin[x]))
  }

  /**
   On a sound path an ordinary transaction that names no output which an earlier one of its block
   spends is accepted if and only if its inputs are spendable, it is fair, no stray block counts
   as spending an input made on the path, and it names no output of its block twice.
   */
  lemma AcceptsIff(c: Chain, crypto: Crypto, b: Block, k: nat)
    requires c.Valid() && b.prev in c.tree.blocks && k < |b.txs| && !b.txs[k].IsCoinbase()
    requires Sound(Entries(c.tree, b.prev)) && UniqueIds(Before(c.tree, b, k)) && FirstToName(b.txs, k)
    ensures Accepts(c, crypto, b.txs[k], b.txs[..k], b.prev) <==>
            && AllSpendable(c.tree, b, k) && FairNext(crypto, Before(c.tree, b, k), b.txs[k])
            && NoStrayInputs(c, b.txs[k], b.prev) && PendingNamedOnce(c.tree, b.txs[k], b.prev)
  {
    if Accepts(c, crypto, b.txs[k], b.txs[..k], b.prev) {
      AcceptedSpendable(c, crypto, b, k);
      AcceptedFair(c, crypto, b, k);
      AcceptedNoStrays(c, crypto, b, k);
    }
    if AllSpendable(c.tree, b, k) && FairNext(crypto, Before(c.tree, b, k), b.txs[k])
       && NoStrayInputs(c, b.txs[k], b.prev) && PendingNamedOnce(c.tree, b.txs[k], b.prev)
    {
      ValidAccepted(c, crypto, b, k);
    }
  }

  lemma AcceptedNoStrays(c: Chain, crypto: Crypto, b: Block, k: nat)
    requires c.Valid() && b.prev in c.tree.blocks && k < |b.txs| && !b.txs[k].IsCoinbase()
    requires Sound(Entries(c.tree, b.prev)) && Accepts(c, crypto, b.txs[k], b.txs[..k], b.prev)
    ensures NoStrayInputs(c, b.txs[k], b.prev)
  {
    forall x {:trigger b.txs[k].vin[x]} | 0 <= x < |b.txs[k].vin| ensures !StrayInput(c, b.txs[k].vin[x], b.prev) {
      assert InputFree(c, b.txs[k].vin[x], b.prev);
      FreeIsNotStray(c, b, k, x);
    }
  }

  lemma ValidAccepted(c: Chain, crypto: Crypto, b: Block, k: nat)
    requires c.Valid() && b.prev in c.tree.blocks && k < |b.txs| && !b.txs[k].IsCoinbase()
    requires Sound(Entries(c.tree, b.prev)) && UniqueIds(Before(c.tree, b, k)) && PendingNamedOnce(c.tree, b.txs[k], b.prev)
    requires AllSpendable(c.tree, b, k) && FairNext(crypto, Before(c.tree, b, k), b.txs[k]) && NoStrayInputs(c, b.txs[k], b.prev)
    ensures Accepts(c, crypto, b.txs[k], b.txs[..k], b.prev)
  {
    var tx, es, prev := b.txs[k], Before(c.tree, b, k), PrevTXs(c.tree, b.txs[k], b.txs[..k], b.prev);
    forall x: int | 0 <= x < |tx.vin| ensures FoundReal(es, tx, prev, x) && InputFree(c, tx.vin[x], b.prev) {
      PassesAt(c, b, k, x);
    }
    FairVerifies(crypto, es, tx, prev);
  }

  lemma PassesAt(c: Chain, b: Block, k: nat, x: nat)
    requires c.Valid() && b.prev in c.tree.blocks && k < |b.txs| && x < |b.txs[k].vin|
    requires Sound(Entries(c.tree, b.prev)) && UniqueIds(Before(c.tree, b, k))
    requires AllSpendable(c.tree, b, k) && NoStrayInputs(c, b.txs[k], b.prev)
    ensures FoundReal(Before(c.tree, b, k), b.txs[k], PrevTXs(c.tree, b.txs[k], b.txs[..k], b.prev), x)
    ensures InputFree(c, b.txs[k].vin[x], b.prev)
  {
    SpendablePasses(c, b, k, x);
  }

  // ----- A whole block

  ghost predicate NoStrays(c: Chain, b: Block)
    requires c.Valid() && b.prev in c.tree.blocks
  {
    forall k {:trigger b.txs[k]} :: 0 <= k < |b.txs| && !b.txs[k].IsCoinbase() ==> NoStrayInputs(c, b.txs[k], b.prev)
  }

  /** The block continues its path properly, with one reward and an allowed number of transactions. */
  ghost predicate ProperBlock(t: Tree, crypto: Crypto, b: Block)
    requires t.Valid() && b.prev in t.blocks
  {
    && CountAllowed(b.height, |b.txs| - 1)
    && OneCoinbase(b.txs)
    && Proper(crypto, Entries(t, b.prev) + Tag(b))
  }

  /** On a sound chain the transactions of a block with one reward name no output twice. */
  lemma SoundIsDisjoint(es: seq<Entry>, b: Block)
    requires Sound(es + Tag(b)) && OneCoinbase(b.txs)
    ensures InputsDisjoint(b.txs)
  {
    var all, n := es + Tag(b), |es|;
    forall i, j, x, y | 0 <= i < |b.txs| && 0 <= j < |b.txs| && 0 <= x < |b.txs[i].vin| && 0 <= y < |b.txs[j].vin|
                        && Ref(b.txs[i].vin[x]) == Ref(b.txs[j].vin[y])
      ensures i == j && x == y
    {
      SameInput(es, b, i, x, j, y);
    }
  }

  lemma SameInput(es: seq<Entry>, b: Block, i: nat, x: nat, j: nat, y: nat)
    requires Sound(es + Tag(b)) && OneCoinbase(b.txs)
    requires i < |b.txs| && j < |b.txs| && x < |b.txs[i].vin| && y < |b.txs[j].vin| && Ref(b.txs[i].vin[x]) == Ref(b.txs[j].vin[y])
    ensures i == j && x == y
  {
    var all, n := es + Tag(b), |es|;
    assert all[n + i].tx == b.txs[i] && all[n + j].tx == b.txs[j];
    if !b.txs[i].IsCoinbase() {
      RealIndex(es, b, i, x);
    }
    if !b.txs[j].IsCoinbase() {
      RealIndex(es, b, j, y);
    }
    if !b.txs[i].IsCoinbase() && !b.txs[j].IsCoinbase() {
      assert IsInput(all, n + i, x) && IsInput(all, n + j, y) && RefAt(all, n + i, x) == RefAt(all, n + j, y);
    }
  }

  /** An input of an ordinary transaction of a sound chain names a real output, not the marker of a reward. */
  lemma RealIndex(es: seq<Entry>, b: Block, i: nat, x: nat)
    requires Sound(es + Tag(b)) && i < |b.txs| && x < |b.txs[i].vin| && !b.txs[i].IsCoinbase()
    ensures b.txs[i].vin[x].vout >= 0
  {
    var all, n := es + Tag(b), |es|;
    assert all[n + i].tx == b.txs[i] && IsInput(all, n + i, x);
    var m :| m < n + i && CreatedAt(all, m, RefAt(all, n + i, x));
  }

  /** An accepted block with identifying IDs continues a proper path properly if and only if it names no output twice. */
  lemma AcceptedProperIff(c: Chain, crypto: Crypto, b: Block)
    requires c.Valid() && b.prev in c.tree.blocks && Proper(crypto, Entries(c.tree, b.prev))
    requires TxAssumptions(c.tree, b) && BlockAccepted(c, crypto, b)
    ensures Proper(crypto, Entries(c.tree, b.prev) + Tag(b)) <==> InputsDisjoint(b.txs)
  {
    if InputsDisjoint(b.txs) {
      AcceptedBlock(c, crypto, b);
    }
    if Proper(crypto, Entries(c.tree, b.prev) + Tag(b)) {
      ProperIsSound(crypto, Entries(c.tree, b.prev) + Tag(b));
      SoundIsDisjoint(Entries(c.tree, b.prev), b);
    }
  }

  lemma {:induction false} ProperPrefix(crypto: Crypto, es: seq<Entry>, n: nat)
    requires Proper(crypto, es) && n <= |es|
    ensures Proper(crypto, es[..n])
    decreases |es|
  {
    if n == |es| {
      assert es[..n] == es;
    } else {
      ProperPrefix(crypto, es[..|es| - 1], n);
      assert es[..|es| - 1][..n] == es[..n];
    }
  }

  lemma ProperAtPlace(t: Tree, crypto: Crypto, b: Block, k: nat)
    requires t.Valid() && b.prev in t.blocks && k < |b.txs| && Proper(crypto, Entries(t, b.prev) + Tag(b))
    ensures Proper(crypto, Before(t, b, k)) && SoundNext(Before(t, b, k), b.txs[k]) && FairNext(crypto, Before(t, b, k), b.txs[k])
  {
    var all, n := Entries(t, b.prev) + Tag(b), |Entries(t, b.prev)|;
    ProperPrefix(crypto, all, n + k + 1);
    var part := all[..n + k + 1];
    PartOf(Entries(t, b.prev), Tag(b), k);
    assert part[n + k] == Entry(b.txs[k], b.hash);
  }

  lemma PartOf<T>(a: seq<T>, b: seq<T>, k: nat)
    requires k < |b|
    ensures (a + b)[..|a| + k + 1][..|a| + k] == a + b[..k] && (a + b)[..|a| + k + 1][|a| + k] == b[k]
  {
  }

  /** A proper block that no stray block interferes with is accepted, transaction by transaction. */
  lemma ProperAcceptedAt(c: Chain, crypto: Crypto, b: Block, k: nat)
    requires c.Valid() && b.prev in c.tree.blocks && k < |b.txs| && Proper(crypto, Entries(c.tree, b.prev) + Tag(b))
    requires !b.txs[k].IsCoinbase() ==> NoStrayInputs(c, b.txs[k], b.prev)
    ensures AcceptedAt(c, crypto, b, k)
  {
    ProperAtPlace(c.tree, crypto, b, k);
    if !b.txs[k].IsCoinbase() {
      ProperIsSound(crypto, Before(c.tree, b, k));
      SoundStart(Entries(c.tree, b.prev), Tag(b)[..k]);
      ValidAccepted(c, crypto, b, k);
    }
  }

  lemma SoundStart(es: seq<Entry>, fs: seq<Entry>)
    requires Sound(es + fs)
    ensures Sound(es)
  {
    assert (es + fs)[..|es|] == es;
    SoundPrefix(es + fs, |es|);
  }

  /**
   A block is accepted with disjoint inputs if and only if it has a valid proof of work, is a
   proper block on its path, and no stray block counts as spending one of its inputs.
   */
  lemma BlockAcceptedIff(c: Chain, crypto: Crypto, b: Block)
    requires c.Valid() && b.prev in c.tree.blocks && Proper(crypto, Entries(c.tree, b.prev)) && TxAssumptions(c.tree, b)
    ensures BlockAccepted(c, crypto, b) && InputsDisjoint(b.txs) <==>
            crypto.powValid(b) && ProperBlock(c.tree, crypto, b) && NoStrays(c, b)
  {
    CountMeans(b.height, |b.txs| - 1);
    if BlockAccepted(c, crypto, b) && InputsDisjoint(b.txs) {
      AcceptedProperIff(c, crypto, b);
      ProperIsSound(crypto, Entries(c.tree, b.prev));
      forall k {:trigger b.txs[k]} | 0 <= k < |b.txs| && !b.txs[k].IsCoinbase() ensures NoStrayInputs(c, b.txs[k], b.prev) {
        assert AcceptedAt(c, crypto, b, k);
        AcceptedNoStrays(c, crypto, b, k);
      }
    }
    if crypto.powValid(b) && ProperBlock(c.tree, crypto, b) && NoStrays(c, b) {
      ProperIsSound(crypto, Entries(c.tree, b.prev) + Tag(b));
      SoundIsDisjoint(Entries(c.tree, b.prev), b);
      forall k {:trigger AcceptedAt(c, crypto, b, k)} | 0 <= k < |b.txs| ensures AcceptedAt(c, crypto, b, k) {
        assert b.txs[k] == b.txs[k];
        ProperAcceptedAt(c, crypto, b, k);
      }
    }
  }
}

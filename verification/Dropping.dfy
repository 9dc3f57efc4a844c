/**
 Which transactions the node drops from its pool when it prepares a block, and why those that a
 branch replacement puts back are among them (node/transactions/manager.go:103-164,
 node/transactions/pending.go:534-549).
 */
module Dropping {
  import opened Structures
  import opened BlockTree
  import opened Blockchain
  import opened ForkChoice
  import opened Ledger
  import opened Soundness
  import opened TransactionIndex
  import opened Cancellation
  import opened Pool
  import opened Acceptance
  import opened Validity
  import opened Preparation
  import opened Reorganisation
  import opened PoolReorganisation

  // ----- Drawn transactions

  /** With different IDs, a listed transaction is rejected if and only if it does not verify after those kept before it. */
  lemma {:induction false} RejectedIff(c: Chain, crypto: Crypto, list: seq<Transaction>, k: nat)
    requires c.Valid() && UniqueTxIds(list) && k < |list|
    ensures list[k].id in Rejected(c, crypto, list) <==> !Accepts(c, crypto, list[k], Kept(c, crypto, list[..k]), c.top)
    decreases |list|
  {
    var init := list[..|list| - 1];
    if k < |init| {
      assert init[..k] == list[..k];
      RejectedIff(c, crypto, init, k);
    } else {
      RejectedListed(c, crypto, init);
    }
  }

  lemma {:induction false} RejectedListed(c: Chain, crypto: Crypto, list: seq<Transaction>)
    requires c.Valid()
    ensures forall id :: id in Rejected(c, crypto, list) ==> HasTxId(list, id)
    decreases |list|
  {
    if list != [] {
      var init := list[..|list| - 1];
      RejectedListed(c, crypto, init);
      forall id | id in Rejected(c, crypto, list) ensures HasTxId(list, id) {
        if HasTxId(init, id) {
          var i :| 0 <= i < |init| && init[i].id == id;
          assert list[i].id == id;
        } else {
          assert list[|list| - 1].id == id;
        }
      }
    }
  }

  /** A block made of the transactions on top of the main chain. */
  function OnTop(c: Chain, txs: seq<Transaction>): Block {
    Block(0, txs, c.top, [], 0, 0)
  }

  /** The main chain with the transactions after it. */
  ghost function Extended(c: Chain, txs: seq<Transaction>): seq<Entry>
    requires c.Valid()
  {
    Entries(c.tree, c.top) + Tag(OnTop(c, txs))
  }

  lemma ExtendedNext(c: Chain, txs: seq<Transaction>, tx: Transaction)
    requires c.Valid()
    ensures Extended(c, txs + [tx]) == Extended(c, txs) + [Entry(tx, [])]
    ensures Before(c.tree, OnTop(c, txs + [tx]), |txs|) == Extended(c, txs)
    ensures (txs + [tx])[..|txs|] == txs && (txs + [tx])[|txs|] == tx
  {
    var b := OnTop(c, txs + [tx]);
    assert Tag(b)[..|txs|] == Tag(OnTop(c, txs));
    assert Tag(b) == Tag(OnTop(c, txs)) + [Entry(tx, [])];
  }

  /** The transaction continues the main chain and those before it fairly, and no stray block counts as spending its inputs. */
  ghost predicate Minable(c: Chain, crypto: Crypto, tx: Transaction, before: seq<Transaction>)
    requires c.Valid()
  {
    var es := Extended(c, before);
    && (forall x {:trigger tx.vin[x]} :: 0 <= x < |tx.vin| ==> Spendable(es, Ref(tx.vin[x])))
    && FairNext(crypto, es, tx)
    && NoStrayInputs(c, tx, c.top)
  }

  lemma AcceptsIffMinable(c: Chain, crypto: Crypto, tx: Transaction, before: seq<Transaction>)
    requires c.Valid() && !tx.IsCoinbase() && Sound(Entries(c.tree, c.top)) && UniqueIds(Extended(c, before))
    requires FirstToName(before + [tx], |before|)
    ensures Accepts(c, crypto, tx, before, c.top) <==> Minable(c, crypto, tx, before) && PendingNamedOnce(c.tree, tx, c.top)
  {
    ExtendedNext(c, before, tx);
    AcceptsIff(c, crypto, OnTop(c, before + [tx]), |before|);
  }

  // ----- The kept transactions

  lemma DrawnFacts(pool: PoolMap, list: seq<Transaction>)
    requires PoolOk(pool) && Drawn(pool, list)
    ensures Apart(list) && UniqueTxIds(list) && forall tx :: tx in list ==> !tx.IsCoinbase()
  {
    forall i, j | 0 <= i < j < |list| ensures list[i].id != list[j].id && !SharesInput(list[i], list[j]) {
      assert list[i] in list && list[j] in list && list[i] != list[j];
    }
  }

  lemma {:induction false} KeptFacts(c: Chain, crypto: Crypto, list: seq<Transaction>)
    requires c.Valid() && Apart(list) && UniqueTxIds(list)
    ensures var kept := Kept(c, crypto, list);
            Apart(kept) && UniqueTxIds(kept) && (forall tx :: tx in kept ==> tx in list) && RefsOf(kept) <= RefsOf(list)
    decreases |list|
  {
    if list != [] {
      var init, tx := list[..|list| - 1], list[|list| - 1];
      var before := Kept(c, crypto, init);
      InitLast(list);
      ApartStep(init, tx);
      KeptFacts(c, crypto, init);
      ApartStep(before, tx);
      LastIdNew(init, before, tx);
      RefsOfStep(init, tx);
      RefsOfStep(before, tx);
    }
  }

  lemma LastIdNew(init: seq<Transaction>, before: seq<Transaction>, tx: Transaction)
    requires UniqueTxIds(init + [tx]) && UniqueTxIds(before) && forall u :: u in before ==> u in init
    ensures UniqueTxIds(before + [tx])
  {
    forall i | 0 <= i < |before| ensures before[i].id != tx.id {
      assert before[i] in init;
      var j :| 0 <= j < |init| && init[j] == before[i];
      assert (init + [tx])[j] == init[j] && (init + [tx])[|init|] == tx;
    }
  }

  /** A transaction that is accepted in its turn is kept. */
  lemma {:induction false} KeptStays(c: Chain, crypto: Crypto, list: seq<Transaction>, k: nat)
    requires c.Valid() && k < |list| && Accepts(c, crypto, list[k], Kept(c, crypto, list[..k]), c.top)
    ensures list[k] in Kept(c, crypto, list)
    decreases |list|
  {
    var init := list[..|list| - 1];
    if k < |init| {
      assert init[..k] == list[..k];
      KeptStays(c, crypto, init, k);
    }
  }

  // ----- When a drawn transaction is dropped

  /**
   Whatever the chain and the conflict-free pool, a drawn transaction is dropped if and only if it
   is not accepted after those kept before it, or names an output twice.
   */
  lemma DroppedMeans(c: Chain, crypto: Crypto, pool: PoolMap, list: seq<Transaction>, k: nat)
    requires c.Valid() && PoolOk(pool) && Drawn(pool, list) && k < |list|
    ensures list[k].id in Dropped(c, crypto, list) <==>
            !Accepts(c, crypto, list[k], Kept(c, crypto, list[..k]), c.top) || !DistinctRefs(list[k].vin)
  {
    var kept, tx := Kept(c, crypto, list), list[k];
    DrawnFacts(pool, list);
    RejectedIff(c, crypto, list, k);
    KeptFacts(c, crypto, list);
    ScreenApart(kept);
    if Accepts(c, crypto, tx, Kept(c, crypto, list[..k]), c.top) {
      KeptStays(c, crypto, list, k);
      SameIdListed(list, Screen(kept).bad, tx);
    }
  }

  /** A drawn transaction goes into the block if and only if it is not dropped, and those that do keep their order. */
  lemma ChosenIff(c: Chain, crypto: Crypto, pool: PoolMap, list: seq<Transaction>, k: nat)
    requires c.Valid() && PoolOk(pool) && Drawn(pool, list) && k < |list|
    ensures list[k] in Chosen(c, crypto, list) <==> list[k].id !in Dropped(c, crypto, list)
    ensures SubList(Chosen(c, crypto, list), list)
  {
    var kept, tx := Kept(c, crypto, list), list[k];
    DrawnFacts(pool, list);
    KeptFacts(c, crypto, list);
    KeptSubList(c, crypto, list);
    ScreenSubList(kept);
    SubListSteps(Screen(kept).good, kept, list);
    SubListMembers(Screen(kept).good, kept);
    DroppedMeans(c, crypto, pool, list, k);
    ScreenGood(kept);
    if Accepts(c, crypto, tx, Kept(c, crypto, list[..k]), c.top) {
      KeptStays(c, crypto, list, k);
    } else {
      RejectedNotKept(c, crypto, list, k);
    }
  }

  /** Screening keeps what it does not drop. */
  lemma ScreenGood(txs: seq<Transaction>)
    requires Apart(txs) && UniqueTxIds(txs)
    ensures forall tx {:trigger tx in Screen(txs).good} :: tx in Screen(txs).good <==> tx in txs && DistinctRefs(tx.vin)
  {
    ScreenApart(txs);
    ScreenSplits(txs);
    ScreenDisjoint(txs);
    ScreenSubList(txs);
    SubListMembers(Screen(txs).good, txs);
    forall tx {:trigger tx in Screen(txs).good} ensures tx in Screen(txs).good <==> tx in txs && DistinctRefs(tx.vin) {
      var good, bad := Screen(txs).good, Screen(txs).bad;
      assert tx in multiset(good) + multiset(bad) <==> tx in multiset(txs);
      assert tx in bad <==> tx in txs && !DistinctRefs(tx.vin);
      if tx in good {
        var i :| 0 <= i < |good| && good[i] == tx;
        assert DistinctRefs(good[i].vin);
      }
    }
  }

  lemma {:induction false} RejectedNotKept(c: Chain, crypto: Crypto, list: seq<Transaction>, k: nat)
    requires c.Valid() && UniqueTxIds(list) && Apart(list) && k < |list| && !Accepts(c, crypto, list[k], Kept(c, crypto, list[..k]), c.top)
    ensures list[k] !in Kept(c, crypto, list)
    decreases |list|
  {
    var init := list[..|list| - 1];
    if k < |init| {
      assert init[..k] == list[..k];
      RejectedNotKept(c, crypto, init, k);
    } else {
      KeptFacts(c, crypto, init);
      forall i | 0 <= i < |init| ensures init[i] != list[k] {
        assert list[i].id != list[k].id;
      }
    }
  }

  lemma {:induction false} SubListSteps(a: seq<Transaction>, b: seq<Transaction>, d: seq<Transaction>)
    requires SubList(a, b) && SubList(b, d)
    ensures SubList(a, d)
    decreases |d|, |b|
  {
    if d != [] {
      var e := d[..|d| - 1];
      if SubList(b, e) {
        SubListSteps(a, b, e);
      } else if SubList(a, b[..|b| - 1]) {
        SubListSteps(a, b[..|b| - 1], e);
      } else {
        SubListSteps(a[..|a| - 1], b[..|b| - 1], e);
      }
    }
  }

  lemma SameIdListed(list: seq<Transaction>, some: seq<Transaction>, tx: Transaction)
    requires UniqueTxIds(list) && tx in list && forall u :: u in some ==> u in list
    ensures tx.id in IdsIn(some) <==> tx in some
  {
    forall u | u in some && u.id == tx.id ensures u == tx {
      var i :| 0 <= i < |list| && list[i] == u;
      var j :| 0 <= j < |list| && list[j] == tx;
      assert list[i].id == list[j].id;
    }
  }

  lemma ExtendedUnique(c: Chain, txs: seq<Transaction>)
    requires c.Valid() && UniqueIds(Entries(c.tree, c.top)) && UniqueTxIds(txs)
    requires forall tx :: tx in txs ==> !HasId(Entries(c.tree, c.top), tx.id)
    ensures UniqueIds(Extended(c, txs))
  {
    var es, below := Extended(c, txs), Entries(c.tree, c.top);
    forall i, j | 0 <= i < j < |es| ensures es[i].tx.id != es[j].tx.id {
      ExtendedAt(c, txs, i);
      ExtendedAt(c, txs, j);
    }
  }

  lemma ExtendedAt(c: Chain, txs: seq<Transaction>, i: nat)
    requires c.Valid() && i < |Extended(c, txs)|
    ensures var below := Entries(c.tree, c.top);
            if i < |below| then Extended(c, txs)[i] == below[i]
            else i - |below| < |txs| && Extended(c, txs)[i].tx == txs[i - |below|] && txs[i - |below|] in txs
  {
  }

  /**
   With a conflict-free pool that holds nothing of the sound main chain, a drawn transaction is
   dropped if and only if it does not continue the main chain and the transactions kept before it
   fairly, or a stray block counts as spending one of its inputs, or it names an output twice.
   */
  lemma DroppedIff(c: Chain, crypto: Crypto, pool: PoolMap, list: seq<Transaction>, k: nat)
    requires c.Valid() && Sound(Entries(c.tree, c.top)) && PoolOk(pool) && OffMain(pool, c.tree, c.top)
    requires Drawn(pool, list) && k < |list|
    ensures list[k].id in Dropped(c, crypto, list) <==>
            !Minable(c, crypto, list[k], Kept(c, crypto, list[..k])) || !DistinctRefs(list[k].vin)
  {
    DroppedMeans(c, crypto, pool, list, k);
    if DistinctRefs(list[k].vin) {
      AcceptsIffKept(c, crypto, pool, list[..k], list[k], list);
    }
  }

  lemma AcceptsIffKept(c: Chain, crypto: Crypto, pool: PoolMap, init: seq<Transaction>, tx: Transaction, list: seq<Transaction>)
    requires c.Valid() && Sound(Entries(c.tree, c.top)) && PoolOk(pool) && OffMain(pool, c.tree, c.top)
    requires Drawn(pool, list) && init + [tx] <= list && DistinctRefs(tx.vin)
    ensures Accepts(c, crypto, tx, Kept(c, crypto, init), c.top) <==> Minable(c, crypto, tx, Kept(c, crypto, init))
  {
    var kept := Kept(c, crypto, init);
    DrawnStart(pool, list, init + [tx]);
    DrawnStart(pool, list, init);
    DrawnFacts(pool, init + [tx]);
    DrawnFacts(pool, init);
    KeptFacts(c, crypto, init);
    ExtendedUnique(c, kept);
    ApartStep(init, tx);
    ApartStep(kept, tx);
    ApartIsFirst(kept + [tx], |kept|);
    assert tx in init + [tx];
    AcceptsIffMinable(c, crypto, tx, kept);
  }

  lemma DrawnStart(pool: PoolMap, list: seq<Transaction>, start: seq<Transaction>)
    requires Drawn(pool, list) && start <= list
    ensures Drawn(pool, start)
  {
  }

  // ----- Abandoned transactions

  /**
   A transaction of a stored block off the main chain is refused on top of it, after whatever
   transactions, when one of its inputs was made where the two branches still were one.
   */
  lemma AbandonedRefused(c: Chain, crypto: Crypto, old_: Bytes, tx: Transaction, x: nat, before: seq<Transaction>)
    requires c.Valid() && TopIsHighest(c) && old_ in c.tree.blocks && Sound(Entries(c.tree, c.top))
    requires tx in SideTxs(c, old_) && !tx.IsCoinbase() && x < |tx.vin|
    requires MergeBlock(c.tree, old_, c.top) in c.tree.blocks
    requires HasId(Entries(c.tree, MergeBlock(c.tree, old_, c.top)), tx.vin[x].txid)
    ensures !Accepts(c, crypto, tx, before, c.top)
  {
    var h := BranchTx(c.tree, old_, c.top, tx);
    var e := CommonEntry(c, old_, tx.vin[x].txid);
    OnPath(c.tree, old_, h);
    MergeHighest(c.tree, old_, c.top);
    AboveMerge(c.tree, old_, c.top, h);
    assert tx.vin[x] in tx.vin && Ref(tx.vin[x]) in Spends(tx);
    SpendIn(c.tree.blocks[h].txs, tx, Ref(tx.vin[x]));
    assert c.tree.Path(c.top)[0] == c.top && Merge(c.tree, c.top, c.top) == 0;
    assert InTipRange(c, h, e.block, c.top);
    assert SpentUnder(c, Ref(tx.vin[x]), e.block, c.top);
    assert !InputFree(c, tx.vin[x], c.top);
  }

  /** An entry of the common part of two branches, as the main chain finds it. */
  lemma CommonEntry(c: Chain, old_: Bytes, id: Bytes) returns (e: Entry)
    requires c.Valid() && old_ in c.tree.blocks && Sound(Entries(c.tree, c.top))
    requires MergeBlock(c.tree, old_, c.top) in c.tree.blocks && HasId(Entries(c.tree, MergeBlock(c.tree, old_, c.top)), id)
    ensures Resolve(c.tree, id, c.top) == Some(e) && e.block in c.tree.blocks
    ensures c.tree.blocks[e.block].height <= c.tree.blocks[MergeBlock(c.tree, old_, c.top)].height
  {
    var base := MergeBlock(c.tree, old_, c.top);
    var es := Entries(c.tree, base);
    var i :| 0 <= i < |es| && es[i].tx.id == id;
    e := es[i];
    assert e in es;
    EntrySource(c.tree, base, e);
    OnPath(c.tree, base, e.block);
    MergeHighest(c.tree, old_, c.top);
    var n := Merge(c.tree, c.top, old_);
    EntriesBelow(c.tree, c.top, n);
    assert Entries(c.tree, c.top)[i] == e;
    ResolveUnique(c.tree, c.top, e);
  }

  /** A block of the branch above the meeting point is higher than that. */
  lemma AboveMerge(t: Tree, h: Bytes, top: Bytes, a: Bytes)
    requires t.Valid() && h in t.blocks && top in t.blocks && a in t.Path(h) && a !in t.Path(top)
    ensures a in t.blocks && MergeBlock(t, h, top) in t.blocks && t.blocks[a].height > t.blocks[MergeBlock(t, h, top)].height
  {
    var m := Merge(t, h, top);
    PathAt(t, h, m);
    OnPath(t, h, a);
    PathAt(t, top, Merge(t, top, h));
    MergeHighest(t, h, top);
  }

  /** So when the node draws it to prepare a block it drops it from the pool. */
  lemma AbandonedDropped(c: Chain, crypto: Crypto, old_: Bytes, list: seq<Transaction>, k: nat, x: nat)
    requires c.Valid() && TopIsHighest(c) && old_ in c.tree.blocks && Sound(Entries(c.tree, c.top))
    requires UniqueTxIds(list) && k < |list| && list[k] in SideTxs(c, old_) && !list[k].IsCoinbase() && x < |list[k].vin|
    requires MergeBlock(c.tree, old_, c.top) in c.tree.blocks
    requires HasId(Entries(c.tree, MergeBlock(c.tree, old_, c.top)), list[k].vin[x].txid)
    ensures list[k].id in Dropped(c, crypto, list)
  {
    AbandonedRefused(c, crypto, old_, list[k], x, Kept(c, crypto, list[..k]));
    RejectedIff(c, crypto, list, k);
  }
}

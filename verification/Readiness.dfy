/**
 A pool in order goes into the next block as a whole: nothing of it is dropped
 (node/transactions/manager.go:103-164, node/transactions/pending.go:252-287).
 */
module Readiness {
  import opened Structures
  import opened Blockchain
  import opened Ledger
  import opened Soundness
  import opened Cancellation
  import opened Pool
  import opened Acceptance
  import opened Validity
  import opened Preparation
  import opened PoolReorganisation
  import opened Dropping
  import opened Balance
  import opened Reception

  /** Of two listed transactions the one that makes an output is older than the one that spends it. */
  ghost predicate OlderParents(list: seq<Transaction>) {
    forall j, k :: 0 <= j < |list| && 0 <= k < |list| && SpendsFrom(list[k], list[j]) ==> list[j].time < list[k].time
  }

  ghost predicate SpendsFrom(tx: Transaction, parent: Transaction) {
    exists op :: op in RefsIn(tx.vin) && op.txid == parent.id
  }

  /** What the transactions of the list may spend: unspent outputs of the main chain, and outputs of one another. */
  ghost function Offered(c: Chain, list: seq<Transaction>): Utxo
    requires c.Valid()
  {
    Unspent(Entries(c.tree, c.top)) + PoolOuts(list)
  }

  /** The transaction spends offered outputs, once each, and fairly; and no stray block counts as spending them. */
  ghost predicate InOrderAt(c: Chain, crypto: Crypto, list: seq<Transaction>, tx: Transaction)
    requires c.Valid()
  {
    && AllIn(Offered(c, list), tx.vin) && DistinctRefs(tx.vin)
    && FairOn(crypto, Offered(c, list), tx) && NoStrayInputs(c, tx, c.top)
  }

  /** Sorted by time, outputs are listed before the transactions that spend them. */
  lemma SortedInOrder(list: seq<Transaction>)
    requires SortedByTime(list) && OlderParents(list)
    ensures InOrder(list)
  {
    forall k, op: Outpoint | 0 <= k < |list| && op.txid == list[k].id ensures op !in RefsOf(list[..k + 1]) {
      if op in RefsOf(list[..k + 1]) {
        var tx :| tx in list[..k + 1] && op in RefsIn(tx.vin);
        var m :| 0 <= m < k + 1 && list[m] == tx;
        assert SpendsFrom(list[m], list[k]);
      }
    }
  }

  // ----- What is there when its turn comes

  lemma UniquePrefix(list: seq<Transaction>, k: nat)
    requires UniqueTxIds(list) && k <= |list|
    ensures UniqueTxIds(list[..k])
  {
  }

  lemma NamedOnlyHere(list: seq<Transaction>, k: nat, op: Outpoint)
    requires Apart(list) && k < |list| && op in RefsIn(list[k].vin)
    ensures op !in RefsOf(list[..k])
  {
    forall tx | tx in list[..k] ensures op !in RefsIn(tx.vin) {
      var m :| 0 <= m < k && list[m] == tx;
      SharesInputRefs(list[m], list[k]);
    }
  }

  /** An output of the list that its transaction k spends was made before. */
  lemma MadeBefore(list: seq<Transaction>, k: nat, op: Outpoint)
    requires UniqueTxIds(list) && InOrder(list) && k < |list| && op in RefsIn(list[k].vin) && op in PoolOuts(list)
    ensures op in PoolOuts(list[..k]) && PoolOuts(list[..k])[op] == PoolOuts(list)[op]
  {
    PoolOutsMeans(list, op);
    var j :| 0 <= j < |list| && list[j].id == op.txid && InRange(list[j], op.index);
    forall m | k <= m < |list| ensures list[m].id != op.txid {
      assert list[k] in list[..m + 1];
    }
    UniquePrefix(list, k);
    PoolOutsMeans(list[..k], op);
    assert list[..k][j] == list[j];
  }

  /** So what it spends is there when its turn comes, as it was offered. */
  lemma ThereInTurn(u: Utxo, list: seq<Transaction>, k: nat, op: Outpoint)
    requires UniqueTxIds(list) && InOrder(list) && Apart(list) && k < |list|
    requires op in RefsIn(list[k].vin) && op in u + PoolOuts(list) && (op in u ==> !HasTxId(list, op.txid))
    ensures op in AfterPool(u, list[..k]) && AfterPool(u, list[..k])[op] == (u + PoolOuts(list))[op]
  {
    NamedOnlyHere(list, k, op);
    PoolOutsMeans(list, op);
    if op in PoolOuts(list) {
      MadeBefore(list, k, op);
    } else {
      UniquePrefix(list, k);
      NotMadeBefore(list, k, op);
    }
  }

  lemma NotMadeBefore(list: seq<Transaction>, k: nat, op: Outpoint)
    requires UniqueTxIds(list) && k <= |list| && UniqueTxIds(list[..k]) && op !in PoolOuts(list)
    ensures op !in PoolOuts(list[..k])
  {
    PoolOutsMeans(list, op);
    PoolOutsMeans(list[..k], op);
    assert forall m :: 0 <= m < k ==> list[..k][m] == list[m];
  }

  lemma FairSame(crypto: Crypto, v: Utxo, w: Utxo, tx: Transaction)
    requires forall x {:trigger tx.vin[x]} :: 0 <= x < |tx.vin| ==> CoinAt(v, tx.vin[x]) == CoinAt(w, tx.vin[x])
    ensures FairOn(crypto, v, tx) <==> FairOn(crypto, w, tx)
  {
    ValueSame(v, w, tx.vin);
  }

  lemma {:induction false} ValueSame(v: Utxo, w: Utxo, vin: seq<TXInput>)
    requires forall x {:trigger vin[x]} :: 0 <= x < |vin| ==> CoinAt(v, vin[x]) == CoinAt(w, vin[x])
    ensures ValueAt(v, vin) == ValueAt(w, vin)
    decreases |vin|
  {
    if vin != [] {
      var init := vin[..|vin| - 1];
      forall x {:trigger init[x]} | 0 <= x < |init| ensures CoinAt(v, init[x]) == CoinAt(w, init[x]) {
        assert init[x] == vin[x];
      }
      ValueSame(v, w, init);
    }
  }

  // ----- The whole list goes in

  lemma {:induction false} PendingIsTag(c: Chain, txs: seq<Transaction>)
    requires c.Valid()
    ensures Pending(txs) == Tag(OnTop(c, txs))
    decreases |txs|
  {
    if txs != [] {
      var init := txs[..|txs| - 1];
      PendingIsTag(c, init);
      assert Tag(OnTop(c, txs)) == Tag(OnTop(c, init)) + [Entry(txs[|txs| - 1], [])];
    }
  }

  ghost predicate NewIds(u: Utxo, txs: seq<Transaction>) {
    forall op :: op in u ==> !HasTxId(txs, op.txid)
  }

  /** The unspent outputs of the main chain with the transactions after it. */
  lemma ExtendedUnspent(c: Chain, txs: seq<Transaction>)
    requires c.Valid() && UniqueTxIds(txs) && InOrder(txs) && forall tx :: tx in txs ==> !tx.IsCoinbase()
    requires NewIds(Unspent(Entries(c.tree, c.top)), txs)
    ensures Unspent(Extended(c, txs)) == AfterPool(Unspent(Entries(c.tree, c.top)), txs)
  {
    ApplyAllAppend(map[], Entries(c.tree, c.top), Tag(OnTop(c, txs)));
    PendingIsTag(c, txs);
    AppliedIsAfterPool(Unspent(Entries(c.tree, c.top)), txs);
  }

  /** The drawn transactions are sorted, each makes its outputs before they are used, and all of them are in order. */
  ghost predicate InOrderDraw(c: Chain, crypto: Crypto, pool: PoolMap, list: seq<Transaction>) {
    && c.Valid() && Sound(Entries(c.tree, c.top)) && PoolOk(pool) && OffMain(pool, c.tree, c.top)
    && Drawn(pool, list) && SortedByTime(list) && OlderParents(list)
    && forall k {:trigger list[k]} :: 0 <= k < |list| ==> InOrderAt(c, crypto, list, list[k])
  }

  lemma DrawIsNew(c: Chain, pool: PoolMap, list: seq<Transaction>)
    requires c.Valid() && Sound(Entries(c.tree, c.top)) && OffMain(pool, c.tree, c.top) && Drawn(pool, list)
    ensures NewIds(Unspent(Entries(c.tree, c.top)), list)
  {
    var es := Entries(c.tree, c.top);
    forall op, k | op in Unspent(es) && 0 <= k < |list| ensures list[k].id != op.txid {
      UnspentMeaning(es, op);
      var i :| KeptFrom(es, i, op);
      assert HasId(es, op.txid) && list[k] in list;
    }
  }

  lemma InOrderStart(list: seq<Transaction>, k: nat)
    requires InOrder(list) && k <= |list|
    ensures InOrder(list[..k])
  {
    forall m, op: Outpoint | 0 <= m < k && op.txid == list[..k][m].id ensures op !in RefsOf(list[..k][..m + 1]) {
      assert list[..k][..m + 1] == list[..m + 1] && list[m].id == op.txid;
    }
  }

  lemma NewStart(u: Utxo, list: seq<Transaction>, k: nat)
    requires NewIds(u, list) && k <= |list|
    ensures NewIds(u, list[..k])
  {
    forall op | op in u ensures !HasTxId(list[..k], op.txid) {
      assert forall m :: 0 <= m < k ==> list[..k][m] == list[m];
    }
  }

  lemma StartUnspent(c: Chain, pool: PoolMap, list: seq<Transaction>, k: nat)
    requires c.Valid() && Sound(Entries(c.tree, c.top)) && PoolOk(pool) && OffMain(pool, c.tree, c.top)
    requires Drawn(pool, list) && InOrder(list) && k <= |list|
    ensures Unspent(Extended(c, list[..k])) == AfterPool(Unspent(Entries(c.tree, c.top)), list[..k])
  {
    DrawnFacts(pool, list);
    DrawIsNew(c, pool, list);
    UniquePrefix(list, k);
    InOrderStart(list, k);
    NewStart(Unspent(Entries(c.tree, c.top)), list, k);
    ExtendedUnspent(c, list[..k]);
  }

  /** When its turn comes a transaction finds its inputs, as they were offered. */
  lemma TurnComes(c: Chain, crypto: Crypto, pool: PoolMap, list: seq<Transaction>, k: nat, x: nat)
    requires InOrderDraw(c, crypto, pool, list) && k < |list| && x < |list[k].vin|
    ensures var op, u := Ref(list[k].vin[x]), Unspent(Extended(c, list[..k]));
            op in u && op in Offered(c, list) && u[op] == Offered(c, list)[op]
  {
    var op := Ref(list[k].vin[x]);
    SortedInOrder(list);
    DrawnFacts(pool, list);
    DrawIsNew(c, pool, list);
    StartUnspent(c, pool, list, k);
    InRefsIn(list[k].vin, op);
    assert InOrderAt(c, crypto, list, list[k]);
    assert list[k].vin[x] == list[k].vin[x];
    ThereInTurn(Unspent(Entries(c.tree, c.top)), list, k, op);
  }

  lemma TurnMinable(c: Chain, crypto: Crypto, pool: PoolMap, list: seq<Transaction>, k: nat)
    requires InOrderDraw(c, crypto, pool, list) && k < |list| && Sound(Extended(c, list[..k]))
    ensures Minable(c, crypto, list[k], list[..k])
  {
    var es, tx := Extended(c, list[..k]), list[k];
    assert InOrderAt(c, crypto, list, list[k]) && tx in list;
    forall x {:trigger tx.vin[x]} | 0 <= x < |tx.vin|
      ensures Spendable(es, Ref(tx.vin[x])) && CoinAt(Unspent(es), tx.vin[x]) == CoinAt(Offered(c, list), tx.vin[x])
    {
      TurnComes(c, crypto, pool, list, k, x);
      SpendableIsUnspent(es, Ref(tx.vin[x]));
    }
    FairSame(crypto, Unspent(es), Offered(c, list), tx);
    FairOnChain(crypto, es, tx);
  }

  lemma {:induction false} StartSound(c: Chain, crypto: Crypto, pool: PoolMap, list: seq<Transaction>, k: nat)
    requires InOrderDraw(c, crypto, pool, list) && k <= |list|
    ensures Sound(Extended(c, list[..k]))
    decreases k
  {
    if k == 0 {
      assert Extended(c, list[..0]) == Entries(c.tree, c.top);
    } else {
      StartSound(c, crypto, pool, list, k - 1);
      TurnMinable(c, crypto, pool, list, k - 1);
      assert InOrderAt(c, crypto, list, list[k - 1]);
      TurnIsNew(c, pool, list, k - 1);
      SoundExtend(Extended(c, list[..k - 1]), Entry(list[k - 1], []));
    }
  }

  lemma TurnIsNew(c: Chain, pool: PoolMap, list: seq<Transaction>, k: nat)
    requires c.Valid() && Sound(Entries(c.tree, c.top)) && PoolOk(pool) && OffMain(pool, c.tree, c.top) && Drawn(pool, list) && k < |list|
    ensures !HasId(Extended(c, list[..k]), list[k].id) && list[k].vin != []
    ensures Extended(c, list[..k + 1]) == Extended(c, list[..k]) + [Entry(list[k], [])]
  {
    DrawnFacts(pool, list);
    UniquePrefix(list, k + 1);
    assert list[..k + 1] == list[..k] + [list[k]] && list[k] in list;
    ExtendedUnique(c, list[..k + 1]);
    ExtendedNext(c, list[..k], list[k]);
    var es := Extended(c, list[..k]);
    forall i | 0 <= i < |es| ensures es[i].tx.id != list[k].id {
      assert (es + [Entry(list[k], [])])[i] == es[i];
    }
  }

  /** When all before it are kept, a transaction is accepted in its turn. */
  lemma TurnAccepted(c: Chain, crypto: Crypto, pool: PoolMap, list: seq<Transaction>, k: nat)
    requires InOrderDraw(c, crypto, pool, list) && k < |list| && Kept(c, crypto, list[..k]) == list[..k]
    ensures Accepts(c, crypto, list[k], list[..k], c.top)
  {
    StartSound(c, crypto, pool, list, k);
    TurnMinable(c, crypto, pool, list, k);
    assert InOrderAt(c, crypto, list, list[k]);
    AcceptedWhenMinable(c, crypto, pool, list, k);
  }

  lemma AcceptedWhenMinable(c: Chain, crypto: Crypto, pool: PoolMap, list: seq<Transaction>, k: nat)
    requires c.Valid() && Sound(Entries(c.tree, c.top)) && PoolOk(pool) && OffMain(pool, c.tree, c.top) && Drawn(pool, list)
    requires k < |list| && DistinctRefs(list[k].vin)
    requires Kept(c, crypto, list[..k]) == list[..k] && Minable(c, crypto, list[k], list[..k])
    ensures Accepts(c, crypto, list[k], list[..k], c.top)
  {
    assert list[..k] + [list[k]] == list[..k + 1];
    AcceptsIffKept(c, crypto, pool, list[..k], list[k], list);
  }

  /** The transaction is accepted in its turn, if all before it are kept. */
  ghost predicate GoesIn(c: Chain, crypto: Crypto, list: seq<Transaction>, k: nat)
    requires c.Valid() && k < |list|
  {
    Kept(c, crypto, list[..k]) == list[..k] ==> Accepts(c, crypto, list[k], list[..k], c.top)
  }

  lemma {:induction false} AllKept(c: Chain, crypto: Crypto, list: seq<Transaction>)
    requires c.Valid() && forall k: nat {:trigger GoesIn(c, crypto, list, k)} :: k < |list| ==> GoesIn(c, crypto, list, k)
    ensures Kept(c, crypto, list) == list
    decreases |list|
  {
    if list != [] {
      var n := |list| - 1;
      forall k: nat {:trigger GoesIn(c, crypto, list[..n], k)} | k < n ensures GoesIn(c, crypto, list[..n], k) {
        GoesInStart(c, crypto, list, n, k);
      }
      AllKept(c, crypto, list[..n]);
      assert GoesIn(c, crypto, list, n);
      assert list == list[..n] + [list[n]];
      KeptOneMore(c, crypto, list, list[..n], list[n]);
    }
  }

  lemma GoesInStart(c: Chain, crypto: Crypto, list: seq<Transaction>, n: nat, k: nat)
    requires c.Valid() && k < n <= |list| && GoesIn(c, crypto, list, k)
    ensures GoesIn(c, crypto, list[..n], k)
  {
    assert list[..n][..k] == list[..k];
  }

  lemma DrawKept(c: Chain, crypto: Crypto, pool: PoolMap, list: seq<Transaction>, k: nat)
    requires InOrderDraw(c, crypto, pool, list) && k <= |list|
    ensures Kept(c, crypto, list[..k]) == list[..k]
  {
    forall j: nat {:trigger GoesIn(c, crypto, list[..k], j)} | j < k ensures GoesIn(c, crypto, list[..k], j) {
      if Kept(c, crypto, list[..j]) == list[..j] {
        TurnAccepted(c, crypto, pool, list, j);
      }
      GoesInStart(c, crypto, list, k, j);
    }
    AllKept(c, crypto, list[..k]);
  }

  lemma KeptOneMore(c: Chain, crypto: Crypto, txs: seq<Transaction>, init: seq<Transaction>, tx: Transaction)
    requires c.Valid() && txs == init + [tx] && Kept(c, crypto, init) == init && Accepts(c, crypto, tx, init, c.top)
    ensures Kept(c, crypto, txs) == txs
  {
    assert txs[..|txs| - 1] == init;
  }

  /**
   When the transactions drawn from a conflict-free pool spend offered outputs fairly and are each
   younger than those they build on, all of them go into the block in order of time, and none is
   dropped from the pool.
   */
  lemma AllGoIn(c: Chain, crypto: Crypto, pool: PoolMap, list: seq<Transaction>)
    requires InOrderDraw(c, crypto, pool, list)
    ensures Chosen(c, crypto, list) == list && Dropped(c, crypto, list) == {}
  {
    DrawKept(c, crypto, pool, list, |list|);
    assert list[..|list|] == list;
    DrawnFacts(pool, list);
    forall k | 0 <= k < |list| ensures DistinctRefs(list[k].vin) {
      assert InOrderAt(c, crypto, list, list[k]);
    }
    ScreenKeepsAll(list);
    RejectedListed(c, crypto, list);
    forall k | 0 <= k < |list| ensures list[k].id !in Rejected(c, crypto, list) {
      NotRejected(c, crypto, pool, list, k);
    }
  }

  lemma NotRejected(c: Chain, crypto: Crypto, pool: PoolMap, list: seq<Transaction>, k: nat)
    requires InOrderDraw(c, crypto, pool, list) && k < |list|
    ensures list[k].id !in Rejected(c, crypto, list)
  {
    DrawKept(c, crypto, pool, list, k);
    TurnAccepted(c, crypto, pool, list, k);
    DrawnFacts(pool, list);
    RejectedIff(c, crypto, list, k);
  }

  lemma {:induction false} IdsCounted(txs: seq<Transaction>)
    requires UniqueTxIds(txs)
    ensures |IdsIn(txs)| == |txs|
    decreases |txs|
  {
    if txs != [] {
      var init, last := txs[..|txs| - 1], txs[|txs| - 1];
      UniquePrefix(txs, |init|);
      IdsCounted(init);
      InitLast(txs);
      assert IdsIn(txs) == IdsIn(init) + {last.id};
      LastIdIsNew(init, last);
      assert last.id !in IdsIn(init) by {
        forall tx | tx in init ensures tx.id != last.id {
          var i :| 0 <= i < |init| && init[i] == tx;
        }
      }
    } else {
      assert IdsIn(txs) == {};
    }
  }

  /** As many as the pool holds are all it holds. */
  lemma WholeDraw(pool: PoolMap, list: seq<Transaction>, id: Bytes)
    requires PoolOk(pool) && Drawn(pool, list) && |list| == |pool| && id in pool
    ensures pool[id] in list
  {
    DrawnFacts(pool, list);
    IdsCounted(list);
    assert IdsIn(list) <= pool.Keys;
    assert |pool.Keys - IdsIn(list)| == 0 && pool.Keys - IdsIn(list) == {};
    var tx :| tx in list && tx.id == id;
  }

  /**
   So a whole pool in order, of an allowed size, makes a block that holds all of it and passes
   every check of the node but the proof of work.
   */
  lemma PoolIsMined(c: Chain, crypto: Crypto, pool: PoolMap, list: seq<Transaction>, reward: Transaction,
                    timestamp: int, hash: Bytes, nonce: int)
    requires InOrderDraw(c, crypto, pool, list) && |list| == |pool| && IsReward(reward)
    requires CountAllowed(c.tree.blocks[c.top].height + 1, |pool|)
    ensures var b := BlockOf(c, Chosen(c, crypto, list), reward, timestamp, hash, nonce);
            BlockChecks(c, crypto, b) && forall id :: id in pool ==> pool[id] in b.txs
  {
    AllGoIn(c, crypto, pool, list);
    forall id | id in pool ensures pool[id] in list && DistinctRefs(pool[id].vin) {
      WholeDraw(pool, list, id);
      var k :| 0 <= k < |list| && list[k] == pool[id];
      assert InOrderAt(c, crypto, list, list[k]);
    }
    PreparedPasses(c, crypto, pool, list, reward, timestamp, hash, nonce);
  }
}

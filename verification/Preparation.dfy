/**
 Which transactions of the pool go into a new block, and when the block made of them passes
 the node's own checks (node/transactions/manager.go:103-164, node/consensus/manager.go:114-239).
 */
module Preparation {
  import opened Structures
  import opened Blockchain
  import opened TransactionRules
  import opened Pool
  import opened Acceptance
  import opened Cancellation

  /** The listed transactions that verify on the tip, each after those kept before it. */
  ghost function Kept(c: Chain, crypto: Crypto, list: seq<Transaction>): seq<Transaction>
    requires c.Valid()
  {
    if list == [] then []
    else
      var before, tx := Kept(c, crypto, list[..|list| - 1]), list[|list| - 1];
      if Accepts(c, crypto, tx, before, c.top) then before + [tx] else before
  }

  /** The IDs of the others. */
  ghost function Rejected(c: Chain, crypto: Crypto, list: seq<Transaction>): set<Bytes>
    requires c.Valid()
  {
    if list == [] then {}
    else
      var init, tx := list[..|list| - 1], list[|list| - 1];
      Rejected(c, crypto, init) + if Accepts(c, crypto, tx, Kept(c, crypto, init), c.top) then {} else {tx.id}
  }

  ghost function Chosen(c: Chain, crypto: Crypto, list: seq<Transaction>): seq<Transaction>
    requires c.Valid()
  {
    Screen(Kept(c, crypto, list)).good
  }

  /** The IDs of the drawn transactions that are not chosen. */
  ghost function Dropped(c: Chain, crypto: Crypto, list: seq<Transaction>): set<Bytes>
    requires c.Valid()
  {
    Rejected(c, crypto, list) + IdsIn(Screen(Kept(c, crypto, list)).bad)
  }

  lemma DroppedIs(c: Chain, crypto: Crypto, list: seq<Transaction>, pool: PoolMap)
    requires c.Valid()
    ensures pool - Rejected(c, crypto, list) - IdsIn(Screen(Kept(c, crypto, list)).bad) == pool - Dropped(c, crypto, list)
    ensures Kept(c, crypto, list) == [] ==> pool - Rejected(c, crypto, list) == pool - Dropped(c, crypto, list)
  {
  }

  lemma NothingChosen(c: Chain, crypto: Crypto, list: seq<Transaction>)
    requires c.Valid()
    ensures Kept(c, crypto, list) == [] ==> Chosen(c, crypto, list) == []
  {
  }

  /** a is b with some elements left out. */
  ghost predicate SubList(a: seq<Transaction>, b: seq<Transaction>) {
    if b == [] then a == []
    else SubList(a, b[..|b| - 1]) || (a != [] && a[|a| - 1] == b[|b| - 1] && SubList(a[..|a| - 1], b[..|b| - 1]))
  }

  lemma {:induction false} SubListMembers(a: seq<Transaction>, b: seq<Transaction>)
    requires SubList(a, b)
    ensures |a| <= |b| && forall tx :: tx in a ==> tx in b
    decreases |b|
  {
    if b != [] {
      var init := b[..|b| - 1];
      if SubList(a, init) {
        SubListMembers(a, init);
      } else {
        SubListMembers(a[..|a| - 1], init);
        InitLast(a);
      }
    }
  }

  lemma {:induction false} KeptSubList(c: Chain, crypto: Crypto, list: seq<Transaction>)
    requires c.Valid()
    ensures SubList(Kept(c, crypto, list), list)
    decreases |list|
  {
    if list != [] {
      KeptSubList(c, crypto, list[..|list| - 1]);
      var before := Kept(c, crypto, list[..|list| - 1]);
      assert (before + [list[|list| - 1]])[..|before|] == before;
    }
  }

  lemma {:induction false} ScreenSubList(txs: seq<Transaction>)
    ensures SubList(Screen(txs).good, txs)
    decreases |txs|
  {
    if txs != [] {
      ScreenSubList(txs[..|txs| - 1]);
      var before := Screen(txs[..|txs| - 1]).good;
      assert (before + [txs[|txs| - 1]])[..|before|] == before;
    }
  }

  /** Every kept transaction was accepted after the kept ones before it. */
  lemma {:induction false} KeptAccepted(c: Chain, crypto: Crypto, list: seq<Transaction>, k: nat)
    requires c.Valid() && k < |Kept(c, crypto, list)|
    ensures Accepts(c, crypto, Kept(c, crypto, list)[k], Kept(c, crypto, list)[..k], c.top)
    decreases |list|
  {
    var init := list[..|list| - 1];
    var before, all := Kept(c, crypto, init), Kept(c, crypto, list);
    if k < |before| {
      KeptAccepted(c, crypto, init, k);
      assert all[..k] == before[..k];
    } else {
      assert all[..k] == before;
    }
  }

  ghost predicate UniqueTxIds(txs: seq<Transaction>) {
    forall i, j :: 0 <= i < j < |txs| ==> txs[i].id != txs[j].id
  }

  ghost predicate HasTxId(txs: seq<Transaction>, id: Bytes) {
    exists i :: 0 <= i < |txs| && txs[i].id == id
  }

  lemma {:induction false} FirstWithIdHas(txs: seq<Transaction>, id: Bytes)
    ensures FirstWithId(txs, id).Some? <==> HasTxId(txs, id)
    ensures FirstWithId(txs, id).Some? ==> FirstWithId(txs, id).value in txs && FirstWithId(txs, id).value.id == id
    decreases |txs|
  {
    if txs != [] && txs[0].id != id {
      FirstWithIdHas(txs[1..], id);
      if HasTxId(txs, id) {
        var i :| 0 <= i < |txs| && txs[i].id == id;
        assert txs[1..][i - 1].id == id;
      }
      if i :| 0 <= i < |txs[1..]| && txs[1..][i].id == id {
        assert txs[i + 1].id == id;
      }
    }
  }

  // ----- Two lists of transactions before one: what matters is whether they hold its missing inputs

  ghost predicate InputsHeld(c: Chain, tx: Transaction, before: seq<Transaction>)
    requires c.Valid()
  {
    forall x {:trigger tx.vin[x]} :: 0 <= x < |tx.vin| && Resolve(c.tree, tx.vin[x].txid, c.top).None? ==> HasTxId(before, tx.vin[x].txid)
  }

  lemma AcceptedHolds(c: Chain, crypto: Crypto, tx: Transaction, before: seq<Transaction>)
    requires c.Valid() && Accepts(c, crypto, tx, before, c.top) && !tx.IsCoinbase()
    ensures InputsHeld(c, tx, before)
  {
    forall x {:trigger tx.vin[x]} | 0 <= x < |tx.vin| && Resolve(c.tree, tx.vin[x].txid, c.top).None?
      ensures HasTxId(before, tx.vin[x].txid)
    {
      assert HasInput(tx, PrevTXs(c.tree, tx, before, c.top), x);
      FirstWithIdHas(before, tx.vin[x].txid);
    }
  }

  lemma SamePrev(c: Chain, tx: Transaction, before: seq<Transaction>, fewer: seq<Transaction>)
    requires c.Valid() && InputsHeld(c, tx, before) && InputsHeld(c, tx, fewer)
    requires forall u, v :: u in before && v in fewer && u.id == v.id ==> u == v
    ensures PrevTXs(c.tree, tx, before, c.top) == PrevTXs(c.tree, tx, fewer, c.top)
  {
    forall x: nat | x < |tx.vin| ensures PrevTX(c.tree, tx.vin[x].txid, before, c.top) == PrevTX(c.tree, tx.vin[x].txid, fewer, c.top) {
      if Resolve(c.tree, tx.vin[x].txid, c.top).None? {
        FirstWithIdHas(before, tx.vin[x].txid);
        FirstWithIdHas(fewer, tx.vin[x].txid);
      }
    }
  }

  /** An accepted transaction is accepted after other transactions exactly when those hold its missing inputs. */
  lemma AcceptedAfter(c: Chain, crypto: Crypto, tx: Transaction, before: seq<Transaction>, fewer: seq<Transaction>)
    requires c.Valid() && Accepts(c, crypto, tx, before, c.top) && !tx.IsCoinbase()
    requires forall u, v :: u in before && v in fewer && u.id == v.id ==> u == v
    ensures Accepts(c, crypto, tx, fewer, c.top) <==> InputsHeld(c, tx, fewer)
  {
    AcceptedHolds(c, crypto, tx, before);
    if InputsHeld(c, tx, fewer) {
      SamePrev(c, tx, before, fewer);
    } else if Accepts(c, crypto, tx, fewer, c.top) {
      AcceptedHolds(c, crypto, tx, fewer);
    }
  }

  // ----- The prepared block

  /** The block made of the chosen transactions and a reward on top of the chain. */
  function BlockOf(c: Chain, txs: seq<Transaction>, reward: Transaction, timestamp: int, hash: Bytes, nonce: int): Block
    requires c.top in c.tree.blocks
  {
    Block(timestamp, txs + [reward], c.top, hash, nonce, c.tree.blocks[c.top].height + 1)
  }

  ghost predicate IsReward(tx: Transaction) {
    tx.IsCoinbase() && CoinbaseOk(tx)
  }

  /** No chosen transaction takes an input from a transaction that is not chosen before it. */
  ghost predicate ClosedChoice(c: Chain, txs: seq<Transaction>)
    requires c.Valid()
  {
    forall k {:trigger txs[k]} :: 0 <= k < |txs| ==> InputsHeld(c, txs[k], txs[..k])
  }

  ghost predicate Enough(c: Chain, txs: seq<Transaction>)
    requires c.Valid()
  {
    CountAllowed(c.tree.blocks[c.top].height + 1, |txs|)
  }

  /** Of a list that is not too long enough are chosen if and only if the least number is. */
  lemma EnoughChosen(c: Chain, crypto: Crypto, list: seq<Transaction>)
    requires c.Valid() && |list| <= MAX_NUMBER_TRANSACTION_IN_BLOCK
    ensures var txs := Chosen(c, crypto, list);
            Enough(c, txs) <==> |txs| >= MinTransactions(c.tree.blocks[c.top].height + 1)
  {
    var kept := Kept(c, crypto, list);
    KeptSubList(c, crypto, list);
    SubListMembers(kept, list);
    ScreenSubList(kept);
    SubListMembers(Screen(kept).good, kept);
    CountMeans(c.tree.blocks[c.top].height + 1, |Chosen(c, crypto, list)|);
  }

  lemma RewardLast(txs: seq<Transaction>, reward: Transaction)
    requires IsReward(reward) && forall tx :: tx in txs ==> !tx.IsCoinbase()
    ensures OneCoinbase(txs + [reward])
  {
    var all := txs + [reward];
    forall j | 0 <= j < |all| && j != |txs| ensures !all[j].IsCoinbase() {
      assert all[j] == txs[j] && txs[j] in txs;
    }
    assert all[|txs|] == reward;
  }

  /** Where a chosen transaction was kept. */
  lemma {:induction false} ChosenPlace(kept: seq<Transaction>, k: nat) returns (m: nat)
    requires k < |Screen(kept).good|
    ensures m < |kept| && kept[m] == Screen(kept).good[k]
    ensures forall u :: u in Screen(kept).good[..k] ==> u in kept
    decreases |kept|
  {
    ScreenSubList(kept);
    SubListMembers(Screen(kept).good, kept);
    assert Screen(kept).good[k] in Screen(kept).good;
    m :| 0 <= m < |kept| && kept[m] == Screen(kept).good[k];
  }

  lemma ChosenAccepted(c: Chain, crypto: Crypto, list: seq<Transaction>, k: nat)
    requires c.Valid() && k < |Chosen(c, crypto, list)| && !Chosen(c, crypto, list)[k].IsCoinbase()
    requires forall u, v :: u in list && v in list && u.id == v.id ==> u == v
    ensures var txs := Chosen(c, crypto, list);
            Accepts(c, crypto, txs[k], txs[..k], c.top) <==> InputsHeld(c, txs[k], txs[..k])
  {
    var kept, txs := Kept(c, crypto, list), Chosen(c, crypto, list);
    var m := ChosenPlace(kept, k);
    KeptAccepted(c, crypto, list, m);
    KeptSubList(c, crypto, list);
    SubListMembers(kept, list);
    assert forall u :: u in kept[..m] ==> u in kept;
    AcceptedAfter(c, crypto, txs[k], kept[..m], txs[..k]);
  }

  lemma ChosenOrdinary(c: Chain, crypto: Crypto, pool: PoolMap, list: seq<Transaction>)
    requires c.Valid() && PoolOk(pool) && Drawn(pool, list)
    ensures forall tx :: tx in Chosen(c, crypto, list) ==> tx in list && !tx.IsCoinbase()
  {
    var kept := Kept(c, crypto, list);
    KeptSubList(c, crypto, list);
    SubListMembers(kept, list);
    ScreenSubList(kept);
    SubListMembers(Screen(kept).good, kept);
  }

  lemma BlockTxs(c: Chain, crypto: Crypto, txs: seq<Transaction>, reward: Transaction, b: Block)
    requires c.Valid() && IsReward(reward) && b.txs == txs + [reward] && b.prev == c.top
    ensures AllAccepted(c, crypto, b, |b.txs|) <==>
            forall k {:trigger txs[k]} :: 0 <= k < |txs| ==> Accepts(c, crypto, txs[k], txs[..k], c.top)
  {
    forall k | 0 <= k < |txs| ensures AcceptedAt(c, crypto, b, k) <==> Accepts(c, crypto, txs[k], txs[..k], c.top) {
      assert b.txs[k] == txs[k] && b.txs[..k] == txs[..k];
    }
    assert b.txs[|txs|] == reward && AcceptedAt(c, crypto, b, |txs|);
  }

  /**
   The block made of what the node chose from its pool passes the node's own checks on an
   unchanged tip exactly when there are enough transactions and none takes an input from a
   transaction that screening dropped.
   */
  lemma PreparedPassesIff(c: Chain, crypto: Crypto, pool: PoolMap, list: seq<Transaction>, reward: Transaction,
                          timestamp: int, hash: Bytes, nonce: int)
    requires c.Valid() && PoolOk(pool) && Drawn(pool, list) && IsReward(reward)
    ensures var txs := Chosen(c, crypto, list);
            BlockChecks(c, crypto, BlockOf(c, txs, reward, timestamp, hash, nonce)) <==> Enough(c, txs) && ClosedChoice(c, txs)
  {
    var txs := Chosen(c, crypto, list);
    var b := BlockOf(c, txs, reward, timestamp, hash, nonce);
    ChosenOrdinary(c, crypto, pool, list);
    RewardLast(txs, reward);
    BlockTxs(c, crypto, txs, reward, b);
    CountMeans(b.height, |txs|);
    forall k {:trigger txs[k]} | 0 <= k < |txs|
      ensures Accepts(c, crypto, txs[k], txs[..k], c.top) <==> InputsHeld(c, txs[k], txs[..k])
    {
      assert txs[k] in txs;
      ChosenAccepted(c, crypto, list, k);
    }
  }

  lemma DrawnDisjoint(pool: PoolMap, list: seq<Transaction>)
    requires PoolOk(pool) && Drawn(pool, list) && forall id :: id in pool ==> DistinctRefs(pool[id].vin)
    ensures InputsDisjoint(list)
  {
    forall i | 0 <= i < |list| ensures DistinctRefs(list[i].vin) {
      assert list[i] in list;
    }
    forall i, j | 0 <= i < j < |list| ensures !SharesInput(list[i], list[j]) {
      assert list[i] in list && list[j] in list;
    }
  }

  lemma {:induction false} SubListDisjoint(a: seq<Transaction>, b: seq<Transaction>)
    requires SubList(a, b) && InputsDisjoint(b)
    ensures InputsDisjoint(a)
    decreases |b|
  {
    if b != [] {
      var init, last := b[..|b| - 1], b[|b| - 1];
      InitLast(b);
      InputsDisjointStep(init, last);
      if SubList(a, init) {
        SubListDisjoint(a, init);
      } else {
        var fewer := a[..|a| - 1];
        SubListDisjoint(fewer, init);
        SubListMembers(fewer, init);
        InputsDisjointStep(fewer, last);
        assert a == fewer + [last];
      }
    }
  }

  /**
   A block prepared from a pool of pairwise and internally input-disjoint transactions passes
   the count, reward and transaction checks of the node's own VerifyBlock on an unchanged tip.
   */
  lemma PreparedPasses(c: Chain, crypto: Crypto, pool: PoolMap, list: seq<Transaction>, reward: Transaction,
                       timestamp: int, hash: Bytes, nonce: int)
    requires c.Valid() && PoolOk(pool) && Drawn(pool, list) && IsReward(reward)
    requires forall id :: id in pool ==> DistinctRefs(pool[id].vin)
    requires Enough(c, Chosen(c, crypto, list))
    ensures Chosen(c, crypto, list) == Kept(c, crypto, list)
    ensures BlockChecks(c, crypto, BlockOf(c, Chosen(c, crypto, list), reward, timestamp, hash, nonce))
  {
    var kept := Kept(c, crypto, list);
    DrawnDisjoint(pool, list);
    KeptSubList(c, crypto, list);
    SubListDisjoint(kept, list);
    ScreenKeepsAll(kept);
    ChosenOrdinary(c, crypto, pool, list);
    forall k {:trigger kept[k]} | 0 <= k < |kept| ensures InputsHeld(c, kept[k], kept[..k]) {
      assert kept[k] in kept;
      KeptAccepted(c, crypto, list, k);
      AcceptedHolds(c, crypto, kept[k], kept[..k]);
    }
    PreparedPassesIff(c, crypto, pool, list, reward, timestamp, hash, nonce);
  }
}

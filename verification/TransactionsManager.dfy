/**
 Verification of transactions against the chain, and the hooks that keep the caches in step
 with the main chain (node/transactions/manager.go).
 */
module TransactionsManager {
  import opened Structures
  import opened BlockTree
  import opened Blockchain
  import opened Ledger
  import opened Soundness
  import opened TransactionIndex
  import opened Cancellation
  import opened TransactionRules
  import opened Pool
  import opened Acceptance
  import opened Preparation
  import opened PreparedBy
  import opened CoinSelection
  import opened Money
  import opened Balance
  import opened QuickCheck
  import opened OutputRecords
  import opened UnspentOutputs
  import opened Payment

  /** The first n inputs whose transaction is not on the path of the tip. */
  ghost function Unresolved(t: Tree, tx: Transaction, n: nat, tip: Bytes): seq<MissingInput>
    requires t.Valid() && tip in t.blocks && n <= |tx.vin|
  {
    if n == 0 then []
    else Unresolved(t, tx, n - 1, tip) + if Resolve(t, tx.vin[n - 1].txid, tip).None? then [MissingInput(n - 1, tx.vin[n - 1])] else []
  }

  ghost function Found(t: Tree, id: Bytes, tip: Bytes): Option<Transaction>
    requires t.Valid() && tip in t.blocks
  {
    if Resolve(t, id, tip).Some? then Some(Resolve(t, id, tip).value.tx) else None
  }

  /** The transactions found for the first n inputs. */
  ghost function FoundTXs(t: Tree, tx: Transaction, n: nat, tip: Bytes): InputTXs
    requires t.Valid() && tip in t.blocks && n <= |tx.vin|
  {
    if n == 0 then map[] else FoundTXs(t, tx, n - 1, tip)[n - 1 := Found(t, tx.vin[n - 1].txid, tip)]
  }

  lemma {:induction false} FoundTXsMeans(t: Tree, tx: Transaction, n: nat, tip: Bytes)
    requires t.Valid() && tip in t.blocks && n <= |tx.vin|
    ensures forall x: nat :: x in FoundTXs(t, tx, n, tip) <==> x < n
    ensures forall x: nat :: x < n ==> FoundTXs(t, tx, n, tip)[x] == Found(t, tx.vin[x].txid, tip)
    decreases n
  {
    if n > 0 {
      FoundTXsMeans(t, tx, n - 1, tip);
    }
  }

  lemma {:induction false} UnresolvedMeans(t: Tree, tx: Transaction, n: nat, tip: Bytes)
    requires t.Valid() && tip in t.blocks && n <= |tx.vin|
    ensures forall i :: 0 <= i < |Unresolved(t, tx, n, tip)| ==>
              var m := Unresolved(t, tx, n, tip)[i];
              m.ind < n && m.vin == tx.vin[m.ind] && Resolve(t, m.vin.txid, tip).None?
    ensures forall i, j :: 0 <= i < j < |Unresolved(t, tx, n, tip)| ==>
              Unresolved(t, tx, n, tip)[i].ind < Unresolved(t, tx, n, tip)[j].ind
    ensures forall x: nat :: x < n && Resolve(t, tx.vin[x].txid, tip).None? ==>
              MissingInput(x, tx.vin[x]) in Unresolved(t, tx, n, tip)
    decreases n
  {
    if n > 0 {
      UnresolvedMeans(t, tx, n - 1, tip);
    }
  }

  lemma UnresolvedPlace(t: Tree, tx: Transaction, tip: Bytes, x: nat) returns (i: nat)
    requires t.Valid() && tip in t.blocks && x < |tx.vin| && Resolve(t, tx.vin[x].txid, tip).None?
    ensures i < |Unresolved(t, tx, |tx.vin|, tip)| && Unresolved(t, tx, |tx.vin|, tip)[i] == MissingInput(x, tx.vin[x])
  {
    UnresolvedMeans(t, tx, |tx.vin|, tip);
    i :| 0 <= i < |Unresolved(t, tx, |tx.vin|, tip)| && Unresolved(t, tx, |tx.vin|, tip)[i] == MissingInput(x, tx.vin[x]);
  }

  lemma ResolvedNoPlace(t: Tree, tx: Transaction, tip: Bytes, x: nat)
    requires t.Valid() && tip in t.blocks && (x < |tx.vin| ==> Resolve(t, tx.vin[x].txid, tip).Some?)
    ensures forall i :: 0 <= i < |Unresolved(t, tx, |tx.vin|, tip)| ==> Unresolved(t, tx, |tx.vin|, tip)[i].ind != x
  {
    UnresolvedMeans(t, tx, |tx.vin|, tip);
  }

  lemma UnresolvedInOrder(t: Tree, tx: Transaction, tip: Bytes)
    requires t.Valid() && tip in t.blocks
    ensures forall i, j :: 0 <= i < j < |Unresolved(t, tx, |tx.vin|, tip)| ==>
              Unresolved(t, tx, |tx.vin|, tip)[i].ind < Unresolved(t, tx, |tx.vin|, tip)[j].ind
  {
    UnresolvedMeans(t, tx, |tx.vin|, tip);
  }

  lemma UnresolvedNamedOnce(t: Tree, tx: Transaction, tip: Bytes)
    requires t.Valid() && tip in t.blocks
    ensures NamedOnce(Unresolved(t, tx, |tx.vin|, tip)) <==> PendingNamedOnce(t, tx, tip)
  {
    var us := Unresolved(t, tx, |tx.vin|, tip);
    UnresolvedInOrder(t, tx, tip);
    if NamedOnce(us) {
      forall x, y | 0 <= x < y < |tx.vin| && Resolve(t, tx.vin[x].txid, tip).None? && Resolve(t, tx.vin[y].txid, tip).None?
        ensures Ref(tx.vin[x]) != Ref(tx.vin[y])
      {
        var i := UnresolvedPlace(t, tx, tip, x);
        var j := UnresolvedPlace(t, tx, tip, y);
        assert i < j;
      }
    }
    if PendingNamedOnce(t, tx, tip) {
      PendingOnceListed(t, tx, tip);
    }
  }

  lemma PendingOnceListed(t: Tree, tx: Transaction, tip: Bytes)
    requires t.Valid() && tip in t.blocks && PendingNamedOnce(t, tx, tip)
    ensures NamedOnce(Unresolved(t, tx, |tx.vin|, tip))
  {
    var us := Unresolved(t, tx, |tx.vin|, tip);
    UnresolvedMeans(t, tx, |tx.vin|, tip);
    forall i, j | 0 <= i < j < |us| ensures Ref(us[i].vin) != Ref(us[j].vin) {
      var x, y := us[i].ind, us[j].ind;
      assert us[i].vin == tx.vin[x] && us[j].vin == tx.vin[y];
    }
  }

  lemma {:induction false} FilledAt(inputTXs: InputTXs, us: seq<MissingInput>, before: seq<Transaction>, x: nat)
    requires forall i, j :: 0 <= i < j < |us| ==> us[i].ind < us[j].ind
    ensures (forall i :: 0 <= i < |us| ==> us[i].ind != x) ==>
              (x in Filled(inputTXs, us, before) <==> x in inputTXs)
              && (x in inputTXs ==> Filled(inputTXs, us, before)[x] == inputTXs[x])
    ensures forall i :: 0 <= i < |us| && us[i].ind == x ==>
              x in Filled(inputTXs, us, before) && Filled(inputTXs, us, before)[x] == FirstWithId(before, us[i].vin.txid)
    decreases |us|
  {
    if us != [] {
      FilledAt(inputTXs, us[..|us| - 1], before, x);
    }
  }

  lemma FilledIsPrevAt(t: Tree, tx: Transaction, before: seq<Transaction>, tip: Bytes, x: nat)
    requires t.Valid() && tip in t.blocks
    ensures var filled := Filled(FoundTXs(t, tx, |tx.vin|, tip), Unresolved(t, tx, |tx.vin|, tip), before);
            && (x in filled <==> x < |tx.vin|)
            && (x < |tx.vin| ==> filled[x] == PrevTX(t, tx.vin[x].txid, before, tip))
  {
    UnresolvedInOrder(t, tx, tip);
    FoundTXsMeans(t, tx, |tx.vin|, tip);
    FilledAt(FoundTXs(t, tx, |tx.vin|, tip), Unresolved(t, tx, |tx.vin|, tip), before, x);
    if x < |tx.vin| && Resolve(t, tx.vin[x].txid, tip).None? {
      var i := UnresolvedPlace(t, tx, tip, x);
    } else {
      ResolvedNoPlace(t, tx, tip, x);
    }
  }

  lemma FilledIsPrev(t: Tree, tx: Transaction, before: seq<Transaction>, tip: Bytes)
    requires t.Valid() && tip in t.blocks
    ensures Filled(FoundTXs(t, tx, |tx.vin|, tip), Unresolved(t, tx, |tx.vin|, tip), before) == PrevTXs(t, tx, before, tip)
  {
    var filled := Filled(FoundTXs(t, tx, |tx.vin|, tip), Unresolved(t, tx, |tx.vin|, tip), before);
    forall x: nat
      ensures x in filled <==> x < |tx.vin|
      ensures x < |tx.vin| ==> filled[x] == PrevTX(t, tx.vin[x].txid, before, tip)
    {
      FilledIsPrevAt(t, tx, before, tip, x);
    }
    assert filled == PrevTXs(t, tx, before, tip);
  }

  lemma UnlistedFails(t: Tree, crypto: Crypto, tx: Transaction, before: seq<Transaction>, tip: Bytes)
    requires t.Valid() && tip in t.blocks && !tx.IsCoinbase()
    requires !AllListed(Unresolved(t, tx, |tx.vin|, tip), before)
    ensures !Verifies(crypto, tx, PrevTXs(t, tx, before, tip))
  {
    var us := Unresolved(t, tx, |tx.vin|, tip);
    UnresolvedMeans(t, tx, |tx.vin|, tip);
    var i :| 0 <= i < |us| && FirstWithId(before, us[i].vin.txid).None?;
    var x := us[i].ind;
    assert us[i].vin == tx.vin[x];
    assert !HasInput(tx, PrevTXs(t, tx, before, tip), x);
  }

  /** What is known after the first n inputs: none is spent, and which were found and which not. */
  ghost predicate InputState(c: Chain, tx: Transaction, n: nat, tip: Bytes, prev: InputTXs, missing: seq<MissingInput>)
    requires c.Valid() && tip in c.tree.blocks && n <= |tx.vin|
  {
    && InputsFree(c, tx, n, tip)
    && prev == FoundTXs(c.tree, tx, n, tip) && missing == Unresolved(c.tree, tx, n, tip)
  }

  lemma InputNotFree(c: Chain, tx: Transaction, x: nat, tip: Bytes)
    requires c.Valid() && tip in c.tree.blocks && x < |tx.vin| && !InputFree(c, tx.vin[x], tip)
    ensures !InputsFree(c, tx, |tx.vin|, tip)
  {
  }

  lemma InputStateNext(c: Chain, tx: Transaction, n: nat, tip: Bytes, prev: InputTXs, missing: seq<MissingInput>,
                       prev': InputTXs, missing': seq<MissingInput>)
    requires c.Valid() && tip in c.tree.blocks && n < |tx.vin|
    requires InputState(c, tx, n, tip, prev, missing) && InputFree(c, tx.vin[n], tip)
    requires prev' == prev[n := Found(c.tree, tx.vin[n].txid, tip)]
    requires missing' == if Found(c.tree, tx.vin[n].txid, tip).None? then missing + [MissingInput(n, tx.vin[n])] else missing
    ensures InputState(c, tx, n + 1, tip, prev', missing')
  {
  }

  lemma IdsInStep(txs: seq<Transaction>, i: nat)
    requires i < |txs|
    ensures IdsIn(txs[..i + 1]) == IdsIn(txs[..i]) + {txs[i].id}
  {
    assert txs[..i + 1] == txs[..i] + [txs[i]];
  }

  class TXManager {
    const index: TransactionsIndex
    const unspent: UnspentTransactions
    const pool: UnApprovedTransactions
    const crypto: Crypto

    constructor (index: TransactionsIndex, unspent: UnspentTransactions, pool: UnApprovedTransactions, crypto: Crypto)
      ensures this.index == index && this.unspent == unspent && this.pool == pool && this.crypto == crypto
    {
      this.index := index;
      this.unspent := unspent;
      this.pool := pool;
      this.crypto := crypto;
    }

    ghost function Tip(tip: Bytes): Bytes
      reads index.bcMan.db
    {
      if |tip| == 0 then index.bcMan.db.topHash else tip
    }

    /** The chain and the index are in order, and the tip is stored with unique IDs below it. */
    ghost predicate Ready(tip: Bytes)
      reads index.bcMan.db, index.txdb
    {
      && index.bcMan.db.Valid() && index.Exact()
      && (|tip| == 0 || tip in index.bcMan.db.blocks)
      && UniqueIds(Entries(index.bcMan.db.Stored(), Tip(tip)))
    }

    /** The transaction of an ID and its block, as seen from a tip. */
    method FindUnderTip(id: Bytes, tip: Bytes) returns (r: Option<Entry>)
      requires Ready(tip)
      ensures r == Resolve(index.bcMan.db.Stored(), id, Tip(tip))
    {
      ghost var t := index.bcMan.db.Stored();
      var txBlockHashes := index.GetTranactionBlocks(id);
      forall h | h in txBlockHashes ensures h != [] && h in t.blocks && HoldsId(t.blocks[h].txs, id) {
        assert Listed(index.txdb.blockHashes, id, h);
        assert t.Link(h);
      }
      var txBlockHash := index.bcMan.ChooseHashUnderTip(txBlockHashes, tip);
      HeldMeans(t, Tip(tip), id);
      if txBlockHash.value.None? {
        forall h | h in t.Path(Tip(tip)) ensures !HoldsId(t.blocks[h].txs, id) {
          assert h !in txBlockHashes && !Listed(index.txdb.blockHashes, id, h);
        }
        return None;
      }
      var prevTX := index.bcMan.GetTransactionFromBlock(id, txBlockHash.value.value);
      var e := Entry(prevTX.value, txBlockHash.value.value);
      EntrySource(t, Tip(tip), e);
      ResolveUnique(t, Tip(tip), e);
      return Some(e);
    }

    /** Whether an output is recorded as spent between its block and the tip. */
    method IsSpent(vin: TXInput, blockHash: Bytes, tip: Bytes) returns (spent: bool)
      requires Ready(tip) && blockHash in index.bcMan.db.Stored().Path(Tip(tip))
      ensures spent <==> SpentUnder(index.bcMan.State(), Ref(vin), blockHash, Tip(tip))
    {
      var spentouts := index.GetTranactionOutputsSpent(vin.txid, blockHash, tip);
      for i := 0 to |spentouts.value|
        invariant forall j :: 0 <= j < i ==> spentouts.value[j].outInd != vin.vout
      {
        if spentouts.value[i].outInd == vin.vout {
          assert spentouts.value[i] in spentouts.value;
          return true;
        }
      }
      return false;
    }

    /** The transactions of the inputs found under the tip, and the inputs left over; refused when an output is spent. */
    method GetInputTransactionsState(tx: Transaction, tip: Bytes) returns (r: Result<(InputTXs, seq<MissingInput>)>)
      requires Ready(tip)
      ensures tx.IsCoinbase() ==> r == Ok((map[], []))
      ensures !tx.IsCoinbase() ==>
                && (r.Ok? <==> InputsFree(index.bcMan.State(), tx, |tx.vin|, Tip(tip)))
                && (r.Ok? ==> r.value == (FoundTXs(index.bcMan.db.Stored(), tx, |tx.vin|, Tip(tip)),
                                          Unresolved(index.bcMan.db.Stored(), tx, |tx.vin|, Tip(tip))))
    {
      if tx.IsCoinbase() {
        return Ok((map[], []));
      }
      r := LookUpInputs(tx, tip);
    }

    /** The input loop. */
    method LookUpInputs(tx: Transaction, tip: Bytes) returns (r: Result<(InputTXs, seq<MissingInput>)>)
      requires Ready(tip)
      ensures r.Ok? <==> InputsFree(index.bcMan.State(), tx, |tx.vin|, Tip(tip))
      ensures r.Ok? ==> InputState(index.bcMan.State(), tx, |tx.vin|, Tip(tip), r.value.0, r.value.1)
    {
      ghost var c, top := index.bcMan.State(), Tip(tip);
      var prevTXs: InputTXs := map[];
      var badinputs: seq<MissingInput> := [];
      for x := 0 to |tx.vin|
        invariant InputState(c, tx, x, top, prevTXs, badinputs)
      {
        var found := CheckInput(tx.vin[x], tip);
        if found.Err? {
          InputNotFree(c, tx, x, top);
          return Err(InputSpent);
        }
        ghost var prev, missing := prevTXs, badinputs;
        if found.value.None? {
          badinputs := badinputs + [MissingInput(x, tx.vin[x])];
        }
        prevTXs := prevTXs[x := found.value];
        InputStateNext(c, tx, x, top, prev, missing, prevTXs, badinputs);
      }
      return Ok((prevTXs, badinputs));
    }

    /** The transaction of one input as seen from a tip; refused when its output is spent. */
    method CheckInput(vin: TXInput, tip: Bytes) returns (r: Result<Option<Transaction>>)
      requires Ready(tip)
      ensures r.Ok? <==> InputFree(index.bcMan.State(), vin, Tip(tip))
      ensures r.Ok? ==> r.value == Found(index.bcMan.db.Stored(), vin.txid, Tip(tip))
      ensures r.Ok? ==> (r.value.None? <==> Resolve(index.bcMan.db.Stored(), vin.txid, Tip(tip)).None?)
    {
      var e := FindUnderTip(vin.txid, tip);
      if e.None? {
        return Ok(None);
      }
      EntrySource(index.bcMan.db.Stored(), Tip(tip), e.value);
      var spent := IsSpent(vin, e.value.block, tip);
      if spent {
        return Err(InputSpent);
      }
      return Ok(Some(e.value.tx));
    }

    /** Full check of a transaction under a tip; missing inputs may come from the transactions listed before it. */
    method VerifyTransaction(tx: Transaction, prevtxs: seq<Transaction>, tip: Bytes) returns (err: Option<Error>)
      requires Ready(tip)
      ensures err.None? <==> Accepts(index.bcMan.State(), crypto, tx, prevtxs, Tip(tip))
    {
      ghost var t := index.bcMan.db.Stored();
      var state := GetInputTransactionsState(tx, tip);
      if state.Err? {
        return Some(state.error);
      }
      var (inputTXs, notFoundInputs) := state.value;
      if !tx.IsCoinbase() {
        FilledIsPrev(t, tx, prevtxs, Tip(tip));
        UnresolvedNamedOnce(t, tx, Tip(tip));
      }
      if |notFoundInputs| > 0 {
        var filled := pool.CheckInputsWereBefore(notFoundInputs, prevtxs, inputTXs);
        if filled.Err? {
          if !AllListed(notFoundInputs, prevtxs) {
            UnlistedFails(t, crypto, tx, prevtxs, Tip(tip));
          }
          return Some(filled.error);
        }
        inputTXs := filled.value;
      }
      err := Verify(crypto, tx, inputTXs);
    }

    /** Check of a new transaction against the unspent outputs and the pool. */
    method VerifyTransactionQuick(tx: Transaction) returns (err: Option<Error>)
      requires unspent.index == index
      ensures err.None? <==> QuickAccepts(crypto, index.bcMan.db.Stored(), View(unspent.uodb.data), pool.utdb.txs, tx)
    {
      ghost var t, u := index.bcMan.db.Stored(), View(unspent.uodb.data);
      QuickPrevIs(t, u, pool.utdb.txs, tx);
      NotUnspentOnce(u, tx.vin);
      var state := unspent.VerifyTransactionsOutputsAreNotSpent(tx.vin);
      if state.Err? {
        return Some(state.error);
      }
      var (notFoundInputs, inputTXs) := state.value;
      if |notFoundInputs| > 0 {
        var filled := pool.CheckInputsArePrepared(notFoundInputs, inputTXs);
        if filled.Err? {
          return Some(filled.error);
        }
        inputTXs := filled.value;
      }
      err := Verify(crypto, tx, inputTXs);
    }

    /** A new transaction joins the pool when it passes the quick check and conflicts with none there. */
    method ReceivedNewTransaction(tx: Transaction) returns (err: Option<Error>)
      requires unspent.index == index
      modifies pool.utdb
      ensures pool.utdb.txs == PoolAfter(crypto, index.bcMan.db.Stored(), View(unspent.uodb.data), old(pool.utdb.txs), tx)
      ensures err.None? <==> QuickAccepts(crypto, index.bcMan.db.Stored(), View(unspent.uodb.data), old(pool.utdb.txs), tx)
                             && !ConflictsWith(old(pool.utdb.txs), tx)
    {
      err := VerifyTransactionQuick(tx);
      if err.Some? {
        return;
      }
      err := pool.Add(tx);
    }

    /**
     Prepares a payment by a key, not signed yet, with the transactions of its inputs. It uses the
     smallest approved outputs no pending transaction uses and, if they do not suffice, the unused
     outputs of the key in the pool; it fails only when all of them together do not suffice.
     */
    method PrepareNewTransaction(pubKey: Bytes, to: Bytes, amount: real, time: int)
      returns (r: Result<(Transaction, InputTXs)>, ghost sel: Collected)
      requires unspent.index == index && unspent.crypto == crypto
      requires Synced(index.bcMan.db.Stored(), index.bcMan.db.topHash, unspent.uodb.data, pool.utdb.txs)
      ensures IsCollected(crypto, unspent.uodb.data, pool.utdb.txs, crypto.hashPubKey(pubKey), amount, sel)
      ensures r.Ok? <==> SumOf(sel.used) >= amount
      ensures r.Ok? ==> DistinctOps(sel.used) && SpendsUsed(r.value.0, sel.used, crypto.hashPubKey(pubKey), r.value.1)
                        && r.value.0.vout == PaymentOutputs(crypto.hashPubKey(pubKey), to, amount, SumOf(sel.used))
                        && r.value.0.id == [] && r.value.0.time == time
                        && forall x :: 0 <= x < |r.value.0.vin| ==> r.value.0.vin[x].pubKey == pubKey && r.value.0.vin[x].signature == []
    {
      var inputs;
      inputs, sel := CollectInputs(pubKey, amount);
      if inputs.Err? {
        return Err(inputs.error), sel;
      }
      var tx, inputTXs := PrepareNewTransactionComplete(pubKey, to, amount, inputs.value.0, inputs.value.2, inputs.value.1, time);
      CollectedSpends(tx, sel.used, crypto.hashPubKey(pubKey), pubKey, inputs.value.1);
      forall x | 0 <= x < |tx.vin| ensures tx.vin[x].pubKey == pubKey && tx.vin[x].signature == [] {
        InputsOfAt(sel.used, pubKey, x);
      }
      return Ok((tx, inputTXs)), sel;
    }

    /** The first part of PrepareNewTransaction: inputs, their transactions and their total. */
    method CollectInputs(pubKey: Bytes, amount: real)
      returns (r: Result<(seq<TXInput>, map<Bytes, Transaction>, real)>, ghost sel: Collected)
      requires unspent.index == index && unspent.crypto == crypto
      requires Synced(index.bcMan.db.Stored(), index.bcMan.db.topHash, unspent.uodb.data, pool.utdb.txs)
      ensures IsCollected(crypto, unspent.uodb.data, pool.utdb.txs, crypto.hashPubKey(pubKey), amount, sel)
      ensures r.Ok? <==> SumOf(sel.used) >= amount
      ensures r.Ok? ==> r.value.0 == InputsOf(sel.used, pubKey) && r.value.2 == SumOf(sel.used)
                        && DistinctOps(sel.used) && AllUsedOk(sel.used, crypto.hashPubKey(pubKey), r.value.1)
    {
      ghost var t, key, p := index.bcMan.db.Stored(), crypto.hashPubKey(pubKey), pool.utdb.txs;
      var pendinginputs, pendingoutputs, approved, txs := pool.GetPreparedBy(crypto, crypto.hashPubKey(pubKey));
      FreeBacked(crypto, p, txs, key);
      var inputs, prevTXs, totalamount, available, chosen := ApprovedPart(pubKey, amount, pendinginputs);
      ghost var n;
      r, n := PendingPart(pubKey, amount, inputs, prevTXs, totalamount, pendingoutputs, t, p, chosen);
      SelectionMade(available, chosen, pendingoutputs, amount, n);
      sel := Collected(txs, available, chosen, n, chosen + OutsOf(pendingoutputs[..n]));
    }

    /** The approved outputs chosen, as inputs with their transactions. */
    method ApprovedPart(pubKey: Bytes, amount: real, pendinginputs: seq<TXInput>)
      returns (inputs: seq<TXInput>, prevTXs: map<Bytes, Transaction>, totalamount: real, ghost available: seq<UOut>, ghost chosen: seq<UOut>)
      requires unspent.index == index && unspent.crypto == crypto
      requires Synced(index.bcMan.db.Stored(), index.bcMan.db.topHash, unspent.uodb.data, pool.utdb.txs)
      ensures Available(unspent.uodb.data, crypto.hashPubKey(pubKey), pendinginputs, available) && GoodChoice(available, amount, chosen)
      ensures RecordsOk(index.bcMan.db.Stored(), pool.utdb.txs, chosen) && DistinctOps(chosen) && AllOfKey(chosen, crypto.hashPubKey(pubKey))
      ensures inputs == InputsOf(chosen, pubKey) && prevTXs == Holders(index.bcMan.db.Stored(), chosen) && totalamount == SumOf(chosen)
    {
      var first;
      first, available, chosen := unspent.GetNewTransactionInputs(pubKey, amount, pendinginputs);
      AvailableFromCache(unspent.uodb.data, crypto.hashPubKey(pubKey), pendinginputs, available, chosen);
      AllBacked(index.bcMan.db.Stored(), index.bcMan.db.topHash, unspent.uodb.data, pool.utdb.txs, chosen);
      inputs, prevTXs, totalamount := first.value.0, first.value.1, first.value.2;
    }

    /** The pending outputs added when the approved ones do not suffice. */
    method PendingPart(pubKey: Bytes, amount: real, inputs: seq<TXInput>, prevTXs: map<Bytes, Transaction>, totalamount: real,
                       pendingoutputs: seq<PendingOut>, ghost t: Tree, ghost p: PoolMap, ghost chosen: seq<UOut>)
      returns (r: Result<(seq<TXInput>, map<Bytes, Transaction>, real)>, ghost n: nat)
      requires RecordsOk(t, p, chosen) && DistinctOps(chosen) && AllOfKey(chosen, crypto.hashPubKey(pubKey))
      requires inputs == InputsOf(chosen, pubKey) && prevTXs == Holders(t, chosen) && totalamount == SumOf(chosen)
      requires FromPoolOuts(p, pendingoutputs) && DistinctPending(pendingoutputs) && OfKey(pendingoutputs, crypto.hashPubKey(pubKey))
      ensures n <= |pendingoutputs| && (totalamount >= amount ==> n == 0)
      ensures totalamount < amount ==> TakenUpTo(pendingoutputs, amount, totalamount, n)
      ensures var used := chosen + OutsOf(pendingoutputs[..n]);
              && (r.Ok? <==> SumOf(used) >= amount)
              && (r.Ok? ==> r.value.0 == InputsOf(used, pubKey) && r.value.2 == SumOf(used)
                            && DistinctOps(used) && AllUsedOk(used, crypto.hashPubKey(pubKey), r.value.1))
    {
      var inputs', prevTXs', total' := inputs, prevTXs, totalamount;
      n := 0;
      NothingExtended(pendingoutputs, pubKey, inputs, prevTXs, totalamount);
      if totalamount < amount {
        if |pendingoutputs| > 0 {
          inputs', prevTXs', total', n := unspent.ExtendNewTransactionInputs(pubKey, amount, totalamount, inputs, prevTXs, pendingoutputs);
        }
      }
      ExtendedUsed(t, p, crypto.hashPubKey(pubKey), pubKey, chosen, pendingoutputs, n, inputs', prevTXs', total');
      if total' < amount {
        return Err(NotEnoughFunds), n;
      }
      return Ok((inputs', prevTXs', total')), n;
    }

    /** Puts payment and change on the inputs. */
    method PrepareNewTransactionComplete(pubKey: Bytes, to: Bytes, amount: real, inputs: seq<TXInput>, totalamount: real,
                                         prevTXs: map<Bytes, Transaction>, time: int)
      returns (tx: Transaction, inputTXs: InputTXs)
      ensures tx == Transaction([], inputs, PaymentOutputs(crypto.hashPubKey(pubKey), to, amount, totalamount), time)
      ensures inputTXs == InputTransactions(inputs, prevTXs, |inputs|)
    {
      var outputs := [TXOutput(amount, to)];
      if totalamount > amount && totalamount - amount > SMALLEST_UNIT {
        outputs := outputs + [TXOutput(totalamount - amount, crypto.hashPubKey(pubKey))];
      }
      inputTXs := map[];
      for x := 0 to |inputs|
        invariant inputTXs == InputTransactions(inputs, prevTXs, x)
      {
        inputTXs := inputTXs[x := if inputs[x].txid in prevTXs then Some(prevTXs[inputs[x].txid]) else None];
      }
      tx := Transaction([], inputs, outputs, time);
    }

    /** Approved and pending balance of a key; an input that rests on no unspent output is an error. */
    method GetAddressBalance(pubKeyHash: Bytes) returns (r: Result<(real, real, real)>, ghost txs: seq<Transaction>)
      requires Tidy(unspent.uodb.data)
      ensures PoolListing(pool.utdb.txs, txs)
      ensures r.Ok? ==> r.value.0 == Total(Owned(View(unspent.uodb.data), pubKeyHash)) && r.value.2 == r.value.0 + r.value.1
      ensures Settled(crypto, View(unspent.uodb.data), txs) ==>
                r.Ok? && r.value.2 == Total(Owned(AfterPool(View(unspent.uodb.data), txs), pubKeyHash))
    {
      ghost var u := View(unspent.uodb.data);
      var approved, outs := unspent.GetAddressBalance(pubKeyHash);
      ApprovedTotal(unspent.uodb.data, u, pubKeyHash, outs);
      var pending;
      pending, txs := GetAddressPendingBalance(pubKeyHash);
      if pending.Err? {
        return Err(pending.error), txs;
      }
      if Settled(crypto, u, txs) {
        BalanceMeans(crypto, u, txs, pubKeyHash, approved);
      }
      return Ok((approved, pending.value, approved + pending.value)), txs;
    }

    /** What the pool adds to the balance of a key: its unused outputs there less its inputs on approved outputs. */
    method GetAddressPendingBalance(pubKeyHash: Bytes) returns (r: Result<real>, ghost txs: seq<Transaction>)
      ensures PoolListing(pool.utdb.txs, txs)
      ensures var u, inputs, outs := View(unspent.uodb.data), KeyInputs(crypto, txs, pubKeyHash), KeyOutputs(txs, pubKeyHash);
              && (r.Ok? <==> forall i :: i in ApprovedInputs(inputs, outs) ==> Ref(i) in u)
              && (r.Ok? ==> r.value == PendingSum(FreeOutputs(outs, inputs)) - Worth(u, ApprovedInputs(inputs, outs)))
              && (Settled(crypto, u, txs) ==> r.Ok?)
    {
      ghost var u := View(unspent.uodb.data);
      var inputs, outputs, approved;
      inputs, outputs, approved, txs := pool.GetPreparedBy(crypto, pubKeyHash);
      if Settled(crypto, u, txs) {
        ApprovedListed(crypto, u, txs, pubKeyHash);
      }
      var received := SumPending(outputs);
      r := SubtractInputs(received, approved);
    }

    method SumPending(outputs: seq<PendingOut>) returns (sum: real)
      ensures sum == PendingSum(outputs)
    {
      sum := 0.0;
      assert outputs[..0] == [];
      for k := 0 to |outputs|
        invariant sum == PendingSum(outputs[..k])
      {
        assert outputs[..k + 1][..k] == outputs[..k];
        sum := sum + outputs[k].out.value;
      }
      assert outputs[..|outputs|] == outputs;
    }

    method SubtractInputs(start: real, inputs: seq<TXInput>) returns (r: Result<real>)
      ensures r.Ok? <==> forall i :: 0 <= i < |inputs| ==> Ref(inputs[i]) in View(unspent.uodb.data)
      ensures r.Ok? ==> r.value == start - Worth(View(unspent.uodb.data), inputs)
    {
      var left := start;
      assert inputs[..0] == [];
      for i := 0 to |inputs|
        invariant forall j :: 0 <= j < i ==> Ref(inputs[j]) in View(unspent.uodb.data)
        invariant left == start - Worth(View(unspent.uodb.data), inputs[..i])
      {
        assert inputs[..i + 1][..i] == inputs[..i];
        var v := unspent.GetInputValue(inputs[i]);
        if v.Err? {
          return Err(v.error);
        }
        left := left - v.value;
      }
      assert inputs[..|inputs|] == inputs;
      return Ok(left);
    }

    /** Takes a transaction out of the pool. */
    method CancelTransaction(txid: Bytes) returns (err: Option<Error>)
      modifies pool.utdb
      ensures pool.utdb.txs == old(pool.utdb.txs) - {txid}
      ensures err.None? <==> txid in old(pool.utdb.txs)
    {
      var found := pool.Delete(txid);
      return if found then None else Some(TransactionNotFound);
    }

    /**
     The transactions of the pool for a new block: those that verify on the top, less those that
     name an output twice. Every other one that was drawn leaves the pool.
     */
    method GetUnapprovedTransactionsForNewBlock(number: int) returns (r: Result<seq<Transaction>>, ghost list: seq<Transaction>)
      requires Ready([]) && PoolOk(pool.utdb.txs)
      modifies pool.utdb
      ensures Drawn(old(pool.utdb.txs), list) && SortedByTime(list) && |list| == DrawCount(|old(pool.utdb.txs)|, number)
      ensures r.Ok? <==> Kept(index.bcMan.State(), crypto, list) != []
      ensures r.Ok? ==> r.value == Chosen(index.bcMan.State(), crypto, list)
      ensures pool.utdb.txs == old(pool.utdb.txs) - Dropped(index.bcMan.State(), crypto, list)
    {
      var txlist := pool.GetTransactions(number);
      list := txlist;
      var txs := VerifyAll(txlist);
      DroppedIs(index.bcMan.State(), crypto, list, old(pool.utdb.txs));
      if |txs| == 0 {
        return Err(NoTransactions), list;
      }
      txs := DropConflicting(txs);
      return Ok(txs), list;
    }

    /** The screening: transactions that name an output noted before are cancelled. */
    method DropConflicting(txs: seq<Transaction>) returns (good: seq<Transaction>)
      modifies pool.utdb
      ensures good == Screen(txs).good && pool.utdb.txs == old(pool.utdb.txs) - IdsIn(Screen(txs).bad)
    {
      var badtransactions;
      good, badtransactions := pool.DetectConflicts(txs);
      CancelTransactions(badtransactions);
    }

    method CancelTransactions(txs: seq<Transaction>)
      modifies pool.utdb
      ensures pool.utdb.txs == old(pool.utdb.txs) - IdsIn(txs)
    {
      assert IdsIn(txs[..0]) == {};
      for i := 0 to |txs|
        invariant pool.utdb.txs == old(pool.utdb.txs) - IdsIn(txs[..i])
      {
        var _ := CancelTransaction(txs[i].id);
        IdsInStep(txs, i);
      }
      assert txs[..|txs|] == txs;
    }

    /** The verification loop: keeps the transactions accepted on the top, cancels the others. */
    method VerifyAll(txlist: seq<Transaction>) returns (txs: seq<Transaction>)
      requires Ready([])
      modifies pool.utdb
      ensures txs == Kept(index.bcMan.State(), crypto, txlist)
      ensures pool.utdb.txs == old(pool.utdb.txs) - Rejected(index.bcMan.State(), crypto, txlist)
    {
      ghost var c, before := index.bcMan.State(), pool.utdb.txs;
      txs := [];
      assert txlist[..0] == [];
      for i := 0 to |txlist|
        invariant txs == Kept(c, crypto, txlist[..i])
        invariant pool.utdb.txs == before - Rejected(c, crypto, txlist[..i])
      {
        assert txlist[..i + 1][..i] == txlist[..i];
        var err := VerifyTransaction(txlist[i], txs, []);
        if err.None? {
          txs := txs + [txlist[i]];
        } else {
          var _ := CancelTransaction(txlist[i].id);
        }
      }
      assert txlist[..|txlist|] == txlist;
    }

    /** A new block is stored: the index takes it; on top of the chain the pool and the cache follow. */
    method BlockAdded(block: Block, ontopofchain: bool)
      modifies index.txdb, pool.utdb, unspent.uodb
      ensures IndexAdds(old(index.txdb.blockHashes), old(index.txdb.spentOutputs), block, index.txdb.blockHashes, index.txdb.spentOutputs)
      ensures pool.utdb.txs == if ontopofchain then old(pool.utdb.txs) - OrdinaryIds(block.txs) else old(pool.utdb.txs)
      ensures old(Tidy(unspent.uodb.data)) ==> Tidy(unspent.uodb.data)
      ensures View(unspent.uodb.data) ==
              if ontopofchain then ApplyAll(old(View(unspent.uodb.data)), Tag(block)) else old(View(unspent.uodb.data))
    {
      index.BlockAdded(block);
      if ontopofchain {
        pool.DeleteFromBlock(block);
        unspent.UpdateOnBlockAdd(block);
      }
    }

    /** A stored block joins the main chain. */
    method BlockAddedToPrimaryChain(block: Block)
      modifies pool.utdb, unspent.uodb
      ensures pool.utdb.txs == old(pool.utdb.txs) - OrdinaryIds(block.txs)
      ensures View(unspent.uodb.data) == ApplyAll(old(View(unspent.uodb.data)), Tag(block))
      ensures old(Tidy(unspent.uodb.data)) ==> Tidy(unspent.uodb.data)
    {
      pool.DeleteFromBlock(block);
      unspent.UpdateOnBlockAdd(block);
    }

    /** A block leaves the main chain and stays stored. */
    method BlockRemovedFromPrimaryChain(block: Block)
      requires unspent.index == index
      requires index.bcMan.db.Valid() && index.Exact() && block.prev in index.bcMan.db.blocks && |block.prev| > 0
      requires Sound(Entries(index.bcMan.db.Stored(), block.prev) + Tag(block))
      modifies pool.utdb, unspent.uodb
      ensures pool.utdb.txs == Returned(old(pool.utdb.txs), block.txs)
      ensures View(unspent.uodb.data) == Cancelled(index.bcMan.State(), old(View(unspent.uodb.data)), block)
      ensures old(Tidy(unspent.uodb.data)) ==> Tidy(unspent.uodb.data)
    {
      pool.AddFromCanceled(block.txs);
      unspent.UpdateOnBlockCancel(block);
    }
  }
}

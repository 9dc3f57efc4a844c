/**
 The cache of unspent outputs: kept up to date block by block, and rebuilt by a full backward
 scan of the main chain (node/transactions/unspent.go, node/database/unspentoutputs.go).
 */
module UnspentOutputs {
  import opened Structures
  import opened BlockTree
  import opened Blockchain
  import opened Ledger
  import opened Soundness
  import opened TransactionIndex
  import opened Cancellation
  import opened TransactionRules
  import opened Pool
  import opened QuickCheck
  import opened OutputRecords
  import opened CoinSelection

  class UnspentOutputsDB {
    var data: Cache

    constructor ()
      ensures data == map[]
    {
      data := map[];
    }

    /** The keys of the bucket, each once. */
    method Keys() returns (ids: seq<Bytes>)
      ensures Listing(data, ids)
    {
      ids := [];
      var rest := data.Keys;
      while rest != {}
        invariant rest <= data.Keys && Distinct(ids)
        invariant forall id :: id in ids <==> id in data && id !in rest
        decreases |rest|
      {
        var id :| id in rest;
        ids := ids + [id];
        rest := rest - {id};
      }
    }

    method GetDataForTransaction(id: Bytes) returns (r: Option<seq<UOut>>)
      ensures r == if id in data then Some(data[id]) else None
    {
      r := if id in data then Some(data[id]) else None;
    }

    method PutDataForTransaction(id: Bytes, outs: seq<UOut>)
      modifies this
      ensures data == old(data)[id := outs]
    {
      data := data[id := outs];
    }

    method DeleteDataForTransaction(id: Bytes)
      modifies this
      ensures data == old(data) - {id}
    {
      data := data - {id};
    }

    method TruncateDB()
      modifies this
      ensures data == map[]
    {
      data := map[];
    }
  }

  /** The transaction a record names, read from its block. */
  function InBlock(t: Tree, o: UOut): Option<Transaction> {
    if o.blockHash in t.blocks then FirstWithId(t.blocks[o.blockHash].txs, o.txid) else None
  }

  /** The transactions of the listed records, under their IDs. */
  function Holders(t: Tree, outs: seq<UOut>): map<Bytes, Transaction> {
    if outs == [] then map[]
    else
      var before, held := Holders(t, outs[..|outs| - 1]), InBlock(t, outs[|outs| - 1]);
      if held.Some? then before[held.value.id := held.value] else before
  }

  ghost predicate AllInBlocks(t: Tree, outs: seq<UOut>) {
    forall o :: o in outs ==> InBlock(t, o).Some?
  }

  class UnspentTransactions {
    const uodb: UnspentOutputsDB
    const index: TransactionsIndex
    const crypto: Crypto

    constructor (uodb: UnspentOutputsDB, index: TransactionsIndex, crypto: Crypto)
      ensures this.uodb == uodb && this.index == index && this.crypto == crypto
    {
      this.uodb := uodb;
      this.index := index;
      this.crypto := crypto;
    }

    /** Value of the unspent output an input names. */
    method GetInputValue(input: TXInput) returns (r: Result<real>)
      ensures Ref(input) in View(uodb.data) ==> r == Ok(View(uodb.data)[Ref(input)].value)
      ensures Ref(input) !in View(uodb.data) ==> r.Err?
    {
      assert Lookup(uodb.data, Ref(input)) == Get(View(uodb.data), Ref(input));
      var outs := uodb.GetDataForTransaction(input.txid);
      if outs.None? {
        return Err(TransactionNotFound);
      }
      for i := 0 to |outs.value|
        invariant Find(outs.value, input.vout) == Find(outs.value[i..], input.vout)
      {
        if outs.value[i].oIndex == input.vout {
          return Ok(outs.value[i].value);
        }
        assert outs.value[i..][1..] == outs.value[i + 1..];
      }
      return Err(InputNotUnspent);
    }

    /** The unspent outputs of a key. */
    method GetunspentTransactionsOutputs(pubKeyHash: Bytes) returns (outs: seq<UOut>)
      ensures Available(uodb.data, pubKeyHash, [], outs)
    {
      var total;
      total, outs := GatherUsable(pubKeyHash, []);
    }

    /** Their total. */
    method GetAddressBalance(pubKeyHash: Bytes) returns (balance: real, ghost outs: seq<UOut>)
      ensures Available(uodb.data, pubKeyHash, [], outs) && balance == SumOf(outs)
    {
      var unspentTXs := GetunspentTransactionsOutputs(pubKeyHash);
      outs := unspentTXs;
      balance := 0.0;
      assert outs[..0] == [];
      for i := 0 to |unspentTXs|
        invariant balance == SumOf(outs[..i])
      {
        assert outs[..i + 1][..i] == outs[..i];
        balance := balance + unspentTXs[i].value;
      }
      assert outs[..|outs|] == outs;
    }

    /** The smallest outputs of a key that cover the amount, or all of them when they do not. */
    method ChooseSpendableOutputs(pubKeyHash: Bytes, amount: real, pendinguse: seq<TXInput>)
      returns (accumulated: real, unspentOutputs: seq<UOut>, ghost available: seq<UOut>)
      ensures Available(uodb.data, pubKeyHash, pendinguse, available)
      ensures GoodChoice(available, amount, unspentOutputs) && accumulated == SumOf(unspentOutputs)
    {
      accumulated, unspentOutputs := GatherUsable(pubKeyHash, pendinguse);
      available := unspentOutputs;
      if accumulated >= amount {
        var sorted := SortByValue(unspentOutputs);
        SumReordered(sorted, available);
        accumulated, unspentOutputs := TakePrefix(sorted, amount);
        PrefixIsGood(available, sorted, amount, unspentOutputs);
      }
    }

    /** The loop over the bucket: the outputs of the key that no pending transaction uses. */
    method GatherUsable(pubKeyHash: Bytes, pendinguse: seq<TXInput>) returns (accumulated: real, outs: seq<UOut>)
      ensures Available(uodb.data, pubKeyHash, pendinguse, outs) && accumulated == SumOf(outs)
    {
      var ids := uodb.Keys();
      accumulated, outs := 0.0, [];
      assert ids[..0] == [];
      for i := 0 to |ids|
        invariant outs == Gathered(uodb.data, ids[..i], pubKeyHash, pendinguse) && accumulated == SumOf(outs)
      {
        assert ids[i] in ids && ids[..i + 1][..i] == ids[..i];
        var sum, usable := UsableRecords(uodb.data[ids[i]], pubKeyHash, pendinguse);
        SumAppend(outs, usable);
        accumulated, outs := accumulated + sum, outs + usable;
      }
      assert ids[..|ids|] == ids && Listing(uodb.data, ids);
    }

    /** The loop over one record list. */
    method UsableRecords(outs: seq<UOut>, pubKeyHash: Bytes, pendinguse: seq<TXInput>) returns (sum: real, usable: seq<UOut>)
      ensures usable == UsableOf(outs, pubKeyHash, pendinguse) && sum == SumOf(usable)
    {
      sum, usable := 0.0, [];
      assert outs[..0] == [];
      for i := 0 to |outs|
        invariant usable == UsableOf(outs[..i], pubKeyHash, pendinguse) && sum == SumOf(usable)
      {
        assert outs[..i + 1][..i] == outs[..i];
        if outs[i].destPubKeyHash == pubKeyHash {
          var used := IsNamed(pendinguse, outs[i]);
          if !used {
            assert (usable + [outs[i]])[..|usable|] == usable;
            sum, usable := sum + outs[i].value, usable + [outs[i]];
          }
        }
      }
      assert outs[..|outs|] == outs;
    }

    method IsNamed(pendinguse: seq<TXInput>, out: UOut) returns (used: bool)
      ensures used <==> NamedBy(pendinguse, Op(out))
    {
      for k := 0 to |pendinguse|
        invariant forall j :: 0 <= j < k ==> Ref(pendinguse[j]) != Op(out)
      {
        if pendinguse[k].txid == out.txid && pendinguse[k].vout == out.oIndex {
          assert Ref(pendinguse[k]) == Op(out);
          return true;
        }
      }
      return false;
    }

    /** The loop that takes outputs until the amount is reached. */
    method TakePrefix(sorted: seq<UOut>, amount: real) returns (accumulated: real, uo: seq<UOut>)
      requires SumOf(sorted) >= amount
      ensures uo <= sorted && accumulated == SumOf(uo) >= amount
      ensures |uo| > 1 || (uo != [] && amount > 0.0) ==> SumOf(uo[..|uo| - 1]) < amount
    {
      accumulated, uo := 0.0, [];
      assert sorted[..0] == [];
      for i := 0 to |sorted|
        invariant uo == sorted[..i] && accumulated == SumOf(uo) && (i > 0 ==> accumulated < amount)
      {
        assert sorted[..i + 1][..i] == sorted[..i];
        accumulated, uo := accumulated + sorted[i].value, uo + [sorted[i]];
        assert uo == sorted[..i + 1] && uo[..i] == sorted[..i];
        if accumulated >= amount {
          return;
        }
      }
      assert sorted[..|sorted|] == sorted;
    }

    /** The inputs for a payment from approved outputs, with their transactions. */
    method GetNewTransactionInputs(pubKey: Bytes, amount: real, pendinguse: seq<TXInput>)
      returns (r: Result<(seq<TXInput>, map<Bytes, Transaction>, real)>, ghost available: seq<UOut>, ghost chosen: seq<UOut>)
      ensures Available(uodb.data, crypto.hashPubKey(pubKey), pendinguse, available) && GoodChoice(available, amount, chosen)
      ensures r.Ok? <==> AllInBlocks(index.bcMan.db.Stored(), chosen)
      ensures r.Ok? ==> r.value == (InputsOf(chosen, pubKey), Holders(index.bcMan.db.Stored(), chosen), SumOf(chosen))
    {
      var totalamount, validOutputs;
      totalamount, validOutputs, available := ChooseSpendableOutputs(crypto.hashPubKey(pubKey), amount, pendinguse);
      chosen := validOutputs;
      var loaded := LoadInputs(validOutputs, pubKey);
      if loaded.Err? {
        return Err(loaded.error), available, chosen;
      }
      return Ok((loaded.value.0, loaded.value.1, totalamount)), available, chosen;
    }

    /** The loop over the chosen outputs. */
    method LoadInputs(validOutputs: seq<UOut>, pubKey: Bytes) returns (r: Result<(seq<TXInput>, map<Bytes, Transaction>)>)
      ensures r.Ok? <==> AllInBlocks(index.bcMan.db.Stored(), validOutputs)
      ensures r.Ok? ==> r.value == (InputsOf(validOutputs, pubKey), Holders(index.bcMan.db.Stored(), validOutputs))
    {
      ghost var t := index.bcMan.db.Stored();
      var inputs: seq<TXInput> := [];
      var prevTXs: map<Bytes, Transaction> := map[];
      assert validOutputs[..0] == [];
      for i := 0 to |validOutputs|
        invariant inputs == InputsOf(validOutputs[..i], pubKey) && prevTXs == Holders(t, validOutputs[..i])
        invariant AllInBlocks(t, validOutputs[..i])
      {
        var out := validOutputs[i];
        assert validOutputs[..i + 1][..i] == validOutputs[..i];
        var prevTX := LoadFromBlock(out);
        if prevTX.Err? {
          assert out in validOutputs;
          return Err(prevTX.error);
        }
        inputs := inputs + [TXInput(out.txid, out.oIndex, [], pubKey)];
        prevTXs := prevTXs[prevTX.value.id := prevTX.value];
        assert validOutputs[..i + 1] == validOutputs[..i] + [out];
      }
      assert validOutputs[..|validOutputs|] == validOutputs;
      return Ok((inputs, prevTXs));
    }

    method LoadFromBlock(out: UOut) returns (r: Result<Transaction>)
      ensures var held := InBlock(index.bcMan.db.Stored(), out);
              (r.Ok? <==> held.Some?) && (r.Ok? ==> held == Some(r.value) && r.value.id == out.txid)
    {
      r := index.bcMan.GetTransactionFromBlock(out.txid, out.blockHash);
      if out.blockHash in index.bcMan.db.blocks {
        ghost var txs := index.bcMan.db.blocks[out.blockHash].txs;
        if r.Ok? {
          ghost var i :| 0 <= i < |txs| && txs[i] == r.value && txs[i].id == out.txid && forall j :: 0 <= j < i ==> txs[j].id != out.txid;
          FirstIs(txs, out.txid, i);
        } else {
          FirstIsNone(txs, out.txid);
        }
      }
    }

    /** Adds pending outputs to the inputs until the amount is reached. */
    method ExtendNewTransactionInputs(pubKey: Bytes, amount: real, totalamount: real, inputs: seq<TXInput>,
                                      prevTXs: map<Bytes, Transaction>, pendingoutputs: seq<PendingOut>)
      returns (inputs': seq<TXInput>, prevTXs': map<Bytes, Transaction>, totalamount': real, ghost n: nat)
      ensures TakenUpTo(pendingoutputs, amount, totalamount, n)
      ensures Extended(pendingoutputs, pubKey, inputs, prevTXs, totalamount, n, inputs', prevTXs', totalamount')
    {
      inputs', prevTXs', totalamount', n := inputs, prevTXs, totalamount, 0;
      NothingExtended(pendingoutputs, pubKey, inputs, prevTXs, totalamount);
      for i := 0 to |pendingoutputs|
        invariant n == i && NotReached(pendingoutputs, amount, totalamount, i + 1)
        invariant Extended(pendingoutputs, pubKey, inputs, prevTXs, totalamount, i, inputs', prevTXs', totalamount')
      {
        var out := pendingoutputs[i];
        ExtendedStep(pendingoutputs, pubKey, inputs, prevTXs, totalamount, i, inputs', prevTXs', totalamount');
        inputs' := inputs' + [TXInput(out.out.txid, out.out.oIndex, [], pubKey)];
        prevTXs' := prevTXs'[out.tx.id := out.tx];
        totalamount' := totalamount' + out.out.value;
        n := i + 1;
        assert totalamount' >= amount <==> !Short(pendingoutputs, amount, totalamount, i + 1);
        if totalamount' >= amount {
          return;
        }
      }
    }

    /** The inputs that are no unspent output, and the transactions of those that are. */
    method VerifyTransactionsOutputsAreNotSpent(txilist: seq<TXInput>) returns (r: Result<(seq<MissingInput>, InputTXs)>)
      ensures var t, u := index.bcMan.db.Stored(), View(uodb.data);
              && (r.Ok? <==> AllHeld(t, u, txilist))
              && (r.Ok? ==> r.value == (NotUnspent(u, txilist, |txilist|), FoundUnspent(t, u, txilist, |txilist|)))
    {
      ghost var t, u := index.bcMan.db.Stored(), View(uodb.data);
      var notFoundInputs: seq<MissingInput> := [];
      var inputTX: InputTXs := map[];
      for x := 0 to |txilist|
        invariant forall y {:trigger txilist[y]} :: 0 <= y < x && Ref(txilist[y]) in u ==> Holder(t, u, Ref(txilist[y])).Some?
        invariant notFoundInputs == NotUnspent(u, txilist, x) && inputTX == FoundUnspent(t, u, txilist, x)
      {
        var blockHash := FindUnspent(txilist[x]);
        if blockHash.None? {
          notFoundInputs := notFoundInputs + [MissingInput(x, txilist[x])];
          inputTX := inputTX[x := None];
        } else {
          var prevTX := LoadHolder(txilist[x], blockHash.value);
          if prevTX.Err? {
            return Err(prevTX.error);
          }
          inputTX := inputTX[x := Some(prevTX.value)];
        }
      }
      return Ok((notFoundInputs, inputTX));
    }

    /** The block of the unspent output an input names. */
    method FindUnspent(txi: TXInput) returns (blockHash: Option<Bytes>)
      ensures blockHash == if Ref(txi) in View(uodb.data) then Some(View(uodb.data)[Ref(txi)].block) else None
    {
      assert Lookup(uodb.data, Ref(txi)) == Get(View(uodb.data), Ref(txi));
      var outs := uodb.GetDataForTransaction(txi.txid);
      if outs.None? {
        return None;
      }
      for i := 0 to |outs.value|
        invariant Find(outs.value, txi.vout) == Find(outs.value[i..], txi.vout)
      {
        if outs.value[i].oIndex == txi.vout {
          return Some(outs.value[i].blockHash);
        }
        assert outs.value[i..][1..] == outs.value[i + 1..];
      }
      return None;
    }

    method LoadHolder(txi: TXInput, blockHash: Bytes) returns (r: Result<Transaction>)
      requires Ref(txi) in View(uodb.data) && View(uodb.data)[Ref(txi)].block == blockHash
      ensures var held := Holder(index.bcMan.db.Stored(), View(uodb.data), Ref(txi));
              (r.Ok? <==> held.Some?) && (r.Ok? ==> held == Some(r.value))
    {
      r := index.bcMan.GetTransactionFromBlock(txi.txid, blockHash);
      if blockHash in index.bcMan.db.blocks {
        ghost var txs := index.bcMan.db.blocks[blockHash].txs;
        if r.Ok? {
          ghost var i :| 0 <= i < |txs| && txs[i] == r.value && txs[i].id == txi.txid && forall j :: 0 <= j < i ==> txs[j].id != txi.txid;
          FirstIs(txs, txi.txid, i);
        } else {
          FirstIsNone(txs, txi.txid);
        }
      }
    }

    /** A block added on top: the inputs of its transactions go, their outputs come. */
    method UpdateOnBlockAdd(block: Block)
      modifies uodb
      ensures View(uodb.data) == ApplyAll(old(View(uodb.data)), Tag(block))
      ensures old(Tidy(uodb.data)) ==> Tidy(uodb.data)
    {
      ghost var u := View(uodb.data);
      assert Tag(block)[..0] == [];
      for i := 0 to |block.txs|
        invariant Shows(uodb.data, ApplyAll(u, Tag(block)[..i]))
        invariant old(Tidy(uodb.data)) ==> Tidy(uodb.data)
      {
        AddTransaction(block.txs[i], block.hash, ApplyAll(u, Tag(block)[..i]));
        assert Tag(block)[..i + 1][..i] == Tag(block)[..i] && Tag(block)[..i + 1][i] == Entry(block.txs[i], block.hash);
      }
      assert Tag(block)[..|block.txs|] == Tag(block);
      ViewIs(uodb.data, ApplyAll(u, Tag(block)));
    }

    /** One transaction of the block. */
    method AddTransaction(tx: Transaction, blockHash: Bytes, ghost u: Utxo)
      requires Shows(uodb.data, u)
      modifies uodb
      ensures Shows(uodb.data, Apply(u, Entry(tx, blockHash)))
      ensures old(Tidy(uodb.data)) ==> Tidy(uodb.data)
    {
      assert u == RemoveAll(u, {});
      var sender: Bytes := [];
      if !tx.IsCoinbase() {
        sender := SpendInputs(tx, u);
      }
      ghost var mid := uodb.data;
      var newOutputs := OutputsOf(tx, sender, blockHash);
      uodb.PutDataForTransaction(tx.id, newOutputs);
      OutputsPut(u, mid, tx, newOutputs, blockHash);
    }

    /** The input loop of UpdateOnBlockAdd; returns the key hash of the last input. */
    method SpendInputs(tx: Transaction, ghost u: Utxo) returns (sender: Bytes)
      requires !tx.IsCoinbase() && Shows(uodb.data, u)
      modifies uodb
      ensures Shows(uodb.data, RemoveAll(u, Spends(tx)))
      ensures old(Tidy(uodb.data)) ==> Tidy(uodb.data)
    {
      sender := [];
      assert u == RemoveAll(u, RefsBefore(tx, 0));
      for x := 0 to |tx.vin|
        invariant Shows(uodb.data, RemoveAll(u, RefsBefore(tx, x)))
        invariant old(Tidy(uodb.data)) ==> Tidy(uodb.data)
      {
        var vin := tx.vin[x];
        sender := crypto.hashPubKey(vin.pubKey);
        ghost var before := uodb.data;
        TakeInput(vin);
        InputTaken(before, uodb.data, tx, x, u);
      }
      RefsAll(tx);
    }

    /** Takes away the record an input names, and the list of its transaction when it becomes empty. */
    method TakeInput(vin: TXInput)
      modifies uodb
      ensures uodb.data == Taken(old(uodb.data), vin)
      ensures old(Tidy(uodb.data)) ==> Tidy(uodb.data)
    {
      var outs := uodb.GetDataForTransaction(vin.txid);
      if outs.Some? {
        var updatedOuts := DropIndex(outs.value, vin.vout);
        if Tidy(uodb.data) {
          DropTidy(outs.value, vin.txid, vin.vout);
        }
        if |updatedOuts| == 0 {
          uodb.DeleteDataForTransaction(vin.txid);
        } else {
          uodb.PutDataForTransaction(vin.txid, updatedOuts);
        }
      }
    }

    method DropIndex(outs: seq<UOut>, k: int) returns (updatedOuts: seq<UOut>)
      ensures updatedOuts == Drop(outs, k)
    {
      updatedOuts := [];
      for i := 0 to |outs|
        invariant updatedOuts == Drop(outs[..i], k)
      {
        assert outs[..i + 1] == outs[..i] + [outs[i]];
        DropAppend(outs[..i], outs[i], k);
        if outs[i].oIndex != k {
          updatedOuts := updatedOuts + [outs[i]];
        }
      }
      assert outs[..|outs|] == outs;
    }

    method OutputsOf(tx: Transaction, sender: Bytes, blockHash: Bytes) returns (outs: seq<UOut>)
      ensures Lists(outs, tx, |tx.vout|, {}, blockHash) && TidyList(outs, tx.id)
    {
      outs := [];
      for k := 0 to |tx.vout|
        invariant Lists(outs, tx, k, {}, blockHash)
        invariant TidyList(outs, tx.id) && forall i :: 0 <= i < |outs| ==> outs[i].oIndex < k
      {
        var no := LoadFromSimple(tx.vout[k], tx.id, k, sender, tx.IsCoinbase(), blockHash);
        forall j ensures Find(outs + [no], j) == if Find(outs, j).Some? then Find(outs, j) else if no.oIndex == j then Some(no) else None {
          FindAppend(outs, no, j);
        }
        outs := outs + [no];
      }
    }

    /** A block cancelled: its records go, and the records its inputs name are rebuilt from the index. */
    method UpdateOnBlockCancel(block: Block)
      requires index.bcMan.db.Valid() && index.Exact() && block.prev in index.bcMan.db.blocks && |block.prev| > 0
      requires Sound(Entries(index.bcMan.db.Stored(), block.prev) + Tag(block))
      modifies uodb
      ensures View(uodb.data) == Cancelled(index.bcMan.State(), old(View(uodb.data)), block)
      ensures old(Tidy(uodb.data)) ==> Tidy(uodb.data)
    {
      ghost var c, below := index.bcMan.State(), Entries(index.bcMan.db.Stored(), block.prev);
      ghost var u := View(uodb.data);
      MidStart(uodb.data, c, block, u);
      assert (below + Tag(block))[..|below|] == below;
      SoundPrefix(below + Tag(block), |below|);
      assert block.txs[..0] == [];
      for i := 0 to |block.txs|
        invariant MidShown(uodb.data, c, block.prev, u, IdsIn(block.txs[..i]), ReachedIn(block.txs[..i], below))
        invariant old(Tidy(uodb.data)) ==> Tidy(uodb.data)
      {
        var tx := block.txs[i];
        ghost var gone, rebuilt := IdsIn(block.txs[..i]), ReachedIn(block.txs[..i], below);
        PrefixSets(block.txs, i, below);
        IdsNotBelow(below, block, i + 1);
        ghost var before := uodb.data;
        uodb.DeleteDataForTransaction(tx.id);
        RecordGone(c, block.prev, u, gone, rebuilt, tx.id, before, uodb.data);
        if !tx.IsCoinbase() {
          RestoreInputs(block.prev, tx, u, gone + {tx.id}, rebuilt, c, below);
        } else {
          assert rebuilt + ReachedBy(tx, below) == rebuilt;
        }
      }
      assert block.txs[..|block.txs|] == block.txs;
      MidDone(uodb.data, c, block, u);
    }

    /** The chain and the index are in order, below are the entries under prev, and none of the deleted records is of it. */
    ghost predicate Restorable(prev: Bytes, gone: set<Bytes>, c: Chain, below: seq<Entry>)
      reads index.bcMan.db, index.txdb
    {
      && index.bcMan.db.Valid() && index.Exact() && prev in index.bcMan.db.blocks && |prev| > 0
      && c == index.bcMan.State() && below == Entries(index.bcMan.db.Stored(), prev) && UniqueIds(below) && OrdinaryHaveInputs(below)
      && forall id :: id in gone ==> !HasId(below, id)
    }

    /** The input loop of UpdateOnBlockCancel; it ends at the first input that names no transaction of the chain below. */
    method RestoreInputs(prev: Bytes, tx: Transaction, ghost u: Utxo, ghost gone: set<Bytes>, ghost rebuilt: set<Bytes>,
                         ghost c: Chain, ghost below: seq<Entry>)
      requires Restorable(prev, gone, c, below) && !tx.IsCoinbase()
      requires c.Valid() && prev in c.tree.blocks && MidShown(uodb.data, c, prev, u, gone, rebuilt)
      modifies uodb
      ensures MidShown(uodb.data, c, prev, u, gone, rebuilt + ReachedBy(tx, below))
      ensures old(Tidy(uodb.data)) ==> Tidy(uodb.data)
    {
      assert rebuilt + IdsNamed(tx, 0) == rebuilt;
      for x := 0 to |tx.vin|
        invariant NamedBelow(tx, below, x)
        invariant MidShown(uodb.data, c, prev, u, gone, rebuilt + IdsNamed(tx, x))
        invariant old(Tidy(uodb.data)) ==> Tidy(uodb.data)
      {
        var found := RestoreInput(tx.vin[x], prev, tx.IsCoinbase(), u, gone, rebuilt + IdsNamed(tx, x), c, below);
        if !found {
          ReachedStops(tx, below, x);
          return;
        }
        IdsNamedStep(tx, x, rebuilt);
        NamedBelowStep(tx, below, x);
      }
      ReachedStops(tx, below, |tx.vin|);
    }

    /** Rebuilds the record one input names, when its transaction is on the chain below. */
    method RestoreInput(vin: TXInput, prev: Bytes, isBase: bool, ghost u: Utxo, ghost gone: set<Bytes>, ghost rebuilt: set<Bytes>,
                        ghost c: Chain, ghost below: seq<Entry>)
      returns (found: bool)
      requires Restorable(prev, gone, c, below)
      requires c.Valid() && prev in c.tree.blocks && MidShown(uodb.data, c, prev, u, gone, rebuilt)
      modifies uodb
      ensures found <==> HasId(below, vin.txid)
      ensures found ==> MidShown(uodb.data, c, prev, u, gone, rebuilt + {vin.txid})
      ensures !found ==> uodb.data == old(uodb.data)
      ensures old(Tidy(uodb.data)) ==> Tidy(uodb.data)
    {
      var info := index.GetTransactionAllInfo(vin.txid, prev);
      HeldMeans(index.bcMan.db.Stored(), prev, vin.txid);
      if info.value.None? {
        return false;
      }
      RestoreRecord(info.value.value, vin.txid, prev, isBase, u, gone, rebuilt);
      return true;
    }

    /** Rebuilds one record from what the index says of its transaction. */
    method RestoreRecord(info: TxInfo, id: Bytes, prev: Bytes, isBase: bool, ghost u: Utxo, ghost gone: set<Bytes>, ghost rebuilt: set<Bytes>)
      requires index.bcMan.db.Valid() && prev in index.bcMan.db.blocks
      requires UniqueIds(Entries(index.bcMan.db.Stored(), prev)) && OrdinaryHaveInputs(Entries(index.bcMan.db.Stored(), prev))
      requires id !in gone && info.tx.id == id
      requires info.blockHash in index.bcMan.db.Stored().Path(prev) && info.tx in index.bcMan.db.blocks[info.blockHash].txs
      requires forall k :: (exists o :: o in info.spent && o.outInd == k) <==>
                 SpentUnder(index.bcMan.State(), Outpoint(id, k), info.blockHash, prev)
      requires MidShown(uodb.data, index.bcMan.State(), prev, u, gone, rebuilt)
      modifies uodb
      ensures MidShown(uodb.data, index.bcMan.State(), prev, u, gone, rebuilt + {id})
      ensures old(Tidy(uodb.data)) ==> Tidy(uodb.data)
    {
      HeldEntry(index.bcMan.db.Stored(), prev, info.tx, info.blockHash);
      var sender := crypto.hashPubKey(info.tx.vin[0].pubKey);
      ghost var before := uodb.data;
      var outs, skip := UnspentOutputsOf(info.tx, info.spent, sender, isBase, info.blockHash);
      if |outs| > 0 {
        uodb.PutDataForTransaction(id, outs);
      } else {
        uodb.DeleteDataForTransaction(id);
      }
      RecordRebuilt(index.bcMan.State(), prev, u, gone, rebuilt, info.tx, info.blockHash, outs, skip, before, uodb.data);
    }

    /** The outputs of a transaction that no listed spend names. */
    method UnspentOutputsOf(tx: Transaction, spending: seq<SpentOutput>, sender: Bytes, isBase: bool, blockHash: Bytes)
      returns (outs: seq<UOut>, ghost skip: set<int>)
      ensures skip == set o | o in spending :: o.outInd
      ensures Lists(outs, tx, |tx.vout|, skip, blockHash) && TidyList(outs, tx.id)
      ensures outs == [] ==> forall k :: Find(outs, k).None?
    {
      skip := set o | o in spending :: o.outInd;
      outs := [];
      for k := 0 to |tx.vout|
        invariant Lists(outs, tx, k, skip, blockHash)
        invariant TidyList(outs, tx.id) && forall i :: 0 <= i < |outs| ==> outs[i].oIndex < k
      {
        var spent := false;
        for i := 0 to |spending|
          invariant !spent && forall j :: 0 <= j < i ==> spending[j].outInd != k
        {
          if spending[i].outInd == k {
            spent := true;
            break;
          }
        }
        assert spent <==> k in skip;
        if !spent {
          var no := LoadFromSimple(tx.vout[k], tx.id, k, sender, isBase, blockHash);
          forall j ensures Find(outs + [no], j) == if Find(outs, j).Some? then Find(outs, j) else if no.oIndex == j then Some(no) else None {
            FindAppend(outs, no, j);
          }
          outs := outs + [no];
        }
      }
    }

    /** The unspent outputs of the whole main chain, found by walking it backward from the top. */
    method FindunspentTransactions() returns (utxo: Cache)
      requires index.bcMan.db.Valid()
      requires UniqueIds(Entries(index.bcMan.db.Stored(), index.bcMan.db.topHash))
      requires OrdinaryHaveInputs(Entries(index.bcMan.db.Stored(), index.bcMan.db.topHash))
      ensures View(utxo) == Unspent(Entries(index.bcMan.db.Stored(), index.bcMan.db.topHash)) && Tidy(utxo)
    {
      ghost var t, top := index.bcMan.db.Stored(), index.bcMan.db.topHash;
      ghost var all := Entries(t, top);
      utxo := map[];
      var spent: map<Bytes, seq<int>> := map[];
      var bci := new BlockchainIterator(index.bcMan.db, index.bcMan.db.topHash);
      ghost var k, n := 0, |all|;
      assert all[..n] == all;
      while true
        invariant bci.db == index.bcMan.db && 0 <= k < |t.Path(top)| && bci.currentHash == t.Path(top)[k]
        invariant 0 <= n <= |all| && all[..n] == Entries(t, t.Path(top)[k])
        invariant ScanState(all, n, utxo, spent) && Tidy(utxo)
        decreases |t.Path(top)| - k
      {
        PathStep(t, top, k);
        var next := bci.Next();
        var block := next.value;
        assert t.Link(t.Path(top)[k]);
        ghost var m := n - |block.txs|;
        EntriesEnd(t, t.Path(top)[k], all, n);
        utxo, spent := ScanBlock(block, utxo, spent, all, m, n);
        if |block.prev| == 0 {
          assert m == 0;
          break;
        }
        k, n := k + 1, m;
      }
      ScanDone(all, utxo, spent);
    }

    /** The transaction loop of the scan: last transaction first. */
    method ScanBlock(block: Block, utxo0: Cache, spent0: map<Bytes, seq<int>>, ghost all: seq<Entry>, ghost m: nat, ghost n: nat)
      returns (utxo: Cache, spent: map<Bytes, seq<int>>)
      requires n == m + |block.txs| <= |all| && all[m..n] == Tag(block)
      requires UniqueIds(all) && OrdinaryHaveInputs(all) && ScanState(all, n, utxo0, spent0) && Tidy(utxo0)
      ensures ScanState(all, m, utxo, spent) && Tidy(utxo)
    {
      utxo, spent := utxo0, spent0;
      var j := |block.txs| - 1;
      ghost var left := n;
      while j >= 0
        invariant -1 <= j < |block.txs| && left == m + j + 1 && ScanState(all, left, utxo, spent) && Tidy(utxo)
      {
        left := left - 1;
        EntryAt(all, m, n, block, j);
        utxo, spent := ScanTx(block.txs[j], block.hash, utxo, spent, all, left);
        j := j - 1;
      }
    }

    /** One transaction of the scan: its outputs that nothing later spends, then its inputs. */
    method ScanTx(tx: Transaction, hash: Bytes, utxo0: Cache, spent0: map<Bytes, seq<int>>, ghost all: seq<Entry>, ghost n: nat)
      returns (utxo: Cache, spent: map<Bytes, seq<int>>)
      requires n < |all| && all[n] == Entry(tx, hash) && UniqueIds(all) && OrdinaryHaveInputs(all)
      requires ScanState(all, n + 1, utxo0, spent0) && Tidy(utxo0)
      ensures ScanState(all, n, utxo, spent) && Tidy(utxo)
    {
      utxo, spent := utxo0, spent0;
      var sender: Bytes := [];
      if !tx.IsCoinbase() {
        sender := crypto.hashPubKey(tx.vin[0].pubKey);
      }
      ghost var skip: set<int> := if tx.id in spent0 then set o | o in spent0[tx.id] else {};
      NoneKeptLater(all, n, utxo0, spent0);
      for k := 0 to |tx.vout|
        invariant Tidy(utxo)
        invariant forall op {:trigger Lookup(utxo, op)} ::
                    Lookup(utxo, op) == if op.txid != tx.id then Lookup(utxo0, op)
                                        else if 0 <= op.index < k && op.index !in skip then Some(CoinOf(all[n], op.index)) else None
      {
        var isSpent := false;
        if tx.id in spent {
          isSpent := ContainsIndex(spent[tx.id], k);
        }
        if !isSpent {
          ghost var start := utxo;
          if tx.id !in utxo {
            utxo := utxo[tx.id := []];
          }
          assert forall op {:trigger Lookup(utxo, op)} :: Lookup(utxo, op) == Lookup(start, op);
          var oute := LoadFromSimple(tx.vout[k], tx.id, k, sender, tx.IsCoinbase(), hash);
          RecordAppended(utxo, tx.id, oute);
          TidyAppend(utxo, tx.id, oute);
          utxo := utxo[tx.id := utxo[tx.id] + [oute]];
        }
        assert isSpent <==> k in skip;
      }
      if !tx.IsCoinbase() {
        spent := NoteSpends(tx, spent);
      }
      ScanTxDone(all, n, utxo0, spent0, utxo, spent, skip);
    }

    method ContainsIndex(list: seq<int>, k: int) returns (r: bool)
      ensures r <==> k in list
    {
      for i := 0 to |list|
        invariant k !in list[..i]
      {
        if list[i] == k {
          return true;
        }
      }
      return false;
    }

    /** Notes the outputs that the inputs of a transaction spend. */
    method NoteSpends(tx: Transaction, spent0: map<Bytes, seq<int>>) returns (spent: map<Bytes, seq<int>>)
      requires !tx.IsCoinbase()
      ensures forall op :: Noted(spent, op) <==> Noted(spent0, op) || op in Spends(tx)
    {
      spent := spent0;
      for x := 0 to |tx.vin|
        invariant forall op :: Noted(spent, op) <==> Noted(spent0, op) || op in RefsBefore(tx, x)
      {
        var vin := tx.vin[x];
        if vin.txid !in spent {
          spent := spent[vin.txid := []];
        }
        ghost var before := spent;
        spent := spent[vin.txid := spent[vin.txid] + [vin.vout]];
        assert forall op :: Noted(spent, op) <==> Noted(before, op) || op == Ref(vin);
        assert RefsBefore(tx, x + 1) == RefsBefore(tx, x) + {Ref(vin)};
      }
      RefsAll(tx);
    }

    /** Rebuilds the cache from the scan. */
    method Reindex()
      requires index.bcMan.db.Valid()
      requires UniqueIds(Entries(index.bcMan.db.Stored(), index.bcMan.db.topHash))
      requires OrdinaryHaveInputs(Entries(index.bcMan.db.Stored(), index.bcMan.db.topHash))
      modifies uodb
      ensures View(uodb.data) == Unspent(Entries(index.bcMan.db.Stored(), index.bcMan.db.topHash)) && Tidy(uodb.data)
    {
      uodb.TruncateDB();
      var utxo := FindunspentTransactions();
      var rest := utxo.Keys;
      while rest != {}
        invariant rest <= utxo.Keys && uodb.data.Keys == utxo.Keys - rest
        invariant forall id :: id in uodb.data ==> uodb.data[id] == utxo[id]
        decreases |rest|
      {
        var id :| id in rest;
        uodb.PutDataForTransaction(id, utxo[id]);
        rest := rest - {id};
      }
      assert uodb.data == utxo;
    }
  }

  // ----- The backward scan

  ghost predicate Noted(spent: map<Bytes, seq<int>>, op: Outpoint) {
    op.txid in spent && op.index in spent[op.txid]
  }

  /** What the scan has found of an output once only the first n entries are left to visit. */
  ghost function Scanned(all: seq<Entry>, n: int, op: Outpoint): Option<Coin> {
    if exists i :: n <= i && KeptFrom(all, i, op) then
      var i :| n <= i && KeptFrom(all, i, op);
      Some(CoinOf(all[i], op.index))
    else None
  }

  ghost predicate ScanState(all: seq<Entry>, n: int, utxo: Cache, spent: map<Bytes, seq<int>>) {
    && (forall op {:trigger Lookup(utxo, op)} :: Lookup(utxo, op) == Scanned(all, n, op))
    && (forall op {:trigger Noted(spent, op)} :: Noted(spent, op) <==> exists j :: n <= j && SpentAt(all, j, op))
  }

  lemma RecordAppended(utxo: Cache, id: Bytes, o: UOut)
    requires id in utxo
    ensures forall op {:trigger Lookup(utxo[id := utxo[id] + [o]], op)} ::
              Lookup(utxo[id := utxo[id] + [o]], op) ==
              if op == Outpoint(id, o.oIndex) && Lookup(utxo, op).None? then Some(CoinOfOut(o)) else Lookup(utxo, op)
  {
    forall op ensures Lookup(utxo[id := utxo[id] + [o]], op) ==
                      if op == Outpoint(id, o.oIndex) && Lookup(utxo, op).None? then Some(CoinOfOut(o)) else Lookup(utxo, op)
    {
      FindAppend(utxo[id], o, op.index);
    }
  }

  lemma EntryAt(all: seq<Entry>, m: nat, n: nat, b: Block, j: nat)
    requires n == m + |b.txs| <= |all| && all[m..n] == Tag(b) && j < |b.txs|
    ensures all[m + j] == Entry(b.txs[j], b.hash)
  {
    assert all[m + j] == all[m..n][j];
  }

  lemma EntriesEnd(t: Tree, h: Bytes, all: seq<Entry>, n: nat)
    requires t.Valid() && h in t.blocks && n <= |all| && all[..n] == Entries(t, h)
    ensures var tag, m := Tag(t.blocks[h]), n - |t.blocks[h].txs|;
            && 0 <= m && n == m + |tag| && all[m..n] == tag
            && (h == t.genesis ==> m == 0)
            && (h != t.genesis ==> t.blocks[h].prev in t.blocks && all[..m] == Entries(t, t.blocks[h].prev))
  {
    assert t.Link(h);
    var m := n - |t.blocks[h].txs|;
    if h != t.genesis {
      assert all[..n] == Entries(t, t.blocks[h].prev) + Tag(t.blocks[h]);
      assert all[..m] == all[..n][..m];
    }
    assert all[m..n] == all[..n][m..];
  }

  lemma NoneKeptLater(all: seq<Entry>, n: nat, utxo: Cache, spent: map<Bytes, seq<int>>)
    requires n < |all| && UniqueIds(all) && ScanState(all, n + 1, utxo, spent)
    ensures forall op: Outpoint {:trigger Lookup(utxo, op)} :: op.txid == all[n].tx.id ==> Lookup(utxo, op) == None
  {
    forall op: Outpoint | op.txid == all[n].tx.id ensures Scanned(all, n + 1, op) == None {
      assert forall i :: n < i < |all| ==> all[i].tx.id != all[n].tx.id;
    }
  }

  lemma ScanTxDone(all: seq<Entry>, n: nat, utxo0: Cache, spent0: map<Bytes, seq<int>>, utxo: Cache, spent: map<Bytes, seq<int>>, skip: set<int>)
    requires n < |all| && UniqueIds(all) && ScanState(all, n + 1, utxo0, spent0)
    requires forall k :: k in skip <==> Noted(spent0, Outpoint(all[n].tx.id, k))
    requires forall op {:trigger Lookup(utxo, op)} ::
               Lookup(utxo, op) == if op.txid != all[n].tx.id then Lookup(utxo0, op)
                                   else if InRange(all[n].tx, op.index) && op.index !in skip then Some(CoinOf(all[n], op.index)) else None
    requires forall op :: Noted(spent, op) <==> Noted(spent0, op) || op in Spends(all[n].tx)
    ensures ScanState(all, n, utxo, spent)
  {
    forall op ensures Lookup(utxo, op) == Scanned(all, n, op) {
      assert Lookup(utxo0, op) == Scanned(all, n + 1, op);
      if op.txid == all[n].tx.id {
        assert forall i :: n < i < |all| ==> all[i].tx.id != all[n].tx.id;
        assert op == Outpoint(all[n].tx.id, op.index);
        assert Noted(spent0, op) <==> exists j :: n + 1 <= j && SpentAt(all, j, op);
        assert KeptFrom(all, n, op) <==> InRange(all[n].tx, op.index) && op.index !in skip;
      } else {
        ScannedStep(all, n, op);
      }
    }
    forall op ensures Noted(spent, op) <==> exists j :: n <= j && SpentAt(all, j, op) {
      assert Noted(spent0, op) <==> exists j :: n + 1 <= j && SpentAt(all, j, op);
      assert SpentAt(all, n, op) <==> op in Spends(all[n].tx);
    }
  }

  lemma ScannedStep(all: seq<Entry>, n: nat, op: Outpoint)
    requires n < |all| && UniqueIds(all) && op.txid != all[n].tx.id
    ensures Scanned(all, n, op) == Scanned(all, n + 1, op)
  {
    assert !KeptFrom(all, n, op);
    assert forall i, j :: KeptFrom(all, i, op) && KeptFrom(all, j, op) ==> i == j;
  }

  /** A finished scan shows the unspent outputs. */
  lemma ScanDone(all: seq<Entry>, utxo: Cache, spent: map<Bytes, seq<int>>)
    requires UniqueIds(all) && ScanState(all, 0, utxo, spent)
    ensures View(utxo) == Unspent(all)
  {
    forall op ensures Lookup(utxo, op) == Get(Unspent(all), op) {
      UnspentMeaning(all, op);
      assert Lookup(utxo, op) == Scanned(all, 0, op);
      assert forall i :: KeptFrom(all, i, op) ==> 0 <= i;
    }
    ViewIs(utxo, Unspent(all));
  }

  function RemoveAll(u: Utxo, ops: set<Outpoint>): Utxo {
    map op | op in u && op !in ops :: u[op]
  }

  ghost function RefsBefore(tx: Transaction, n: nat): set<Outpoint>
    requires n <= |tx.vin|
  {
    set y | 0 <= y < n :: Ref(tx.vin[y])
  }

  lemma RefsAll(tx: Transaction)
    requires !tx.IsCoinbase()
    ensures RefsBefore(tx, |tx.vin|) == Spends(tx)
  {
    forall op | op in Spends(tx) ensures op in RefsBefore(tx, |tx.vin|) {
      var i :| i in tx.vin && Ref(i) == op;
      var y :| 0 <= y < |tx.vin| && tx.vin[y] == i;
    }
    forall op | op in RefsBefore(tx, |tx.vin|) ensures op in Spends(tx) {
      var y :| 0 <= y < |tx.vin| && Ref(tx.vin[y]) == op;
      assert tx.vin[y] in tx.vin;
    }
  }

  /** The cache without the record an input names. */
  function Taken(data: Cache, vin: TXInput): Cache {
    if vin.txid !in data then data
    else if |Drop(data[vin.txid], vin.vout)| == 0 then data - {vin.txid}
    else data[vin.txid := Drop(data[vin.txid], vin.vout)]
  }

  lemma InputTaken(before: Cache, after: Cache, tx: Transaction, x: nat, u: Utxo)
    requires x < |tx.vin| && Shows(before, RemoveAll(u, RefsBefore(tx, x)))
    requires after == Taken(before, tx.vin[x])
    ensures Shows(after, RemoveAll(u, RefsBefore(tx, x + 1)))
  {
    var vin := tx.vin[x];
    forall op ensures Lookup(after, op) == Get(RemoveAll(u, RefsBefore(tx, x + 1)), op) {
      assert Lookup(before, op) == Get(RemoveAll(u, RefsBefore(tx, x)), op);
      assert op in RefsBefore(tx, x + 1) <==> op in RefsBefore(tx, x) || op == Ref(vin);
      if vin.txid in before {
        FindDrop(before[vin.txid], vin.vout, op.index);
      }
    }
  }

  lemma OutputsPut(u: Utxo, mid: Cache, tx: Transaction, outs: seq<UOut>, blockHash: Bytes)
    requires Shows(mid, RemoveAll(u, Spends(tx))) && Lists(outs, tx, |tx.vout|, {}, blockHash)
    ensures Shows(mid[tx.id := outs], Apply(u, Entry(tx, blockHash)))
  {
    var e := Entry(tx, blockHash);
    forall op ensures Lookup(mid[tx.id := outs], op) == Get(Apply(u, e), op) {
      assert Lookup(mid, op) == Get(RemoveAll(u, Spends(tx)), op);
      assert op in Creates(e) <==> op.txid == tx.id && InRange(tx, op.index);
      assert Find(outs, op.index).Some? <==> InRange(tx, op.index);
    }
  }

  // ----- Midway through a cancellation

  ghost function IdsNamed(tx: Transaction, n: nat): set<Bytes>
    requires n <= |tx.vin|
  {
    set y | 0 <= y < n :: tx.vin[y].txid
  }

  lemma IdsNamedStep(tx: Transaction, x: nat, rebuilt: set<Bytes>)
    requires x < |tx.vin|
    ensures rebuilt + IdsNamed(tx, x + 1) == rebuilt + IdsNamed(tx, x) + {tx.vin[x].txid}
  {
  }

  /** The first n inputs name transactions of the chain below. */
  ghost predicate NamedBelow(tx: Transaction, below: seq<Entry>, n: nat)
    requires n <= |tx.vin|
  {
    forall y {:trigger tx.vin[y]} :: 0 <= y < n ==> HasId(below, tx.vin[y].txid)
  }

  lemma NamedBelowStep(tx: Transaction, below: seq<Entry>, x: nat)
    requires x < |tx.vin| && NamedBelow(tx, below, x) && HasId(below, tx.vin[x].txid)
    ensures NamedBelow(tx, below, x + 1)
  {
  }

  /** The inputs before x are reached and x is not, or x is the end: those are all that is reached. */
  lemma ReachedStops(tx: Transaction, below: seq<Entry>, x: nat)
    requires !tx.IsCoinbase() && x <= |tx.vin| && NamedBelow(tx, below, x)
    requires x < |tx.vin| ==> !HasId(below, tx.vin[x].txid)
    ensures ReachedBy(tx, below) == IdsNamed(tx, x)
  {
    assert forall y :: 0 <= y < |tx.vin| ==> (ReachesInput(tx, below, y) <==> y < x);
  }

  lemma PrefixSets(txs: seq<Transaction>, i: nat, below: seq<Entry>)
    requires i < |txs|
    ensures IdsIn(txs[..i + 1]) == IdsIn(txs[..i]) + {txs[i].id}
    ensures ReachedIn(txs[..i + 1], below) == ReachedIn(txs[..i], below) + ReachedBy(txs[i], below)
  {
    assert txs[..i + 1] == txs[..i] + [txs[i]];
  }

  lemma IdsNotBelow(below: seq<Entry>, b: Block, n: nat)
    requires UniqueIds(below + Tag(b)) && n <= |b.txs|
    ensures forall id :: id in IdsIn(b.txs[..n]) ==> !HasId(below, id)
  {
    forall id | id in IdsIn(b.txs[..n]) ensures !HasId(below, id) {
      assert id in IdsOf(b);
      TagIds(below, b, id);
    }
  }

  ghost function RebuiltCoin(c: Chain, tip: Bytes, op: Outpoint): Option<Coin>
    requires c.Valid() && tip in c.tree.blocks
  {
    var all := AllOutputs(Entries(c.tree, tip));
    if op in all && all[op].block in c.tree.blocks && !SpentUnder(c, op, all[op].block, tip) then Some(all[op]) else None
  }

  /** What is kept of an output once the records of gone are deleted and those of rebuilt are rebuilt. */
  ghost function MidGet(c: Chain, tip: Bytes, u: Utxo, gone: set<Bytes>, rebuilt: set<Bytes>, op: Outpoint): Option<Coin>
    requires c.Valid() && tip in c.tree.blocks
  {
    if op.txid in rebuilt then RebuiltCoin(c, tip, op) else if op.txid in gone then None else Get(u, op)
  }

  ghost predicate MidShown(data: Cache, c: Chain, tip: Bytes, u: Utxo, gone: set<Bytes>, rebuilt: set<Bytes>)
    requires c.Valid() && tip in c.tree.blocks
  {
    forall op {:trigger Lookup(data, op)} :: Lookup(data, op) == MidGet(c, tip, u, gone, rebuilt, op)
  }

  lemma MidStart(data: Cache, c: Chain, b: Block, u: Utxo)
    requires c.Valid() && b.prev in c.tree.blocks && Shows(data, u)
    ensures MidShown(data, c, b.prev, u, IdsIn([]), ReachedIn([], Entries(c.tree, b.prev)))
  {
    assert IdsIn([]) == {} && ReachedIn([], Entries(c.tree, b.prev)) == {};
  }

  lemma MidDone(data: Cache, c: Chain, b: Block, u: Utxo)
    requires c.Valid() && b.prev in c.tree.blocks
    requires MidShown(data, c, b.prev, u, IdsIn(b.txs), ReachedIn(b.txs, Entries(c.tree, b.prev)))
    ensures View(data) == Cancelled(c, u, b)
  {
    forall op ensures Lookup(data, op) == Get(Cancelled(c, u, b), op) {
      CancelledAt(c, u, b, op);
    }
    ViewIs(data, Cancelled(c, u, b));
  }

  lemma CancelledAt(c: Chain, u: Utxo, b: Block, op: Outpoint)
    requires c.Valid() && b.prev in c.tree.blocks
    ensures Get(Cancelled(c, u, b), op) == MidGet(c, b.prev, u, IdsIn(b.txs), ReachedIn(b.txs, Entries(c.tree, b.prev)), op)
  {
  }

  lemma RecordGone(c: Chain, tip: Bytes, u: Utxo, gone: set<Bytes>, rebuilt: set<Bytes>, id: Bytes, before: Cache, after: Cache)
    requires c.Valid() && tip in c.tree.blocks && UniqueIds(Entries(c.tree, tip))
    requires !HasId(Entries(c.tree, tip), id)
    requires MidShown(before, c, tip, u, gone, rebuilt) && after == before - {id}
    ensures MidShown(after, c, tip, u, gone + {id}, rebuilt)
  {
    forall op ensures Lookup(after, op) == MidGet(c, tip, u, gone + {id}, rebuilt, op) {
      assert Lookup(before, op) == MidGet(c, tip, u, gone, rebuilt, op);
      AllOutputsMeaning(Entries(c.tree, tip), op);
    }
  }

  lemma HeldMeans(t: Tree, tip: Bytes, id: Bytes)
    requires t.Valid() && tip in t.blocks
    ensures HeldUnder(t, id, tip) <==> HasId(Entries(t, tip), id)
  {
    var es := Entries(t, tip);
    if h :| h in t.Path(tip) && HoldsId(t.blocks[h].txs, id) {
      var k :| 0 <= k < |t.blocks[h].txs| && t.blocks[h].txs[k].id == id;
      EntrySource(t, tip, Entry(t.blocks[h].txs[k], h));
    }
    if HasId(es, id) {
      var i :| 0 <= i < |es| && es[i].tx.id == id;
      EntrySource(t, tip, es[i]);
      assert es[i] in es;
      var k :| 0 <= k < |t.blocks[es[i].block].txs| && t.blocks[es[i].block].txs[k] == es[i].tx;
      assert HoldsId(t.blocks[es[i].block].txs, id);
    }
  }

  lemma HeldEntry(t: Tree, tip: Bytes, tx: Transaction, hash: Bytes)
    requires t.Valid() && tip in t.blocks && hash in t.Path(tip) && tx in t.blocks[hash].txs
    requires OrdinaryHaveInputs(Entries(t, tip))
    ensures Entry(tx, hash) in Entries(t, tip) && tx.vin != []
  {
    EntrySource(t, tip, Entry(tx, hash));
    var i :| 0 <= i < |Entries(t, tip)| && Entries(t, tip)[i] == Entry(tx, hash);
  }

  /** Rebuilding one record moves the cancellation one step on. */
  lemma RecordRebuilt(c: Chain, tip: Bytes, u: Utxo, gone: set<Bytes>, rebuilt: set<Bytes>, tx: Transaction, hash: Bytes,
                      outs: seq<UOut>, skip: set<int>, before: Cache, after: Cache)
    requires c.Valid() && tip in c.tree.blocks && UniqueIds(Entries(c.tree, tip))
    requires tx.id !in gone && Entry(tx, hash) in Entries(c.tree, tip) && hash in c.tree.blocks
    requires MidShown(before, c, tip, u, gone, rebuilt)
    requires Lists(outs, tx, |tx.vout|, skip, hash)
    requires forall k :: k in skip <==> SpentUnder(c, Outpoint(tx.id, k), hash, tip)
    requires after == if |outs| > 0 then before[tx.id := outs] else before - {tx.id}
    ensures MidShown(after, c, tip, u, gone, rebuilt + {tx.id})
  {
    forall op ensures Lookup(after, op) == MidGet(c, tip, u, gone, rebuilt + {tx.id}, op) {
      assert Lookup(before, op) == MidGet(c, tip, u, gone, rebuilt, op);
      RecordPut(before, tx.id, outs, op);
      if op.txid == tx.id {
        assert op == Outpoint(tx.id, op.index);
        RebuiltShown(c, tip, tx, hash, outs, skip, op);
      }
    }
  }

  /** A list put under an ID, or the ID deleted when the list is empty. */
  lemma RecordPut(before: Cache, id: Bytes, outs: seq<UOut>, op: Outpoint)
    ensures Lookup(if |outs| > 0 then before[id := outs] else before - {id}, op) ==
            if op.txid == id then CoinIn(outs, op.index) else Lookup(before, op)
  {
  }

  function CoinIn(outs: seq<UOut>, k: int): Option<Coin> {
    if Find(outs, k).Some? then Some(CoinOfOut(Find(outs, k).value)) else None
  }

  lemma RebuiltShown(c: Chain, tip: Bytes, tx: Transaction, hash: Bytes, outs: seq<UOut>, skip: set<int>, op: Outpoint)
    requires c.Valid() && tip in c.tree.blocks && UniqueIds(Entries(c.tree, tip))
    requires Entry(tx, hash) in Entries(c.tree, tip) && hash in c.tree.blocks && op.txid == tx.id
    requires Lists(outs, tx, |tx.vout|, skip, hash) && (op.index in skip <==> SpentUnder(c, op, hash, tip))
    ensures CoinIn(outs, op.index) == RebuiltCoin(c, tip, op)
  {
    RebuiltAt(c, tip, tx, hash, op);
  }

  lemma RebuiltAt(c: Chain, tip: Bytes, tx: Transaction, hash: Bytes, op: Outpoint)
    requires c.Valid() && tip in c.tree.blocks && UniqueIds(Entries(c.tree, tip))
    requires Entry(tx, hash) in Entries(c.tree, tip) && hash in c.tree.blocks && op.txid == tx.id
    ensures RebuiltCoin(c, tip, op) ==
            if InRange(tx, op.index) && !SpentUnder(c, op, hash, tip) then Some(CoinOf(Entry(tx, hash), op.index)) else None
  {
    var below := Entries(c.tree, tip);
    var i :| 0 <= i < |below| && below[i] == Entry(tx, hash);
    AllOutputsMeaning(below, op);
    assert CreatedAt(below, i, op) <==> InRange(tx, op.index);
  }
}

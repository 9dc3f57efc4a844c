/**
 The balance of a key, approved plus pending, and what it comes to once every transaction of the
 pool is applied (node/transactions/manager.go:63-89 and 450-498).
 */
module Balance {
  import opened Structures
  import opened Ledger
  import opened OutputRecords
  import opened PreparedBy
  import opened Pool
  import opened Preparation
  import opened CoinSelection
  import opened Money

  function Owned(u: Utxo, key: Bytes): Utxo {
    map op | op in u && u[op].owner == key :: u[op]
  }

  function Only(u: Utxo, ops: set<Outpoint>): Utxo {
    map op | op in u && op in ops :: u[op]
  }

  /** The outputs of the transactions, in no block yet. */
  ghost function PoolOuts(txs: seq<Transaction>): Utxo {
    if txs == [] then map[] else PoolOuts(txs[..|txs| - 1]) + Creates(Entry(txs[|txs| - 1], []))
  }

  /** The unspent outputs once the transactions are applied, in whatever order. */
  ghost function AfterPool(u: Utxo, txs: seq<Transaction>): Utxo {
    (u + PoolOuts(txs)) - RefsOf(txs)
  }

  /** The worth of inputs among the unspent outputs. */
  function Worth(u: Utxo, vin: seq<TXInput>): real {
    if vin == [] then 0.0
    else Worth(u, vin[..|vin| - 1]) + if Ref(vin[|vin| - 1]) in u then u[Ref(vin[|vin| - 1])].value else 0.0
  }

  /** Input i of a transaction of the pool. */
  ghost predicate PoolInput(txs: seq<Transaction>, i: TXInput) {
    exists k :: 0 <= k < |txs| && i in txs[k].vin
  }

  /**
   The pool is free of conflicts and of rewards, its IDs are new, and every input is an unspent
   output or an output of the pool, signed by its owner.
   */
  ghost predicate Settled(crypto: Crypto, u: Utxo, txs: seq<Transaction>) {
    && UniqueTxIds(txs) && InputsDisjoint(txs)
    && (forall k :: 0 <= k < |txs| ==> !txs[k].IsCoinbase())
    && (forall op :: op in u ==> !HasTxId(txs, op.txid))
    && (forall i {:trigger PoolInput(txs, i)} :: PoolInput(txs, i) ==>
          Ref(i) in u + PoolOuts(txs) && (u + PoolOuts(txs))[Ref(i)].owner == crypto.hashPubKey(i.pubKey))
  }

  // ----- Totals of maps and of lists

  lemma UnionLess(a: Utxo, b: Utxo, op: Outpoint)
    requires op in b && op !in a
    ensures (a + b) - {op} == a + (b - {op}) && (a + b)[op] == b[op]
  {
  }

  lemma {:induction false} TotalUnion(a: Utxo, b: Utxo)
    requires forall op :: op in a ==> op !in b
    ensures Total(a + b) == Total(a) + Total(b)
    decreases |b|
  {
    if b.Keys == {} {
      assert a + b == a;
    } else {
      var op :| op in b;
      TotalUnion(a, b - {op});
      TotalBoth(a, b, op);
    }
  }

  lemma TotalBoth(a: Utxo, b: Utxo, op: Outpoint)
    requires op in b && op !in a
    ensures Total(b) == Total(b - {op}) + b[op].value
    ensures Total(a + b) == Total(a + (b - {op})) + b[op].value
  {
    TotalRemove(b, op);
    TotalRemove(a + b, op);
    UnionLess(a, b, op);
  }

  lemma TotalSplit(u: Utxo, ops: set<Outpoint>)
    ensures Total(u) == Total(u - ops) + Total(Only(u, ops))
  {
    assert u == (u - ops) + Only(u, ops);
    TotalUnion(u - ops, Only(u, ops));
  }

  ghost predicate ListsCoins(m: Utxo, outs: seq<UOut>) {
    && DistinctOps(outs)
    && (forall i :: 0 <= i < |outs| ==> Op(outs[i]) in m && m[Op(outs[i])].value == outs[i].value)
    && (forall op :: op in m ==> exists i :: 0 <= i < |outs| && Op(outs[i]) == op)
  }

  lemma ListsLess(m: Utxo, outs: seq<UOut>)
    requires ListsCoins(m, outs) && outs != []
    ensures ListsCoins(m - {Op(outs[|outs| - 1])}, outs[..|outs| - 1])
  {
    var n, rest := m - {Op(outs[|outs| - 1])}, outs[..|outs| - 1];
    forall op | op in n ensures exists i :: 0 <= i < |rest| && Op(rest[i]) == op {
      var i :| 0 <= i < |outs| && Op(outs[i]) == op;
      assert Op(rest[i]) == op;
    }
  }

  lemma {:induction false} TotalOfList(m: Utxo, outs: seq<UOut>)
    requires ListsCoins(m, outs)
    ensures Total(m) == SumOf(outs)
    decreases |outs|
  {
    if outs == [] {
      assert m.Keys == {};
    } else {
      ListsLess(m, outs);
      TotalOfList(m - {Op(outs[|outs| - 1])}, outs[..|outs| - 1]);
      TotalRemove(m, Op(outs[|outs| - 1]));
    }
  }

  ghost predicate ListsInputs(m: Utxo, u: Utxo, vin: seq<TXInput>) {
    && DistinctRefs(vin)
    && (forall i :: 0 <= i < |vin| ==> Ref(vin[i]) in m && Ref(vin[i]) in u && m[Ref(vin[i])].value == u[Ref(vin[i])].value)
    && (forall op :: op in m ==> exists i :: 0 <= i < |vin| && Ref(vin[i]) == op)
  }

  lemma ListsFewer(m: Utxo, u: Utxo, vin: seq<TXInput>)
    requires ListsInputs(m, u, vin) && vin != []
    ensures ListsInputs(m - {Ref(vin[|vin| - 1])}, u, vin[..|vin| - 1])
  {
    var n, rest := m - {Ref(vin[|vin| - 1])}, vin[..|vin| - 1];
    forall op | op in n ensures exists i :: 0 <= i < |rest| && Ref(rest[i]) == op {
      var i :| 0 <= i < |vin| && Ref(vin[i]) == op;
      assert Ref(rest[i]) == op;
    }
  }

  lemma {:induction false} TotalOfInputs(m: Utxo, u: Utxo, vin: seq<TXInput>)
    requires ListsInputs(m, u, vin)
    ensures Total(m) == Worth(u, vin)
    decreases |vin|
  {
    if vin == [] {
      assert m.Keys == {};
    } else {
      ListsFewer(m, u, vin);
      TotalOfInputs(m - {Ref(vin[|vin| - 1])}, u, vin[..|vin| - 1]);
      TotalRemove(m, Ref(vin[|vin| - 1]));
    }
  }

  // ----- The outputs of the pool

  lemma {:induction false} PoolOutsMeans(txs: seq<Transaction>, op: Outpoint)
    requires UniqueTxIds(txs)
    ensures op in PoolOuts(txs) <==> exists k :: 0 <= k < |txs| && txs[k].id == op.txid && InRange(txs[k], op.index)
    ensures forall k :: 0 <= k < |txs| && txs[k].id == op.txid && InRange(txs[k], op.index) ==>
              op in PoolOuts(txs) && PoolOuts(txs)[op] == CoinOf(Entry(txs[k], []), op.index)
    ensures op in PoolOuts(txs) ==> HasTxId(txs, op.txid)
    decreases |txs|
  {
    if txs != [] {
      var init, last := txs[..|txs| - 1], txs[|txs| - 1];
      PoolOutsMeans(init, op);
      assert forall k :: 0 <= k < |init| ==> init[k] == txs[k];
      if op in PoolOuts(txs) && op !in Creates(Entry(last, [])) {
        var k :| 0 <= k < |init| && init[k].id == op.txid && InRange(init[k], op.index);
        assert txs[k].id == op.txid;
      }
      if op in Creates(Entry(last, [])) {
        assert txs[|init|].id == op.txid;
      }
    }
  }

  lemma {:induction false} PaidDistinct(tx: Transaction, key: Bytes, n: nat)
    requires n <= |tx.vout|
    ensures forall p :: p in PaidIn(tx, key, n) ==> p.out.txid == tx.id && 0 <= p.out.oIndex < n
    ensures forall i, j :: 0 <= i < j < |PaidIn(tx, key, n)| ==> PaidIn(tx, key, n)[i].out.oIndex != PaidIn(tx, key, n)[j].out.oIndex
    decreases n
  {
    if n > 0 {
      PaidDistinct(tx, key, n - 1);
      var before := PaidIn(tx, key, n - 1);
      forall i | 0 <= i < |before| ensures before[i].out.oIndex < n - 1 {
        assert before[i] in before;
      }
    }
  }

  ghost predicate DistinctPending(outs: seq<PendingOut>) {
    forall i, j :: 0 <= i < j < |outs| ==> Op(outs[i].out) != Op(outs[j].out)
  }

  lemma {:induction false} KeyOutputsDistinct(txs: seq<Transaction>, key: Bytes)
    requires UniqueTxIds(txs)
    ensures DistinctPending(KeyOutputs(txs, key))
    ensures forall p :: p in KeyOutputs(txs, key) ==> HasTxId(txs, p.out.txid)
    decreases |txs|
  {
    if txs != [] {
      var init, last := txs[..|txs| - 1], txs[|txs| - 1];
      KeyOutputsDistinct(init, key);
      PaidDistinct(last, key, |last.vout|);
      assert forall k :: 0 <= k < |init| ==> init[k] == txs[k];
      JoinPending(KeyOutputs(init, key), PaidIn(last, key, |last.vout|), init, last.id);
      forall p | p in KeyOutputs(txs, key) ensures HasTxId(txs, p.out.txid) {
        if p in KeyOutputs(init, key) {
          var k :| 0 <= k < |init| && init[k].id == p.out.txid;
          assert txs[k].id == p.out.txid;
        } else {
          assert txs[|init|].id == p.out.txid;
        }
      }
    }
  }

  lemma JoinPending(a: seq<PendingOut>, b: seq<PendingOut>, init: seq<Transaction>, id: Bytes)
    requires DistinctPending(a) && !HasTxId(init, id) && forall p :: p in a ==> HasTxId(init, p.out.txid)
    requires forall p :: p in b ==> p.out.txid == id
    requires forall i, j :: 0 <= i < j < |b| ==> b[i].out.oIndex != b[j].out.oIndex
    ensures DistinctPending(a + b)
  {
    var all := a + b;
    forall i, j | 0 <= i < j < |all| ensures Op(all[i].out) != Op(all[j].out) {
      if i < |a| && j >= |a| {
        assert a[i] in a && b[j - |a|] in b;
      }
    }
  }

  lemma {:induction false} FreeDistinct(outs: seq<PendingOut>, inputs: seq<TXInput>)
    requires DistinctPending(outs)
    ensures DistinctPending(FreeOutputs(outs, inputs))
    decreases |outs|
  {
    if outs != [] {
      var init := outs[..|outs| - 1];
      FreeDistinct(init, inputs);
      FreeOutputsMembers(init, inputs);
      var rest := FreeOutputs(init, inputs);
      forall i | 0 <= i < |rest| ensures Op(rest[i].out) != Op(outs[|outs| - 1].out) {
        assert rest[i] in rest && rest[i] in init;
        var m :| 0 <= m < |init| && init[m] == rest[i];
        assert outs[m] == rest[i];
      }
    }
  }

  // ----- The inputs of the key

  lemma {:induction false} SignedDistinct(crypto: Crypto, vin: seq<TXInput>, key: Bytes)
    requires DistinctRefs(vin)
    ensures DistinctRefs(SignedIn(crypto, vin, key)) && RefsIn(SignedIn(crypto, vin, key)) <= RefsIn(vin)
    decreases |vin|
  {
    if vin != [] {
      var init, last := vin[..|vin| - 1], vin[|vin| - 1];
      InitLast(vin);
      RefsStep(init, last);
      SignedDistinct(crypto, init, key);
      SomeMore(SignedIn(crypto, init, key), init, last);
    }
  }

  lemma JoinRefs(a: seq<TXInput>, b: seq<TXInput>)
    requires DistinctRefs(a) && DistinctRefs(b) && RefsIn(a) !! RefsIn(b)
    ensures DistinctRefs(a + b) && RefsIn(a + b) == RefsIn(a) + RefsIn(b)
  {
    var all := a + b;
    forall i, j | 0 <= i < j < |all| ensures Ref(all[i]) != Ref(all[j]) {
      if i < |a| && j >= |a| {
        InRefsIn(a, Ref(all[i]));
        InRefsIn(b, Ref(all[j]));
        assert a[i] == all[i] && b[j - |a|] == all[j];
      }
    }
    forall op ensures op in RefsIn(all) <==> op in RefsIn(a) || op in RefsIn(b) {
      InRefsIn(all, op);
      InRefsIn(a, op);
      InRefsIn(b, op);
      if i :| 0 <= i < |a| && Ref(a[i]) == op { assert Ref(all[i]) == op; }
      if i :| 0 <= i < |b| && Ref(b[i]) == op { assert Ref(all[|a| + i]) == op; }
    }
  }

  lemma {:induction false} KeyInputsDistinct(crypto: Crypto, txs: seq<Transaction>, key: Bytes)
    requires InputsDisjoint(txs)
    ensures DistinctRefs(KeyInputs(crypto, txs, key)) && RefsIn(KeyInputs(crypto, txs, key)) <= RefsOf(txs)
    decreases |txs|
  {
    if txs != [] {
      var init, last := txs[..|txs| - 1], txs[|txs| - 1];
      InitLast(txs);
      InputsDisjointStep(init, last);
      RefsOfStep(init, last);
      KeyInputsDistinct(crypto, init, key);
      SignedDistinct(crypto, last.vin, key);
      JoinRefs(KeyInputs(crypto, init, key), if last.IsCoinbase() then [] else SignedIn(crypto, last.vin, key));
    }
  }

  lemma SomeMore(some: seq<TXInput>, init: seq<TXInput>, last: TXInput)
    requires DistinctRefs(init + [last]) && DistinctRefs(some) && RefsIn(some) <= RefsIn(init)
    ensures DistinctRefs(some + [last]) && RefsIn(some + [last]) <= RefsIn(init + [last]) && RefsIn(some) <= RefsIn(init + [last])
  {
    RefsStep(init, last);
    RefsStep(some, last);
  }

  lemma {:induction false} ApprovedDistinct(inputs: seq<TXInput>, outs: seq<PendingOut>)
    requires DistinctRefs(inputs)
    ensures DistinctRefs(ApprovedInputs(inputs, outs)) && RefsIn(ApprovedInputs(inputs, outs)) <= RefsIn(inputs)
    decreases |inputs|
  {
    if inputs != [] {
      var init, last := inputs[..|inputs| - 1], inputs[|inputs| - 1];
      InitLast(inputs);
      RefsStep(init, last);
      ApprovedDistinct(init, outs);
      SomeMore(ApprovedInputs(init, outs), init, last);
    }
  }

  // ----- The parts of the balance

  ghost function KeyRefs(crypto: Crypto, txs: seq<Transaction>, key: Bytes): set<Outpoint> {
    RefsIn(KeyInputs(crypto, txs, key))
  }

  lemma {:induction false} OutsOfAt(pending: seq<PendingOut>, i: nat)
    requires i < |pending|
    ensures OutsOf(pending)[i] == pending[i].out
    decreases |pending|
  {
    if i < |pending| - 1 {
      OutsOfAt(pending[..|pending| - 1], i);
    }
  }

  lemma PoolInputAt(txs: seq<Transaction>, tx: Transaction, i: TXInput)
    requires tx in txs && i in tx.vin
    ensures PoolInput(txs, i)
  {
    var k :| 0 <= k < |txs| && txs[k] == tx;
  }

  /** An output of a transaction of the pool that is locked with the key is listed. */
  lemma PaidListed(txs: seq<Transaction>, key: Bytes, k: nat, x: nat)
    requires k < |txs| && x < |txs[k].vout| && txs[k].vout[x].pubKeyHash == key
    ensures PendingOutput(txs[k], x) in KeyOutputs(txs, key)
  {
    var p := PendingOutput(txs[k], x);
    PaidInMembers(txs[k], key, |txs[k].vout|, p);
    assert txs[k] in txs;
    KeyOutputsMembers(txs, key, p);
  }

  /** A listed output is an output of the pool that belongs to the key. */
  lemma ListedPaid(txs: seq<Transaction>, key: Bytes, p: PendingOut)
    requires UniqueTxIds(txs) && p in KeyOutputs(txs, key)
    ensures Op(p.out) in PoolOuts(txs) && PoolOuts(txs)[Op(p.out)].owner == key && PoolOuts(txs)[Op(p.out)].value == p.out.value
  {
    KeyOutputsMembers(txs, key, p);
    var tx :| tx in txs && p in PaidIn(tx, key, |tx.vout|);
    PaidInMembers(tx, key, |tx.vout|, p);
    var x :| 0 <= x < |tx.vout| && tx.vout[x].pubKeyHash == key && p == PendingOutput(tx, x);
    var k :| 0 <= k < |txs| && txs[k] == tx;
    PoolOutsMeans(txs, Op(p.out));
  }

  /** An output of the pool that belongs to the key is listed. */
  lemma OwnedListed(txs: seq<Transaction>, key: Bytes, op: Outpoint) returns (p: PendingOut)
    requires UniqueTxIds(txs) && op in PoolOuts(txs) && PoolOuts(txs)[op].owner == key
    ensures p in KeyOutputs(txs, key) && Op(p.out) == op
  {
    PoolOutsMeans(txs, op);
    var k :| 0 <= k < |txs| && txs[k].id == op.txid && InRange(txs[k], op.index);
    PaidListed(txs, key, k, op.index);
    p := PendingOutput(txs[k], op.index);
  }

  lemma UsedByMeans(inputs: seq<TXInput>, out: UOut)
    ensures UsedBy(inputs, out) <==> Op(out) in RefsIn(inputs)
  {
    InRefsIn(inputs, Op(out));
    if i :| 0 <= i < |inputs| && Ref(inputs[i]) == Op(out) {
      assert inputs[i].txid == out.txid && inputs[i].vout == out.oIndex;
    }
    if i :| 0 <= i < |inputs| && inputs[i].txid == out.txid && inputs[i].vout == out.oIndex {
      assert Ref(inputs[i]) == Op(out);
    }
  }

  lemma FreeInside(crypto: Crypto, txs: seq<Transaction>, key: Bytes, p: PendingOut)
    requires UniqueTxIds(txs) && p in FreeOutputs(KeyOutputs(txs, key), KeyInputs(crypto, txs, key))
    ensures var m := Owned(PoolOuts(txs), key) - KeyRefs(crypto, txs, key);
            Op(p.out) in m && m[Op(p.out)].value == p.out.value
  {
    FreeOutputsMembers(KeyOutputs(txs, key), KeyInputs(crypto, txs, key));
    ListedPaid(txs, key, p);
    UsedByMeans(KeyInputs(crypto, txs, key), p.out);
  }

  lemma UnspentIsFree(crypto: Crypto, txs: seq<Transaction>, key: Bytes, op: Outpoint) returns (p: PendingOut)
    requires UniqueTxIds(txs) && op in Owned(PoolOuts(txs), key) - KeyRefs(crypto, txs, key)
    ensures p in FreeOutputs(KeyOutputs(txs, key), KeyInputs(crypto, txs, key)) && Op(p.out) == op
  {
    FreeOutputsMembers(KeyOutputs(txs, key), KeyInputs(crypto, txs, key));
    p := OwnedListed(txs, key, op);
    UsedByMeans(KeyInputs(crypto, txs, key), p.out);
  }

  /** The unused outputs paid to the key are the coins of the key in the pool that it does not spend there. */
  lemma FreeListed(crypto: Crypto, txs: seq<Transaction>, key: Bytes)
    requires UniqueTxIds(txs)
    ensures ListsCoins(Owned(PoolOuts(txs), key) - KeyRefs(crypto, txs, key),
                       OutsOf(FreeOutputs(KeyOutputs(txs, key), KeyInputs(crypto, txs, key))))
  {
    var inputs, outs := KeyInputs(crypto, txs, key), KeyOutputs(txs, key);
    var free := FreeOutputs(outs, inputs);
    var m := Owned(PoolOuts(txs), key) - KeyRefs(crypto, txs, key);
    KeyOutputsDistinct(txs, key);
    FreeDistinct(outs, inputs);
    forall i | 0 <= i < |free|
      ensures Op(OutsOf(free)[i]) in m && m[Op(OutsOf(free)[i])].value == OutsOf(free)[i].value && OutsOf(free)[i] == free[i].out
    {
      OutsOfAt(free, i);
      assert free[i] in free;
      FreeInside(crypto, txs, key, free[i]);
    }
    forall op | op in m ensures exists i :: 0 <= i < |OutsOf(free)| && Op(OutsOf(free)[i]) == op {
      var p := UnspentIsFree(crypto, txs, key, op);
      var i :| 0 <= i < |free| && free[i] == p;
      OutsOfAt(free, i);
      assert Op(OutsOf(free)[i]) == op;
    }
  }

  lemma KeyInputIsPool(crypto: Crypto, txs: seq<Transaction>, key: Bytes, i: TXInput)
    requires i in KeyInputs(crypto, txs, key)
    ensures PoolInput(txs, i) && crypto.hashPubKey(i.pubKey) == key
  {
    KeyInputsMembers(crypto, txs, key, i);
    var tx :| tx in txs && !tx.IsCoinbase() && i in tx.vin;
    PoolInputAt(txs, tx, i);
  }

  /** An input of the key rests on an approved output exactly when that is among the unspent outputs. */
  lemma ApprovedMeans(crypto: Crypto, u: Utxo, txs: seq<Transaction>, key: Bytes, i: TXInput)
    requires Settled(crypto, u, txs) && i in KeyInputs(crypto, txs, key)
    ensures Ref(i) in u ==> u[Ref(i)].owner == key
    ensures UsesOne(KeyOutputs(txs, key), i) <==> Ref(i) !in u
  {
    var outs := KeyOutputs(txs, key);
    KeyInputIsPool(crypto, txs, key, i);
    PoolOutsMeans(txs, Ref(i));
    if UsesOne(outs, i) {
      var k :| 0 <= k < |outs| && i.txid == outs[k].out.txid && i.vout == outs[k].out.oIndex;
      assert outs[k] in outs;
      KeyOutputsDistinct(txs, key);
      assert HasTxId(txs, Ref(i).txid);
    }
    if Ref(i) !in u {
      var p := OwnedListed(txs, key, Ref(i));
      var k :| 0 <= k < |outs| && outs[k] == p;
      assert i.txid == outs[k].out.txid && i.vout == outs[k].out.oIndex;
    }
  }

  lemma ApprovedInside(crypto: Crypto, u: Utxo, txs: seq<Transaction>, key: Bytes, i: TXInput)
    requires Settled(crypto, u, txs) && i in ApprovedInputs(KeyInputs(crypto, txs, key), KeyOutputs(txs, key))
    ensures Ref(i) in u && Ref(i) in Only(Owned(u, key), KeyRefs(crypto, txs, key))
    ensures Only(Owned(u, key), KeyRefs(crypto, txs, key))[Ref(i)] == u[Ref(i)]
  {
    ApprovedInputsMembers(KeyInputs(crypto, txs, key), KeyOutputs(txs, key));
    ApprovedMeans(crypto, u, txs, key, i);
  }

  lemma SpentIsApproved(crypto: Crypto, u: Utxo, txs: seq<Transaction>, key: Bytes, op: Outpoint) returns (i: TXInput)
    requires Settled(crypto, u, txs) && op in u && op in KeyRefs(crypto, txs, key)
    ensures i in ApprovedInputs(KeyInputs(crypto, txs, key), KeyOutputs(txs, key)) && Ref(i) == op
  {
    ApprovedInputsMembers(KeyInputs(crypto, txs, key), KeyOutputs(txs, key));
    i :| i in KeyInputs(crypto, txs, key) && Ref(i) == op;
    ApprovedMeans(crypto, u, txs, key, i);
  }

  /** The inputs of the key on approved outputs are the unspent outputs of the key that it spends in the pool. */
  lemma ApprovedListed(crypto: Crypto, u: Utxo, txs: seq<Transaction>, key: Bytes)
    requires Settled(crypto, u, txs)
    ensures ListsInputs(Only(Owned(u, key), KeyRefs(crypto, txs, key)), u,
                        ApprovedInputs(KeyInputs(crypto, txs, key), KeyOutputs(txs, key)))
  {
    var approved := ApprovedInputs(KeyInputs(crypto, txs, key), KeyOutputs(txs, key));
    var m := Only(Owned(u, key), KeyRefs(crypto, txs, key));
    KeyInputsDistinct(crypto, txs, key);
    ApprovedDistinct(KeyInputs(crypto, txs, key), KeyOutputs(txs, key));
    forall i | 0 <= i < |approved|
      ensures Ref(approved[i]) in m && Ref(approved[i]) in u && m[Ref(approved[i])].value == u[Ref(approved[i])].value
    {
      assert approved[i] in approved;
      ApprovedInside(crypto, u, txs, key, approved[i]);
    }
    forall op | op in m ensures exists i :: 0 <= i < |approved| && Ref(approved[i]) == op {
      var i := SpentIsApproved(crypto, u, txs, key, op);
      var k :| 0 <= k < |approved| && approved[k] == i;
    }
  }

  /** What the key owns after the pool: its coins and those paid to it in the pool, less those it spends there. */
  lemma OwnedAfterPool(crypto: Crypto, u: Utxo, txs: seq<Transaction>, key: Bytes)
    requires Settled(crypto, u, txs)
    ensures var refs := KeyRefs(crypto, txs, key);
            Owned(AfterPool(u, txs), key) == (Owned(u, key) - refs) + (Owned(PoolOuts(txs), key) - refs)
  {
    var refs := KeyRefs(crypto, txs, key);
    var v, w := Owned(AfterPool(u, txs), key), (Owned(u, key) - refs) + (Owned(PoolOuts(txs), key) - refs);
    forall op ensures op in v <==> op in w ensures op in w ==> v[op] == w[op] {
      OwnedAfterPoolAt(crypto, u, txs, key, op);
    }
    assert v.Keys == w.Keys;
  }

  lemma OwnedAfterPoolAt(crypto: Crypto, u: Utxo, txs: seq<Transaction>, key: Bytes, op: Outpoint)
    requires Settled(crypto, u, txs)
    ensures var refs := KeyRefs(crypto, txs, key);
            var v, w := Owned(AfterPool(u, txs), key), (Owned(u, key) - refs) + (Owned(PoolOuts(txs), key) - refs);
            (op in v <==> op in w) && (op in w ==> v[op] == w[op])
  {
    KeyInputsDistinct(crypto, txs, key);
    PoolOutsMeans(txs, op);
    if op in u + PoolOuts(txs) && (u + PoolOuts(txs))[op].owner == key && op in RefsOf(txs) {
      SpentByKey(crypto, u, txs, key, op);
    }
  }

  lemma SpentByKey(crypto: Crypto, u: Utxo, txs: seq<Transaction>, key: Bytes, op: Outpoint)
    requires Settled(crypto, u, txs) && op in RefsOf(txs)
    requires op in u + PoolOuts(txs) && (u + PoolOuts(txs))[op].owner == key
    ensures op in KeyRefs(crypto, txs, key)
  {
    var tx :| tx in txs && op in RefsIn(tx.vin);
    var i :| i in tx.vin && Ref(i) == op;
    PoolInputAt(txs, tx, i);
    var k :| 0 <= k < |txs| && txs[k] == tx;
    KeyInputsMembers(crypto, txs, key, i);
  }

  /** Approved less spent plus received is what the key owns after the pool. */
  lemma BalanceMeans(crypto: Crypto, u: Utxo, txs: seq<Transaction>, key: Bytes, approved: real)
    requires Settled(crypto, u, txs) && approved == Total(Owned(u, key))
    ensures var inputs, outs := KeyInputs(crypto, txs, key), KeyOutputs(txs, key);
            approved + (PendingSum(FreeOutputs(outs, inputs)) - Worth(u, ApprovedInputs(inputs, outs)))
            == Total(Owned(AfterPool(u, txs), key))
  {
    var inputs, outs, refs := KeyInputs(crypto, txs, key), KeyOutputs(txs, key), KeyRefs(crypto, txs, key);
    FreeListed(crypto, txs, key);
    TotalOfList(Owned(PoolOuts(txs), key) - refs, OutsOf(FreeOutputs(outs, inputs)));
    PendingSumIs(FreeOutputs(outs, inputs));
    ApprovedListed(crypto, u, txs, key);
    TotalOfInputs(Only(Owned(u, key), refs), u, ApprovedInputs(inputs, outs));
    TotalSplit(Owned(u, key), refs);
    OwnedAfterPool(crypto, u, txs, key);
    DisjointParts(crypto, u, txs, key, refs);
  }

  lemma DisjointParts(crypto: Crypto, u: Utxo, txs: seq<Transaction>, key: Bytes, refs: set<Outpoint>)
    requires Settled(crypto, u, txs)
    ensures Total((Owned(u, key) - refs) + (Owned(PoolOuts(txs), key) - refs))
            == Total(Owned(u, key) - refs) + Total(Owned(PoolOuts(txs), key) - refs)
  {
    forall op | op in Owned(u, key) - refs ensures op !in Owned(PoolOuts(txs), key) - refs {
      PoolOutsMeans(txs, op);
    }
    TotalUnion(Owned(u, key) - refs, Owned(PoolOuts(txs), key) - refs);
  }

  // ----- The approved part

  lemma RecordShown(data: Cache, u: Utxo, o: UOut, id: Bytes)
    requires Tidy(data) && Shows(data, u) && id in data && o in data[id]
    ensures Op(o) in u && u[Op(o)] == CoinOfOut(o)
  {
    var i :| 0 <= i < |data[id]| && data[id][i] == o;
    FindMember(data[id], id, i);
    assert Lookup(data, Op(o)) == Get(u, Op(o));
  }

  lemma ShownRecord(data: Cache, u: Utxo, op: Outpoint) returns (o: UOut)
    requires Tidy(data) && Shows(data, u) && op in u
    ensures op.txid in data && o in data[op.txid] && Op(o) == op && CoinOfOut(o) == u[op]
  {
    assert Lookup(data, op) == Get(u, op);
    o := Find(data[op.txid], op.index).value;
  }

  /** In a tidy cache the listed outputs of a key are its coins, each once. */
  lemma ApprovedIsOwned(data: Cache, u: Utxo, ids: seq<Bytes>, key: Bytes)
    requires Tidy(data) && Shows(data, u) && Listing(data, ids)
    ensures ListsCoins(Owned(u, key), Gathered(data, ids, key, []))
    ensures SumOf(Gathered(data, ids, key, [])) == Total(Owned(u, key))
  {
    var outs := Gathered(data, ids, key, []);
    GatheredDistinct(data, ids, key, []);
    forall i | 0 <= i < |outs| ensures Op(outs[i]) in Owned(u, key) && Owned(u, key)[Op(outs[i])].value == outs[i].value {
      assert outs[i] in outs;
      GatheredMembers(data, ids, key, [], outs[i]);
      var id :| id in ids && outs[i] in data[id];
      RecordShown(data, u, outs[i], id);
    }
    forall op | op in Owned(u, key) ensures exists i :: 0 <= i < |outs| && Op(outs[i]) == op {
      var o := ShownRecord(data, u, op);
      GatheredMembers(data, ids, key, [], o);
      assert o in outs;
      var i :| 0 <= i < |outs| && outs[i] == o;
    }
    TotalOfList(Owned(u, key), outs);
  }

  lemma ApprovedTotal(data: Cache, u: Utxo, key: Bytes, outs: seq<UOut>)
    requires Tidy(data) && Shows(data, u) && Available(data, key, [], outs)
    ensures SumOf(outs) == Total(Owned(u, key))
  {
    var ids :| Listing(data, ids) && outs == Gathered(data, ids, key, []);
    ApprovedIsOwned(data, u, ids, key);
  }

  // ----- Applying the pool

  function Pending(txs: seq<Transaction>): (es: seq<Entry>)
    ensures |es| == |txs|
  {
    if txs == [] then [] else Pending(txs[..|txs| - 1]) + [Entry(txs[|txs| - 1], [])]
  }

  /** No transaction of the list spends an output of itself or of a later one. */
  ghost predicate InOrder(txs: seq<Transaction>) {
    forall k, op: Outpoint :: 0 <= k < |txs| && op.txid == txs[k].id ==> op !in RefsOf(txs[..k + 1])
  }

  /** In whatever order the transactions are applied, as long as outputs come before their use, the result is the same. */
  lemma {:induction false} AppliedIsAfterPool(u: Utxo, txs: seq<Transaction>)
    requires UniqueTxIds(txs) && InOrder(txs) && forall op :: op in u ==> !HasTxId(txs, op.txid)
    requires forall k :: 0 <= k < |txs| ==> !txs[k].IsCoinbase()
    ensures ApplyAll(u, Pending(txs)) == AfterPool(u, txs)
    decreases |txs|
  {
    if txs == [] {
      assert RefsOf(txs) == {};
    } else {
      var init, last := txs[..|txs| - 1], txs[|txs| - 1];
      InitLast(txs);
      InOrderPrefix(txs);
      assert forall k :: 0 <= k < |init| ==> init[k] == txs[k];
      forall op | op in u ensures !HasTxId(init, op.txid) {
        HasTxIdGrows(init, last, op.txid);
      }
      AppliedIsAfterPool(u, init);
      AppliedStep(u, init, last);
    }
  }

  lemma HasTxIdGrows(init: seq<Transaction>, last: Transaction, id: Bytes)
    ensures HasTxId(init, id) ==> HasTxId(init + [last], id)
  {
    forall k | 0 <= k < |init| ensures (init + [last])[k] == init[k] {
    }
  }

  lemma LastIdIsNew(init: seq<Transaction>, last: Transaction)
    requires UniqueTxIds(init + [last])
    ensures !HasTxId(init, last.id)
  {
    var txs := init + [last];
    forall k | 0 <= k < |init| ensures init[k].id != last.id {
      assert txs[k].id != txs[|init|].id;
    }
  }

  lemma InOrderPrefix(txs: seq<Transaction>)
    requires InOrder(txs) && txs != []
    ensures InOrder(txs[..|txs| - 1])
  {
    var init := txs[..|txs| - 1];
    forall k, op: Outpoint | 0 <= k < |init| && op.txid == init[k].id ensures op !in RefsOf(init[..k + 1]) {
      assert init[..k + 1] == txs[..k + 1] && txs[k].id == op.txid;
    }
  }

  lemma AppliedStep(u: Utxo, init: seq<Transaction>, last: Transaction)
    requires UniqueTxIds(init + [last]) && InOrder(init + [last]) && !last.IsCoinbase()
    requires forall op :: op in u ==> !HasTxId(init + [last], op.txid)
    ensures Apply(AfterPool(u, init), Entry(last, [])) == AfterPool(u, init + [last])
  {
    var txs, e := init + [last], Entry(last, []);
    assert txs[..|init|] == init && txs[..|init| + 1] == txs && txs[|init|] == last;
    RefsOfStep(init, last);
    SpendsAreRefs(last);
    forall op ensures op in Apply(AfterPool(u, init), e) <==> op in AfterPool(u, txs)
              ensures op in AfterPool(u, txs) ==> Apply(AfterPool(u, init), e)[op] == AfterPool(u, txs)[op]
    {
      AppliedAt(u, init, last, op);
    }
    assert Apply(AfterPool(u, init), e).Keys == AfterPool(u, txs).Keys;
  }

  lemma AppliedAt(u: Utxo, init: seq<Transaction>, last: Transaction, op: Outpoint)
    requires UniqueTxIds(init + [last]) && InOrder(init + [last]) && !last.IsCoinbase()
    requires forall op :: op in u ==> !HasTxId(init + [last], op.txid)
    ensures var v, w := Apply(AfterPool(u, init), Entry(last, [])), AfterPool(u, init + [last]);
            (op in v <==> op in w) && (op in w ==> v[op] == w[op])
  {
    var txs := init + [last];
    assert txs[..|init|] == init && txs[..|init| + 1] == txs && txs[|init|] == last;
    RefsOfStep(init, last);
    SpendsAreRefs(last);
    PoolOutsMeans(init, op);
    if op.txid == last.id {
      assert op !in RefsOf(txs[..|init| + 1]) && HasTxId(txs, op.txid);
      LastIdIsNew(init, last);
    }
  }
}

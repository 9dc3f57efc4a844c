/**
 What a key has at stake in the pool: the inputs it signed, the outputs paid to it that are not
 used again, and the inputs that rest on approved outputs (node/transactions/pending.go:103-204).
 */
module PreparedBy {
  import opened Structures
  import opened OutputRecords

  predicate UsesKey(crypto: Crypto, vin: TXInput, key: Bytes) {
    crypto.hashPubKey(vin.pubKey) == key
  }

  function SignedIn(crypto: Crypto, vin: seq<TXInput>, key: Bytes): seq<TXInput> {
    if vin == [] then []
    else SignedIn(crypto, vin[..|vin| - 1], key) + if UsesKey(crypto, vin[|vin| - 1], key) then [vin[|vin| - 1]] else []
  }

  function KeyInputs(crypto: Crypto, txs: seq<Transaction>, key: Bytes): seq<TXInput> {
    if txs == [] then []
    else
      var tx := txs[|txs| - 1];
      KeyInputs(crypto, txs[..|txs| - 1], key) + if tx.IsCoinbase() then [] else SignedIn(crypto, tx.vin, key)
  }

  function SenderOf(tx: Transaction): Bytes {
    if tx.IsCoinbase() || tx.vin == [] then [] else tx.vin[0].pubKey
  }

  function PendingOutput(tx: Transaction, k: nat): PendingOut
    requires k < |tx.vout|
  {
    PendingOut(LoadFromSimple(tx.vout[k], tx.id, k, SenderOf(tx), tx.IsCoinbase(), []), tx)
  }

  /** The first n outputs of a transaction that are locked with the key. */
  function PaidIn(tx: Transaction, key: Bytes, n: nat): seq<PendingOut>
    requires n <= |tx.vout|
  {
    if n == 0 then []
    else PaidIn(tx, key, n - 1) + if tx.vout[n - 1].pubKeyHash == key then [PendingOutput(tx, n - 1)] else []
  }

  function KeyOutputs(txs: seq<Transaction>, key: Bytes): seq<PendingOut> {
    if txs == [] then []
    else KeyOutputs(txs[..|txs| - 1], key) + PaidIn(txs[|txs| - 1], key, |txs[|txs| - 1].vout|)
  }

  predicate UsedBy(inputs: seq<TXInput>, out: UOut) {
    exists i :: 0 <= i < |inputs| && inputs[i].txid == out.txid && inputs[i].vout == out.oIndex
  }

  predicate UsesOne(outs: seq<PendingOut>, vin: TXInput) {
    exists k :: 0 <= k < |outs| && vin.txid == outs[k].out.txid && vin.vout == outs[k].out.oIndex
  }

  function FreeOutputs(outs: seq<PendingOut>, inputs: seq<TXInput>): seq<PendingOut> {
    if outs == [] then []
    else FreeOutputs(outs[..|outs| - 1], inputs) + if UsedBy(inputs, outs[|outs| - 1].out) then [] else [outs[|outs| - 1]]
  }

  function ApprovedInputs(inputs: seq<TXInput>, outs: seq<PendingOut>): seq<TXInput> {
    if inputs == [] then []
    else ApprovedInputs(inputs[..|inputs| - 1], outs) + if UsesOne(outs, inputs[|inputs| - 1]) then [] else [inputs[|inputs| - 1]]
  }

  // ----- Members

  lemma {:induction false} SignedInMembers(crypto: Crypto, vin: seq<TXInput>, key: Bytes)
    ensures forall i :: i in SignedIn(crypto, vin, key) <==> i in vin && UsesKey(crypto, i, key)
    decreases |vin|
  {
    if vin != [] {
      SignedInMembers(crypto, vin[..|vin| - 1], key);
      InitLast(vin);
    }
  }

  lemma {:induction false} KeyInputsMembers(crypto: Crypto, txs: seq<Transaction>, key: Bytes, i: TXInput)
    ensures i in KeyInputs(crypto, txs, key) <==>
            UsesKey(crypto, i, key) && exists tx :: tx in txs && !tx.IsCoinbase() && i in tx.vin
    decreases |txs|
  {
    if txs != [] {
      var init, last := txs[..|txs| - 1], txs[|txs| - 1];
      KeyInputsMembers(crypto, init, key, i);
      SignedInMembers(crypto, last.vin, key);
      InitLast(txs);
    }
  }

  lemma {:induction false} PaidInMembers(tx: Transaction, key: Bytes, n: nat, p: PendingOut)
    requires n <= |tx.vout|
    ensures p in PaidIn(tx, key, n) <==> exists k {:trigger tx.vout[k]} :: 0 <= k < n && tx.vout[k].pubKeyHash == key && p == PendingOutput(tx, k)
    decreases n
  {
    if n > 0 {
      PaidInMembers(tx, key, n - 1, p);
    }
  }

  lemma {:induction false} KeyOutputsMembers(txs: seq<Transaction>, key: Bytes, p: PendingOut)
    ensures p in KeyOutputs(txs, key) <==>
            exists tx :: tx in txs && p in PaidIn(tx, key, |tx.vout|)
    decreases |txs|
  {
    if txs != [] {
      KeyOutputsMembers(txs[..|txs| - 1], key, p);
      InitLast(txs);
    }
  }

  lemma {:induction false} FreeOutputsMembers(outs: seq<PendingOut>, inputs: seq<TXInput>)
    ensures forall p :: p in FreeOutputs(outs, inputs) <==> p in outs && !UsedBy(inputs, p.out)
    decreases |outs|
  {
    if outs != [] {
      FreeOutputsMembers(outs[..|outs| - 1], inputs);
      InitLast(outs);
    }
  }

  lemma {:induction false} ApprovedInputsMembers(inputs: seq<TXInput>, outs: seq<PendingOut>)
    ensures forall i :: i in ApprovedInputs(inputs, outs) <==> i in inputs && !UsesOne(outs, i)
    decreases |inputs|
  {
    if inputs != [] {
      ApprovedInputsMembers(inputs[..|inputs| - 1], outs);
      InitLast(inputs);
    }
  }
}

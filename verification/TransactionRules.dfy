/**
 The checks a transaction passes on its own and against the transactions its inputs name
 (node/structures/transaction.go:256-328).
 */
module TransactionRules {
  import opened Structures

  type InputTXs = map<nat, Option<Transaction>>

  /** Input x has its transaction, and the output it names exists. */
  predicate HasInput(tx: Transaction, prev: InputTXs, x: int)
    requires 0 <= x < |tx.vin|
  {
    x in prev && prev[x].Some? && 0 <= tx.vin[x].vout < |prev[x].value.vout|
  }

  function InputOutput(tx: Transaction, prev: InputTXs, x: int): TXOutput
    requires 0 <= x < |tx.vin| && HasInput(tx, prev, x)
  {
    prev[x].value.vout[tx.vin[x].vout]
  }

  function InputTotal(tx: Transaction, prev: InputTXs, n: nat): real
    requires n <= |tx.vin| && forall x :: 0 <= x < n ==> HasInput(tx, prev, x)
  {
    if n == 0 then 0.0 else InputTotal(tx, prev, n - 1) + InputOutput(tx, prev, n - 1).value
  }

  function OutputTotal(vout: seq<TXOutput>): real {
    if vout == [] then 0.0 else OutputTotal(vout[..|vout| - 1]) + vout[|vout| - 1].value
  }

  function Abs(r: real): real {
    if r < 0.0 then -r else r
  }

  /** The reward transaction has one output of the fixed value. */
  predicate CoinbaseOk(tx: Transaction) {
    |tx.vout| == 1 && tx.vout[0].value == PAYMENT_FOR_BLOCK_MADE
  }

  /** The input is signed by the owner of the output it names. */
  predicate SignedByOwner(crypto: Crypto, tx: Transaction, prev: InputTXs, x: int)
    requires 0 <= x < |tx.vin| && HasInput(tx, prev, x)
  {
    && InputOutput(tx, prev, x).pubKeyHash == crypto.hashPubKey(tx.vin[x].pubKey)
    && crypto.signatureValid(tx, x, InputOutput(tx, prev, x).pubKeyHash)
  }

  predicate OutputsBigEnough(vout: seq<TXOutput>) {
    forall k :: 0 <= k < |vout| ==> vout[k].value >= SMALLEST_UNIT
  }

  ghost predicate Verifies(crypto: Crypto, tx: Transaction, prev: InputTXs) {
    if tx.IsCoinbase() then CoinbaseOk(tx)
    else
      && (forall x :: 0 <= x < |tx.vin| ==> HasInput(tx, prev, x))
      && (forall x :: 0 <= x < |tx.vin| ==> SignedByOwner(crypto, tx, prev, x))
      && OutputsBigEnough(tx.vout)
      && Abs(InputTotal(tx, prev, |tx.vin|) - OutputTotal(tx.vout)) < SMALLEST_UNIT
  }

  /** Verifies signatures, ownership and totals. An index out of range, a panic in the source, is a refusal. */
  method Verify(crypto: Crypto, tx: Transaction, prev: InputTXs) returns (err: Option<Error>)
    ensures err.None? <==> Verifies(crypto, tx, prev)
  {
    if tx.IsCoinbase() {
      if |tx.vout| == 0 || tx.vout[0].value != PAYMENT_FOR_BLOCK_MADE {
        return Some(WrongCoinbase);
      }
      if |tx.vout| > 1 {
        return Some(WrongCoinbase);
      }
      return None;
    }
    var totalInput := 0.0;
    for x := 0 to |tx.vin|
      invariant forall y :: 0 <= y < x ==> HasInput(tx, prev, y)
      invariant totalInput == InputTotal(tx, prev, x)
    {
      if !HasInput(tx, prev, x) {
        return Some(WrongPrevious);
      }
      totalInput := totalInput + prev[x].value.vout[tx.vin[x].vout].value;
    }
    for x := 0 to |tx.vin|
      invariant forall y :: 0 <= y < x ==> SignedByOwner(crypto, tx, prev, y)
    {
      assert HasInput(tx, prev, x);
      var owner := prev[x].value.vout[tx.vin[x].vout].pubKeyHash;
      if owner != crypto.hashPubKey(tx.vin[x].pubKey) {
        assert !SignedByOwner(crypto, tx, prev, x);
        return Some(WrongKey);
      }
      if !crypto.signatureValid(tx, x, owner) {
        assert !SignedByOwner(crypto, tx, prev, x);
        return Some(WrongSignature);
      }
    }
    var totalOutput := 0.0;
    assert tx.vout[..0] == [];
    for k := 0 to |tx.vout|
      invariant OutputsBigEnough(tx.vout[..k])
      invariant totalOutput == OutputTotal(tx.vout[..k])
    {
      if tx.vout[k].value < SMALLEST_UNIT {
        return Some(OutputTooSmall);
      }
      assert tx.vout[..k + 1][..k] == tx.vout[..k];
      totalOutput := totalOutput + tx.vout[k].value;
    }
    assert tx.vout[..|tx.vout|] == tx.vout;
    if Abs(totalInput - totalOutput) >= SMALLEST_UNIT {
      return Some(Unbalanced);
    }
    return None;
  }
}

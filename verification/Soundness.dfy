/**
 Sound chains: unique transaction IDs, every input backed by an earlier output, and no output
 spent twice. Soundness is kept one transaction at a time.
 */
module Soundness {
  import opened Structures
  import opened Ledger

  ghost predicate IsInput(es: seq<Entry>, j: int, x: int) {
    0 <= j < |es| && !es[j].tx.IsCoinbase() && 0 <= x < |es[j].tx.vin|
  }

  ghost function RefAt(es: seq<Entry>, j: int, x: int): Outpoint
    requires IsInput(es, j, x)
  {
    Ref(es[j].tx.vin[x])
  }

  /** Every input names an existing output of an earlier entry. */
  ghost predicate Backed(es: seq<Entry>) {
    forall j, x :: IsInput(es, j, x) ==> exists i :: i < j && CreatedAt(es, i, RefAt(es, j, x))
  }

  /** No two inputs of the chain name the same output. */
  ghost predicate SpentOnce(es: seq<Entry>) {
    forall j, x, k, y :: IsInput(es, j, x) && IsInput(es, k, y) && RefAt(es, j, x) == RefAt(es, k, y) ==> j == k && x == y
  }

  ghost predicate OrdinaryHaveInputs(es: seq<Entry>) {
    forall j :: 0 <= j < |es| && !es[j].tx.IsCoinbase() ==> es[j].tx.vin != []
  }

  ghost predicate Sound(es: seq<Entry>) {
    UniqueIds(es) && Backed(es) && SpentOnce(es) && OrdinaryHaveInputs(es)
  }

  ghost predicate InputsDistinct(tx: Transaction) {
    forall x, y :: 0 <= x < y < |tx.vin| ==> Ref(tx.vin[x]) != Ref(tx.vin[y])
  }

  /** The output is there and nothing of the chain has spent it. */
  ghost predicate Spendable(es: seq<Entry>, op: Outpoint) {
    && (exists i :: CreatedAt(es, i, op))
    && forall j :: !SpentAt(es, j, op)
  }

  /** What makes a transaction a sound continuation of a chain. */
  ghost predicate SoundNext(es: seq<Entry>, tx: Transaction) {
    && !HasId(es, tx.id)
    && (!tx.IsCoinbase() ==>
          && tx.vin != []
          && InputsDistinct(tx)
          && forall x {:trigger tx.vin[x]} :: 0 <= x < |tx.vin| ==> Spendable(es, Ref(tx.vin[x])))
  }

  lemma SpentAtMeans(es: seq<Entry>, j: int, op: Outpoint)
    ensures SpentAt(es, j, op) <==> exists x :: IsInput(es, j, x) && RefAt(es, j, x) == op
  {
    if SpentAt(es, j, op) {
      var i :| i in es[j].tx.vin && Ref(i) == op;
      var x :| 0 <= x < |es[j].tx.vin| && es[j].tx.vin[x] == i;
      assert IsInput(es, j, x) && RefAt(es, j, x) == op;
    }
  }

  /** A continuation by a sound transaction is sound. */
  lemma SoundExtend(es: seq<Entry>, e: Entry)
    requires Sound(es) && SoundNext(es, e.tx)
    ensures Sound(es + [e])
  {
    var fs := es + [e];
    forall j, x | IsInput(fs, j, x) ensures exists i :: i < j && CreatedAt(fs, i, RefAt(fs, j, x)) {
      if j < |es| {
        assert IsInput(es, j, x);
        var i :| i < j && CreatedAt(es, i, RefAt(es, j, x));
        assert CreatedAt(fs, i, RefAt(fs, j, x));
      } else {
        var i :| CreatedAt(es, i, Ref(e.tx.vin[x]));
        assert CreatedAt(fs, i, RefAt(fs, j, x));
      }
    }
    forall j, x | IsInput(es, j, x) && !e.tx.IsCoinbase()
      ensures forall y {:trigger e.tx.vin[y]} :: 0 <= y < |e.tx.vin| ==> RefAt(es, j, x) != Ref(e.tx.vin[y])
    {
      SpentAtMeans(es, j, RefAt(es, j, x));
    }
    forall j, x, k, y | IsInput(fs, j, x) && IsInput(fs, k, y) && RefAt(fs, j, x) == RefAt(fs, k, y)
      ensures j == k && x == y
    {
      assert j < |es| ==> IsInput(es, j, x) && RefAt(es, j, x) == RefAt(fs, j, x);
      assert k < |es| ==> IsInput(es, k, y) && RefAt(es, k, y) == RefAt(fs, k, y);
    }
    forall i, j | 0 <= i < j < |fs| ensures fs[i].tx.id != fs[j].tx.id {
      assert j == |es| ==> !HasId(es, e.tx.id);
    }
  }

  lemma SoundPrefix(es: seq<Entry>, n: nat)
    requires Sound(es) && n <= |es|
    ensures Sound(es[..n])
  {
    var fs := es[..n];
    forall j, x | IsInput(fs, j, x) ensures exists i :: i < j && CreatedAt(fs, i, RefAt(fs, j, x)) {
      assert IsInput(es, j, x);
      var i :| i < j && CreatedAt(es, i, RefAt(es, j, x));
      assert CreatedAt(fs, i, RefAt(fs, j, x));
    }
    forall j, x, k, y | IsInput(fs, j, x) && IsInput(fs, k, y) && RefAt(fs, j, x) == RefAt(fs, k, y)
      ensures j == k && x == y
    {
      assert IsInput(es, j, x) && IsInput(es, k, y) && RefAt(es, j, x) == RefAt(es, k, y);
    }
  }

  /** In a sound chain the spendable outputs are exactly the unspent ones. */
  lemma SpendableIsUnspent(es: seq<Entry>, op: Outpoint)
    requires Sound(es)
    ensures Spendable(es, op) <==> op in Unspent(es)
  {
    UnspentMeaning(es, op);
    if op in Unspent(es) {
      var i :| KeptFrom(es, i, op);
      forall j ensures !SpentAt(es, j, op) {
        if SpentAt(es, j, op) {
          SpentAfterCreated(es, i, j, op);
        }
      }
    }
    if Spendable(es, op) {
      var i :| CreatedAt(es, i, op);
      assert KeptFrom(es, i, op);
    }
  }

  lemma SpentAfterCreated(es: seq<Entry>, i: int, j: int, op: Outpoint)
    requires Sound(es) && CreatedAt(es, i, op) && SpentAt(es, j, op)
    ensures i < j
  {
    SpentAtMeans(es, j, op);
    var x :| IsInput(es, j, x) && RefAt(es, j, x) == op;
    var k :| k < j && CreatedAt(es, k, op);
    assert i == k;
  }

  /** Every input of a sound chain spends an output unspent just before it. */
  lemma InputWasUnspent(es: seq<Entry>, j: int, x: int)
    requires Sound(es) && IsInput(es, j, x)
    ensures Sound(es[..j]) && RefAt(es, j, x) in Unspent(es[..j])
  {
    var op := RefAt(es, j, x);
    SoundPrefix(es, j);
    var i :| i < j && CreatedAt(es, i, op);
    assert CreatedAt(es[..j], i, op);
    forall k, y | IsInput(es[..j], k, y) ensures RefAt(es[..j], k, y) != op {
      assert IsInput(es, k, y) && RefAt(es, k, y) == RefAt(es[..j], k, y);
    }
    forall k ensures !SpentAt(es[..j], k, op) {
      SpentAtMeans(es[..j], k, op);
    }
    SpendableIsUnspent(es[..j], op);
  }
}

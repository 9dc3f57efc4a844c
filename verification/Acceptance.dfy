/**
 When a transaction and a block are accepted under a tip, and what acceptance guarantees:
 the chain stays sound, every spend is signed by the owner and totals balance
 (node/transactions/manager.go:182-209 and 533-619, node/consensus/manager.go:241-339).
 */
module Acceptance {
  import opened Structures
  import opened BlockTree
  import opened Blockchain
  import opened Ledger
  import opened Soundness
  import opened TransactionIndex
  import opened Cancellation
  import opened TransactionRules
  import opened Pool

  /** The entry of a transaction ID on the path of tip. */
  ghost function Resolve(t: Tree, id: Bytes, tip: Bytes): (r: Option<Entry>)
    requires t.Valid() && tip in t.blocks
    ensures r.Some? <==> HasId(Entries(t, tip), id)
    ensures r.Some? ==> r.value in Entries(t, tip) && r.value.tx.id == id
  {
    var es := Entries(t, tip);
    if HasId(es, id) then
      var i :| 0 <= i < |es| && es[i].tx.id == id;
      Some(es[i])
    else None
  }

  lemma ResolveUnique(t: Tree, tip: Bytes, e: Entry)
    requires t.Valid() && tip in t.blocks && UniqueIds(Entries(t, tip)) && e in Entries(t, tip)
    ensures Resolve(t, e.tx.id, tip) == Some(e)
  {
    var es := Entries(t, tip);
    var i :| 0 <= i < |es| && es[i] == e;
    var r := Resolve(t, e.tx.id, tip);
    var j :| 0 <= j < |es| && es[j] == r.value;
    assert es[i].tx.id == es[j].tx.id;
  }

  /** The output of the input is not counted as spent under the tip. */
  ghost predicate InputFree(c: Chain, vin: TXInput, tip: Bytes)
    requires c.Valid() && tip in c.tree.blocks
  {
    var e := Resolve(c.tree, vin.txid, tip);
    e.Some? ==> e.value.block in c.tree.blocks && !SpentUnder(c, Ref(vin), e.value.block, tip)
  }

  ghost predicate InputsFree(c: Chain, tx: Transaction, n: nat, tip: Bytes)
    requires c.Valid() && tip in c.tree.blocks && n <= |tx.vin|
  {
    forall x {:trigger InputFree(c, tx.vin[x], tip)} :: 0 <= x < n ==> InputFree(c, tx.vin[x], tip)
  }

  /** The transaction of an input: from the path of the tip, or else from those listed before. */
  ghost function PrevTX(t: Tree, id: Bytes, before: seq<Transaction>, tip: Bytes): Option<Transaction>
    requires t.Valid() && tip in t.blocks
  {
    var e := Resolve(t, id, tip);
    if e.Some? then Some(e.value.tx) else FirstWithId(before, id)
  }

  ghost function PrevTXs(t: Tree, tx: Transaction, before: seq<Transaction>, tip: Bytes): InputTXs
    requires t.Valid() && tip in t.blocks
  {
    map x: nat | x < |tx.vin| :: PrevTX(t, tx.vin[x].txid, before, tip)
  }

  /** No two inputs from outside the blocks name the same output. */
  ghost predicate PendingNamedOnce(t: Tree, tx: Transaction, tip: Bytes)
    requires t.Valid() && tip in t.blocks
  {
    forall x, y :: 0 <= x < y < |tx.vin| && Resolve(t, tx.vin[x].txid, tip).None? && Resolve(t, tx.vin[y].txid, tip).None?
      ==> Ref(tx.vin[x]) != Ref(tx.vin[y])
  }

  ghost predicate Accepts(c: Chain, crypto: Crypto, tx: Transaction, before: seq<Transaction>, tip: Bytes)
    requires c.Valid() && tip in c.tree.blocks
  {
    if tx.IsCoinbase() then CoinbaseOk(tx)
    else
      && InputsFree(c, tx, |tx.vin|, tip)
      && PendingNamedOnce(c.tree, tx, tip)
      && Verifies(crypto, tx, PrevTXs(c.tree, tx, before, tip))
  }

  function MinTransactions(height: int): int {
    if height > MAX_MIN_NUMBER_TRANSACTION_IN_BLOCK then MAX_MIN_NUMBER_TRANSACTION_IN_BLOCK
    else if height < 1 then 1
    else height
  }

  /** How many ordinary transactions a block of this height may have, in numbers. */
  predicate CountAllowed(height: int, n: int) {
    1 <= n <= 10000 && (n >= height || n >= 1000)
  }

  /** The limits by height allow exactly these counts. */
  lemma CountMeans(height: int, n: int)
    ensures MinTransactions(height) <= n <= MAX_NUMBER_TRANSACTION_IN_BLOCK <==> CountAllowed(height, n)
  {
  }

  ghost predicate OneCoinbase(txs: seq<Transaction>) {
    exists k :: 0 <= k < |txs| && txs[k].IsCoinbase() && forall j :: 0 <= j < |txs| && j != k ==> !txs[j].IsCoinbase()
  }

  ghost predicate AcceptedAt(c: Chain, crypto: Crypto, b: Block, k: nat)
    requires c.Valid() && b.prev in c.tree.blocks && k < |b.txs|
  {
    Accepts(c, crypto, b.txs[k], b.txs[..k], b.prev)
  }

  /** Each of the first n transactions is accepted after those before it. */
  ghost predicate AllAccepted(c: Chain, crypto: Crypto, b: Block, n: nat)
    requires c.Valid() && b.prev in c.tree.blocks && n <= |b.txs|
  {
    forall k {:trigger AcceptedAt(c, crypto, b, k)} :: 0 <= k < n ==> AcceptedAt(c, crypto, b, k)
  }

  /** The count, reward and transaction checks of a block, on the branch it is built on. */
  ghost predicate BlockChecks(c: Chain, crypto: Crypto, b: Block)
    requires c.Valid() && b.prev in c.tree.blocks
  {
    && MinTransactions(b.height) <= |b.txs| - 1 <= MAX_NUMBER_TRANSACTION_IN_BLOCK
    && OneCoinbase(b.txs)
    && AllAccepted(c, crypto, b, |b.txs|)
  }

  ghost predicate BlockAccepted(c: Chain, crypto: Crypto, b: Block)
    requires c.Valid() && b.prev in c.tree.blocks
  {
    crypto.powValid(b) && BlockChecks(c, crypto, b)
  }

  /**
   What the ledger takes for granted of the transactions of a block: IDs identify them, reward
   IDs are new, and ordinary transactions have inputs.
   */
  ghost predicate TxAssumptions(t: Tree, b: Block) {
    && (forall h, u, v :: h in t.blocks && u in t.blocks[h].txs && v in b.txs && u.id == v.id ==> u == v && !u.IsCoinbase())
    && (forall i, j :: 0 <= i < j < |b.txs| && b.txs[i].id == b.txs[j].id ==> b.txs[i] == b.txs[j] && !b.txs[i].IsCoinbase())
    && (forall i :: 0 <= i < |b.txs| && !b.txs[i].IsCoinbase() ==> b.txs[i].vin != [])
  }

  /** And that no output is named twice inside the block. */
  ghost predicate BlockAssumptions(t: Tree, b: Block) {
    TxAssumptions(t, b) && InputsDisjoint(b.txs)
  }

  // ----- What acceptance guarantees

  ghost function InputCoin(es: seq<Entry>, vin: TXInput): Coin {
    if Ref(vin) in Unspent(es) then Unspent(es)[Ref(vin)] else Coin(0.0, [], [])
  }

  ghost function InputValue(es: seq<Entry>, vin: seq<TXInput>): real {
    if vin == [] then 0.0 else InputValue(es, vin[..|vin| - 1]) + InputCoin(es, vin[|vin| - 1]).value
  }

  /** A reward has the fixed value; an ordinary transaction is signed by the owners and balances. */
  ghost predicate FairNext(crypto: Crypto, es: seq<Entry>, tx: Transaction) {
    if tx.IsCoinbase() then CoinbaseOk(tx)
    else
      && (forall x {:trigger tx.vin[x]} :: 0 <= x < |tx.vin| ==>
            && InputCoin(es, tx.vin[x]).owner == crypto.hashPubKey(tx.vin[x].pubKey)
            && crypto.signatureValid(tx, x, InputCoin(es, tx.vin[x]).owner))
      && OutputsBigEnough(tx.vout)
      && Abs(InputValue(es, tx.vin) - OutputTotal(tx.vout)) < SMALLEST_UNIT
  }

  /** Every transaction is a sound and fair continuation of what comes before it. */
  ghost predicate Proper(crypto: Crypto, es: seq<Entry>) {
    es != [] ==>
      var init, last := es[..|es| - 1], es[|es| - 1];
      Proper(crypto, init) && SoundNext(init, last.tx) && FairNext(crypto, init, last.tx)
  }

  lemma {:induction false} ProperIsSound(crypto: Crypto, es: seq<Entry>)
    requires Proper(crypto, es)
    ensures Sound(es)
    decreases |es|
  {
    if es != [] {
      ProperIsSound(crypto, es[..|es| - 1]);
      SoundExtend(es[..|es| - 1], es[|es| - 1]);
      InitLast(es);
    }
  }

  lemma ProperStep(crypto: Crypto, es: seq<Entry>, e: Entry)
    requires Proper(crypto, es) && SoundNext(es, e.tx) && FairNext(crypto, es, e.tx)
    ensures Proper(crypto, es + [e])
  {
    assert (es + [e])[..|es|] == es;
  }

  lemma FirstWithIdAt(txs: seq<Transaction>, id: Bytes)
    ensures FirstWithId(txs, id).Some? ==> exists m :: 0 <= m < |txs| && txs[m] == FirstWithId(txs, id).value && txs[m].id == id
  {
    if txs != [] && txs[0].id != id {
      FirstWithIdAt(txs[1..], id);
      if FirstWithId(txs, id).Some? {
        var m :| 0 <= m < |txs[1..]| && txs[1..][m] == FirstWithId(txs, id).value && txs[1..][m].id == id;
        assert txs[m + 1] == txs[1..][m];
      }
    }
  }

  /** The entries before transaction k of block b. */
  ghost function Before(t: Tree, b: Block, k: nat): seq<Entry>
    requires t.Valid() && b.prev in t.blocks && k <= |b.txs|
  {
    Entries(t, b.prev) + Tag(b)[..k]
  }

  /** The output an accepted input names is among the entries before, made by the transaction found for it. */
  lemma InputCreated(t: Tree, b: Block, k: nat, x: nat)
    requires t.Valid() && b.prev in t.blocks && k < |b.txs| && x < |b.txs[k].vin|
    requires HasInput(b.txs[k], PrevTXs(t, b.txs[k], b.txs[..k], b.prev), x)
    ensures exists i :: CreatedAt(Before(t, b, k), i, Ref(b.txs[k].vin[x]))
                        && Before(t, b, k)[i].tx == PrevTXs(t, b.txs[k], b.txs[..k], b.prev)[x].value
  {
    var vin, es, below := b.txs[k].vin[x], Before(t, b, k), Entries(t, b.prev);
    var e := Resolve(t, vin.txid, b.prev);
    if e.Some? {
      var i :| 0 <= i < |below| && below[i] == e.value;
      assert es[i] == below[i];
      assert CreatedAt(es, i, Ref(vin));
    } else {
      FirstWithIdAt(b.txs[..k], vin.txid);
      var m :| 0 <= m < k && b.txs[..k][m] == FirstWithId(b.txs[..k], vin.txid).value && b.txs[..k][m].id == vin.txid;
      EntryOfBlock(t, b, k, m);
      assert CreatedAt(es, |below| + m, Ref(vin));
    }
  }

  lemma EntryOfBlock(t: Tree, b: Block, k: nat, m: nat)
    requires t.Valid() && b.prev in t.blocks && m < k <= |b.txs|
    ensures |Before(t, b, k)| == |Entries(t, b.prev)| + k
    ensures Before(t, b, k)[|Entries(t, b.prev)| + m] == Entry(b.txs[m], b.hash)
  {
    assert Before(t, b, k)[|Entries(t, b.prev)| + m] == Tag(b)[m];
  }

  lemma SpendShares(u: Transaction, tx: Transaction, x: nat)
    requires x < |tx.vin| && Ref(tx.vin[x]) in Spends(u)
    ensures SharesInput(u, tx)
  {
    var i :| i in u.vin && Ref(i) == Ref(tx.vin[x]);
    var y :| 0 <= y < |u.vin| && u.vin[y] == i;
    assert Ref(u.vin[y]) == Ref(tx.vin[x]);
  }

  /** A spend of an output on the path makes it counted as spent. */
  lemma SpentBelow(c: Chain, tip: Bytes, vin: TXInput, j: int)
    requires c.Valid() && tip in c.tree.blocks && Sound(Entries(c.tree, tip))
    requires SpentAt(Entries(c.tree, tip), j, Ref(vin))
    ensures !InputFree(c, vin, tip)
  {
    var below, op := Entries(c.tree, tip), Ref(vin);
    SpentAtMeans(below, j, op);
    var y :| IsInput(below, j, y) && RefAt(below, j, y) == op;
    var i :| i < j && CreatedAt(below, i, op);
    assert below[i] in below;
    ResolveUnique(c.tree, tip, below[i]);
    EntrySource(c.tree, tip, below[i]);
    RealSpendCounts(c, tip, op, i, j);
  }

  /** Of the entries before a free input only earlier transactions of its block can have spent its output. */
  lemma FreeInputSpends(c: Chain, b: Block, k: nat, vin: TXInput, j: int)
    requires c.Valid() && b.prev in c.tree.blocks && k <= |b.txs|
    requires Sound(Entries(c.tree, b.prev)) && InputFree(c, vin, b.prev)
    ensures SpentAt(Before(c.tree, b, k), j, Ref(vin)) ==> SpendsOutput(b.txs[..k], Ref(vin))
  {
    var es, below, op := Before(c.tree, b, k), Entries(c.tree, b.prev), Ref(vin);
    if 0 <= j < |below| {
      assert es[j] == below[j];
      if SpentAt(below, j, op) {
        SpentBelow(c, b.prev, vin, j);
      }
    } else if |below| <= j < |es| {
      var m := j - |below|;
      assert es[j] == Tag(b)[m] && es[j].tx == b.txs[..k][m];
    }
  }

  lemma EarlierSpend(t: Tree, b: Block, k: nat, op: Outpoint)
    requires t.Valid() && b.prev in t.blocks && k <= |b.txs| && SpendsOutput(b.txs[..k], op)
    ensures exists j :: SpentAt(Before(t, b, k), j, op)
  {
    var m :| 0 <= m < k && op in Spends(b.txs[..k][m]);
    var j := |Entries(t, b.prev)| + m;
    assert Before(t, b, k)[j] == Tag(b)[m];
    assert SpentAt(Before(t, b, k), j, op);
  }

  /**
   The transaction found for an input of an accepted transaction is among the entries before and
   made the output; the output is spendable unless an earlier transaction of the same block
   spends it, and then the value and owner looked at are the real ones.
   */
  lemma AcceptedInput(c: Chain, crypto: Crypto, b: Block, k: nat, x: nat)
    requires c.Valid() && b.prev in c.tree.blocks && k < |b.txs| && x < |b.txs[k].vin| && !b.txs[k].IsCoinbase()
    requires Sound(Entries(c.tree, b.prev)) && UniqueIds(Before(c.tree, b, k))
    requires Accepts(c, crypto, b.txs[k], b.txs[..k], b.prev)
    ensures var es, vin, prev := Before(c.tree, b, k), b.txs[k].vin[x], PrevTXs(c.tree, b.txs[k], b.txs[..k], b.prev);
            && HasInput(b.txs[k], prev, x)
            && (exists i :: CreatedAt(es, i, Ref(vin)) && es[i].tx == prev[x].value)
            && (Spendable(es, Ref(vin)) <==> !SpendsOutput(b.txs[..k], Ref(vin)))
            && (Spendable(es, Ref(vin)) ==>
                  FoundReal(es, b.txs[k], prev, x))
  {
    var es, vin, prev := Before(c.tree, b, k), b.txs[k].vin[x], PrevTXs(c.tree, b.txs[k], b.txs[..k], b.prev);
    assert HasInput(b.txs[k], prev, x);
    InputCreated(c.tree, b, k, x);
    forall j ensures SpentAt(es, j, Ref(vin)) ==> SpendsOutput(b.txs[..k], Ref(vin)) {
      assert InputFree(c, vin, b.prev);
      FreeInputSpends(c, b, k, vin, j);
    }
    if SpendsOutput(b.txs[..k], Ref(vin)) {
      EarlierSpend(c.tree, b, k, Ref(vin));
    }
    var i :| CreatedAt(es, i, Ref(vin)) && es[i].tx == prev[x].value;
    MadeCoin(es, vin, i);
  }

  /** The coin of a spendable input is the output of the entry that made it. */
  lemma MadeCoin(es: seq<Entry>, vin: TXInput, i: int)
    requires UniqueIds(es) && CreatedAt(es, i, Ref(vin))
    ensures Spendable(es, Ref(vin)) ==>
              InputCoin(es, vin).value == es[i].tx.vout[vin.vout].value && InputCoin(es, vin).owner == es[i].tx.vout[vin.vout].pubKeyHash
  {
    UnspentMeaning(es, Ref(vin));
    if Spendable(es, Ref(vin)) {
      assert KeptFrom(es, i, Ref(vin));
    }
  }

  /** No transaction before transaction k spends an output that this one names. */
  ghost predicate FirstToName(txs: seq<Transaction>, k: nat)
    requires k < |txs|
  {
    forall x {:trigger txs[k].vin[x]} :: 0 <= x < |txs[k].vin| ==> !SpendsOutput(txs[..k], Ref(txs[k].vin[x]))
  }

  lemma ApartIsFirst(txs: seq<Transaction>, k: nat)
    requires k < |txs| && forall m :: 0 <= m < k ==> !SharesInput(txs[m], txs[k])
    ensures FirstToName(txs, k)
  {
    forall x {:trigger txs[k].vin[x]} | 0 <= x < |txs[k].vin| ensures !SpendsOutput(txs[..k], Ref(txs[k].vin[x])) {
      forall m | 0 <= m < k ensures Ref(txs[k].vin[x]) !in Spends(txs[..k][m]) {
        if Ref(txs[k].vin[x]) in Spends(txs[m]) {
          SpendShares(txs[m], txs[k], x);
        }
      }
    }
  }

  /** The input is found with its real value and owner. */
  ghost predicate FoundReal(es: seq<Entry>, tx: Transaction, prev: InputTXs, x: int)
    requires 0 <= x < |tx.vin|
  {
    && HasInput(tx, prev, x)
    && InputCoin(es, tx.vin[x]).value == InputOutput(tx, prev, x).value
    && InputCoin(es, tx.vin[x]).owner == InputOutput(tx, prev, x).pubKeyHash
  }

  lemma {:induction false} TotalsAgree(es: seq<Entry>, tx: Transaction, prev: InputTXs, n: nat)
    requires n <= |tx.vin| && forall x {:trigger FoundReal(es, tx, prev, x)} :: 0 <= x < n ==> FoundReal(es, tx, prev, x)
    ensures forall x :: 0 <= x < n ==> HasInput(tx, prev, x)
    ensures InputValue(es, tx.vin[..n]) == InputTotal(tx, prev, n)
    decreases n
  {
    forall x | 0 <= x < n ensures HasInput(tx, prev, x) {
      assert FoundReal(es, tx, prev, x);
    }
    if n > 0 {
      assert FoundReal(es, tx, prev, n - 1);
      TotalsAgree(es, tx, prev, n - 1);
      assert tx.vin[..n][..n - 1] == tx.vin[..n - 1];
    }
  }

  /** A transaction whose inputs are all spendable and found continues fairly when it verifies. */
  lemma VerifiedIsFair(crypto: Crypto, es: seq<Entry>, tx: Transaction, prev: InputTXs)
    requires Verifies(crypto, tx, prev)
    requires !tx.IsCoinbase() ==> forall x {:trigger FoundReal(es, tx, prev, x)} :: 0 <= x < |tx.vin| ==> FoundReal(es, tx, prev, x)
    ensures FairNext(crypto, es, tx)
  {
    if !tx.IsCoinbase() {
      TotalsAgree(es, tx, prev, |tx.vin|);
      assert tx.vin[..|tx.vin|] == tx.vin;
      forall x {:trigger tx.vin[x]} | 0 <= x < |tx.vin|
        ensures InputCoin(es, tx.vin[x]).owner == crypto.hashPubKey(tx.vin[x].pubKey)
        ensures crypto.signatureValid(tx, x, InputCoin(es, tx.vin[x]).owner)
      {
        assert FoundReal(es, tx, prev, x) && SignedByOwner(crypto, tx, prev, x);
      }
    }
  }

  lemma AcceptedFair(c: Chain, crypto: Crypto, b: Block, k: nat)
    requires c.Valid() && b.prev in c.tree.blocks && k < |b.txs|
    requires Sound(Entries(c.tree, b.prev)) && UniqueIds(Before(c.tree, b, k)) && FirstToName(b.txs, k)
    requires Accepts(c, crypto, b.txs[k], b.txs[..k], b.prev)
    ensures FairNext(crypto, Before(c.tree, b, k), b.txs[k])
  {
    var tx, es, prev := b.txs[k], Before(c.tree, b, k), PrevTXs(c.tree, b.txs[k], b.txs[..k], b.prev);
    if !tx.IsCoinbase() {
      forall x: int {:trigger FoundReal(es, tx, prev, x)} | 0 <= x < |tx.vin| ensures FoundReal(es, tx, prev, x) {
        AcceptedFound(c, crypto, b, k, x);
      }
    }
    VerifiedIsFair(crypto, es, tx, prev);
  }

  lemma AcceptedFound(c: Chain, crypto: Crypto, b: Block, k: nat, x: nat)
    requires c.Valid() && b.prev in c.tree.blocks && k < |b.txs| && x < |b.txs[k].vin| && !b.txs[k].IsCoinbase()
    requires Sound(Entries(c.tree, b.prev)) && UniqueIds(Before(c.tree, b, k)) && FirstToName(b.txs, k)
    requires Accepts(c, crypto, b.txs[k], b.txs[..k], b.prev)
    ensures FoundReal(Before(c.tree, b, k), b.txs[k], PrevTXs(c.tree, b.txs[k], b.txs[..k], b.prev), x)
    ensures Spendable(Before(c.tree, b, k), Ref(b.txs[k].vin[x]))
  {
    assert !SpendsOutput(b.txs[..k], Ref(b.txs[k].vin[x]));
    AcceptedInput(c, crypto, b, k, x);
  }

  lemma AcceptedSpendable(c: Chain, crypto: Crypto, b: Block, k: nat)
    requires c.Valid() && b.prev in c.tree.blocks && k < |b.txs| && !b.txs[k].IsCoinbase()
    requires Sound(Entries(c.tree, b.prev)) && UniqueIds(Before(c.tree, b, k)) && FirstToName(b.txs, k)
    requires Accepts(c, crypto, b.txs[k], b.txs[..k], b.prev)
    ensures forall x {:trigger b.txs[k].vin[x]} :: 0 <= x < |b.txs[k].vin| ==> Spendable(Before(c.tree, b, k), Ref(b.txs[k].vin[x]))
  {
    forall x {:trigger b.txs[k].vin[x]} | 0 <= x < |b.txs[k].vin| ensures Spendable(Before(c.tree, b, k), Ref(b.txs[k].vin[x])) {
      AcceptedFound(c, crypto, b, k, x);
    }
  }

  lemma AcceptedSound(c: Chain, crypto: Crypto, b: Block, k: nat)
    requires c.Valid() && b.prev in c.tree.blocks && k < |b.txs|
    requires Sound(Entries(c.tree, b.prev)) && Sound(Before(c.tree, b, k)) && BlockAssumptions(c.tree, b)
    requires Accepts(c, crypto, b.txs[k], b.txs[..k], b.prev)
    ensures SoundNext(Before(c.tree, b, k), b.txs[k])
  {
    if !b.txs[k].IsCoinbase() {
      ApartIsFirst(b.txs, k);
      AcceptedSpendable(c, crypto, b, k);
      assert DistinctRefs(b.txs[k].vin);
    }
    NewId(c.tree, b, k);
  }

  /** An earlier entry with the ID of a transaction of the block is that transaction, and spends what it spends. */
  lemma SameIdSpends(t: Tree, b: Block, k: nat, i: int)
    requires t.Valid() && b.prev in t.blocks && k < |b.txs| && TxAssumptions(t, b)
    requires 0 <= i < |Before(t, b, k)| && Before(t, b, k)[i].tx.id == b.txs[k].id
    ensures !b.txs[k].IsCoinbase() && b.txs[k].vin != [] && SpentAt(Before(t, b, k), i, Ref(b.txs[k].vin[0]))
  {
    var es, tx := Before(t, b, k), b.txs[k];
    SameIdIsSame(t, b, k, i);
    assert tx.vin[0] in tx.vin;
  }

  /** An entry before transaction k is one of the path, or a transaction of the block. */
  lemma BeforeAt(t: Tree, b: Block, k: nat, i: nat)
    requires t.Valid() && b.prev in t.blocks && k <= |b.txs| && i < |Before(t, b, k)|
    ensures i < |Entries(t, b.prev)| ==> Before(t, b, k)[i] in Entries(t, b.prev) && Before(t, b, k)[i] == Entries(t, b.prev)[i]
    ensures i >= |Entries(t, b.prev)| ==> Before(t, b, k)[i] == Entry(b.txs[i - |Entries(t, b.prev)|], b.hash)
  {
  }

  lemma SameIdIsSame(t: Tree, b: Block, k: nat, i: nat)
    requires t.Valid() && b.prev in t.blocks && k < |b.txs| && TxAssumptions(t, b)
    requires i < |Before(t, b, k)| && Before(t, b, k)[i].tx.id == b.txs[k].id
    ensures Before(t, b, k)[i].tx == b.txs[k] && !b.txs[k].IsCoinbase() && b.txs[k].vin != []
  {
    BeforeAt(t, b, k, i);
    if i < |Entries(t, b.prev)| {
      EntrySource(t, b.prev, Before(t, b, k)[i]);
      SameAsStored(t, b, k, Before(t, b, k)[i].block, Before(t, b, k)[i].tx);
    }
  }

  lemma SameAsStored(t: Tree, b: Block, k: nat, h: Bytes, u: Transaction)
    requires k < |b.txs| && TxAssumptions(t, b) && h in t.blocks && u in t.blocks[h].txs && u.id == b.txs[k].id
    ensures u == b.txs[k] && !u.IsCoinbase() && u.vin != []
  {
    assert b.txs[k] in b.txs;
  }

  lemma NewId(t: Tree, b: Block, k: nat)
    requires t.Valid() && b.prev in t.blocks && k < |b.txs| && TxAssumptions(t, b)
    requires !b.txs[k].IsCoinbase() ==> forall x {:trigger b.txs[k].vin[x]} :: 0 <= x < |b.txs[k].vin| ==>
               Spendable(Before(t, b, k), Ref(b.txs[k].vin[x]))
    ensures !HasId(Before(t, b, k), b.txs[k].id)
  {
    var es := Before(t, b, k);
    forall i | 0 <= i < |es| ensures es[i].tx.id != b.txs[k].id {
      if es[i].tx.id == b.txs[k].id {
        SameIdSpends(t, b, k, i);
      }
    }
  }

  lemma BeforeStep(t: Tree, b: Block, k: nat)
    requires t.Valid() && b.prev in t.blocks && k < |b.txs|
    ensures Before(t, b, k + 1) == Before(t, b, k) + [Entry(b.txs[k], b.hash)]
  {
  }

  /** An accepted transaction continues the entries before it properly. */
  lemma AcceptedNext(c: Chain, crypto: Crypto, b: Block, k: nat)
    requires c.Valid() && b.prev in c.tree.blocks && k < |b.txs| && BlockAssumptions(c.tree, b)
    requires Sound(Entries(c.tree, b.prev)) && Proper(crypto, Before(c.tree, b, k))
    requires Accepts(c, crypto, b.txs[k], b.txs[..k], b.prev)
    ensures Proper(crypto, Before(c.tree, b, k + 1))
  {
    ProperIsSound(crypto, Before(c.tree, b, k));
    ApartIsFirst(b.txs, k);
    AcceptedSound(c, crypto, b, k);
    AcceptedFair(c, crypto, b, k);
    ProperStep(crypto, Before(c.tree, b, k), Entry(b.txs[k], b.hash));
    BeforeStep(c.tree, b, k);
  }

  lemma {:induction false} AcceptedPrefix(c: Chain, crypto: Crypto, b: Block, k: nat)
    requires c.Valid() && b.prev in c.tree.blocks && Proper(crypto, Entries(c.tree, b.prev)) && k <= |b.txs|
    requires BlockAssumptions(c.tree, b) && BlockAccepted(c, crypto, b)
    ensures Proper(crypto, Before(c.tree, b, k))
    decreases k
  {
    if k == 0 {
      assert Before(c.tree, b, 0) == Entries(c.tree, b.prev);
    } else {
      AcceptedPrefix(c, crypto, b, k - 1);
      ProperIsSound(crypto, Entries(c.tree, b.prev));
      assert AcceptedAt(c, crypto, b, k - 1);
      AcceptedNext(c, crypto, b, k - 1);
    }
  }

  /** An accepted block continues a proper chain properly. */
  lemma AcceptedBlock(c: Chain, crypto: Crypto, b: Block)
    requires c.Valid() && b.prev in c.tree.blocks && Proper(crypto, Entries(c.tree, b.prev))
    requires BlockAssumptions(c.tree, b) && BlockAccepted(c, crypto, b)
    ensures Proper(crypto, Entries(c.tree, b.prev) + Tag(b))
  {
    AcceptedPrefix(c, crypto, b, |b.txs|);
    assert Tag(b)[..|b.txs|] == Tag(b);
  }
}

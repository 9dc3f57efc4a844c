/**
 Conservation of money: along a chain of accepted blocks the unspent outputs total the fixed
 reward of every block, up to less than one smallest unit for each ordinary transaction.
 */
module Money {
  import opened Structures
  import opened BlockTree
  import opened Ledger
  import opened Soundness
  import opened TransactionRules
  import opened Pool
  import opened Acceptance

  ghost function Total(u: Utxo): real {
    if u.Keys == {} then 0.0
    else
      var op :| op in u;
      Total(u - {op}) + u[op].value
  }

  lemma {:induction false} TotalRemove(u: Utxo, op: Outpoint)
    requires op in u
    ensures Total(u) == Total(u - {op}) + u[op].value
    decreases |u|
  {
    var q :| q in u && Total(u) == Total(u - {q}) + u[q].value;
    if q != op {
      TotalRemove(u - {q}, op);
      TotalRemove(u - {op}, q);
      assert u - {q} - {op} == u - {op} - {q};
    }
  }

  lemma TotalPut(u: Utxo, op: Outpoint, coin: Coin)
    requires op !in u
    ensures Total(u[op := coin]) == Total(u) + coin.value
  {
    TotalRemove(u[op := coin], op);
    assert u[op := coin] - {op} == u;
  }

  lemma {:induction false} TotalSpend(u: Utxo, es: seq<Entry>, vin: seq<TXInput>)
    requires u == Unspent(es) && DistinctRefs(vin) && forall x :: 0 <= x < |vin| ==> Ref(vin[x]) in u
    ensures Total(u - RefsIn(vin)) == Total(u) - InputValue(es, vin)
    decreases |vin|
  {
    if vin == [] {
      assert u - RefsIn(vin) == u;
    } else {
      var init, last := vin[..|vin| - 1], vin[|vin| - 1];
      InitLast(vin);
      RefsStep(init, last);
      TotalSpend(u, es, init);
      TotalLess(u, RefsIn(init), RefsIn(vin), Ref(last));
    }
  }

  lemma TotalLess(u: Utxo, fewer: set<Outpoint>, ops: set<Outpoint>, op: Outpoint)
    requires ops == fewer + {op} && op in u && op !in fewer
    ensures Total(u - ops) == Total(u - fewer) - u[op].value
  {
    assert u - ops == u - fewer - {op};
    TotalRemove(u - fewer, op);
  }

  /** The first n outputs of an entry. */
  ghost function CreatesFirst(e: Entry, n: nat): Utxo
    requires n <= |e.tx.vout|
  {
    if n == 0 then map[] else CreatesFirst(e, n - 1)[Outpoint(e.tx.id, n - 1) := CoinOf(e, n - 1)]
  }

  lemma {:induction false} CreatesFirstMeans(e: Entry, n: nat)
    requires n <= |e.tx.vout|
    ensures forall op :: op in CreatesFirst(e, n) <==> op.txid == e.tx.id && 0 <= op.index < n
    ensures forall op :: op in CreatesFirst(e, n) ==> CreatesFirst(e, n)[op] == CoinOf(e, op.index)
    decreases n
  {
    if n > 0 {
      CreatesFirstMeans(e, n - 1);
    }
  }

  lemma CreatesNext(u: Utxo, e: Entry, n: nat)
    requires n < |e.tx.vout| && forall op :: op in u ==> op.txid != e.tx.id
    ensures Outpoint(e.tx.id, n) !in u + CreatesFirst(e, n)
    ensures u + CreatesFirst(e, n + 1) == (u + CreatesFirst(e, n))[Outpoint(e.tx.id, n) := CoinOf(e, n)]
  {
    CreatesFirstMeans(e, n);
  }

  lemma {:induction false} TotalCreate(u: Utxo, e: Entry, n: nat)
    requires n <= |e.tx.vout| && forall op :: op in u ==> op.txid != e.tx.id
    ensures Total(u + CreatesFirst(e, n)) == Total(u) + OutputTotal(e.tx.vout[..n])
    decreases n
  {
    if n == 0 {
      assert u + CreatesFirst(e, 0) == u;
    } else {
      TotalCreate(u, e, n - 1);
      CreatesNext(u, e, n - 1);
      TotalPut(u + CreatesFirst(e, n - 1), Outpoint(e.tx.id, n - 1), CoinOf(e, n - 1));
      assert e.tx.vout[..n][..n - 1] == e.tx.vout[..n - 1];
    }
  }

  lemma ApplyIs(u: Utxo, e: Entry)
    requires forall op :: op in u ==> op.txid != e.tx.id
    ensures Apply(u, e) == (u - Spends(e.tx)) + CreatesFirst(e, |e.tx.vout|)
  {
    CreatesFirstMeans(e, |e.tx.vout|);
    assert Creates(e) == CreatesFirst(e, |e.tx.vout|);
    assert (map op | op in u && op !in Spends(e.tx) && op.txid != e.tx.id :: u[op]) == u - Spends(e.tx);
  }

  lemma SpendsAreRefs(tx: Transaction)
    requires !tx.IsCoinbase()
    ensures Spends(tx) == RefsIn(tx.vin)
  {
  }

  lemma TotalAfterSpend(es: seq<Entry>, tx: Transaction)
    requires Sound(es) && SoundNext(es, tx)
    ensures Total(Unspent(es) - Spends(tx)) == Total(Unspent(es)) - if tx.IsCoinbase() then 0.0 else InputValue(es, tx.vin)
  {
    if tx.IsCoinbase() {
      assert Unspent(es) - Spends(tx) == Unspent(es);
    } else {
      forall x | 0 <= x < |tx.vin| ensures Ref(tx.vin[x]) in Unspent(es) {
        assert Spendable(es, Ref(tx.vin[x]));
        SpendableIsUnspent(es, Ref(tx.vin[x]));
      }
      SpendsAreRefs(tx);
      TotalSpend(Unspent(es), es, tx.vin);
    }
  }

  /** One transaction changes the total by its outputs less its inputs. */
  lemma TotalApply(es: seq<Entry>, e: Entry)
    requires Sound(es) && SoundNext(es, e.tx)
    ensures Total(Apply(Unspent(es), e)) ==
            Total(Unspent(es)) + OutputTotal(e.tx.vout) - if e.tx.IsCoinbase() then 0.0 else InputValue(es, e.tx.vin)
  {
    forall op | op in Unspent(es) ensures op.txid != e.tx.id {
      UnspentMeaning(es, op);
    }
    ApplyIs(Unspent(es), e);
    TotalAfterSpend(es, e.tx);
    TotalCreate(Unspent(es) - Spends(e.tx), e, |e.tx.vout|);
    assert e.tx.vout[..|e.tx.vout|] == e.tx.vout;
  }

  lemma RewardStep(es: seq<Entry>, e: Entry)
    requires Sound(es) && SoundNext(es, e.tx) && e.tx.IsCoinbase() && CoinbaseOk(e.tx)
    ensures Total(Apply(Unspent(es), e)) == Total(Unspent(es)) + PAYMENT_FOR_BLOCK_MADE
  {
    TotalApply(es, e);
    OneOutput(e.tx.vout);
  }

  lemma OrdinaryTotal(es: seq<Entry>, e: Entry)
    requires Sound(es) && SoundNext(es, e.tx) && !e.tx.IsCoinbase()
    ensures Total(Apply(Unspent(es), e)) == Total(Unspent(es)) + OutputTotal(e.tx.vout) - InputValue(es, e.tx.vin)
  {
    TotalApply(es, e);
  }

  lemma SmallChange(before: real, after: real, paid: real, taken: real)
    requires after == before + paid - taken && Abs(taken - paid) < SMALLEST_UNIT
    ensures Abs(after - before) < SMALLEST_UNIT
    ensures Whole(taken - paid) ==> after == before
  {
    if Whole(taken - paid) {
      WholeSmall(taken - paid);
    }
  }

  lemma OrdinaryStep(es: seq<Entry>, e: Entry)
    requires Sound(es) && SoundNext(es, e.tx) && !e.tx.IsCoinbase()
    requires Abs(InputValue(es, e.tx.vin) - OutputTotal(e.tx.vout)) < SMALLEST_UNIT
    ensures Abs(Total(Apply(Unspent(es), e)) - Total(Unspent(es))) < SMALLEST_UNIT
    ensures Whole(InputValue(es, e.tx.vin) - OutputTotal(e.tx.vout)) ==> Total(Apply(Unspent(es), e)) == Total(Unspent(es))
  {
    OrdinaryTotal(es, e);
    SmallChange(Total(Unspent(es)), Total(Apply(Unspent(es), e)), OutputTotal(e.tx.vout), InputValue(es, e.tx.vin));
  }

  /** A reward adds its fixed value; an ordinary transaction changes the total by less than one unit. */
  lemma TotalStep(crypto: Crypto, es: seq<Entry>, e: Entry)
    requires Sound(es) && SoundNext(es, e.tx) && FairNext(crypto, es, e.tx)
    ensures e.tx.IsCoinbase() ==> Total(Apply(Unspent(es), e)) == Total(Unspent(es)) + PAYMENT_FOR_BLOCK_MADE
    ensures !e.tx.IsCoinbase() ==> Abs(Total(Apply(Unspent(es), e)) - Total(Unspent(es))) < SMALLEST_UNIT
  {
    if e.tx.IsCoinbase() {
      RewardStep(es, e);
    } else {
      OrdinaryStep(es, e);
    }
  }

  lemma OneOutput(vout: seq<TXOutput>)
    requires |vout| == 1
    ensures OutputTotal(vout) == vout[0].value
  {
    assert vout[..0] == [];
  }

  lemma TotalStepExact(crypto: Crypto, es: seq<Entry>, e: Entry)
    requires Sound(es) && SoundNext(es, e.tx) && FairNext(crypto, es, e.tx) && !e.tx.IsCoinbase()
    requires Whole(InputValue(es, e.tx.vin) - OutputTotal(e.tx.vout))
    ensures Total(Apply(Unspent(es), e)) == Total(Unspent(es))
  {
    OrdinaryStep(es, e);
  }

  lemma ProperSplit(crypto: Crypto, es: seq<Entry>)
    requires Proper(crypto, es) && es != []
    ensures var init, e := es[..|es| - 1], es[|es| - 1];
            && Proper(crypto, init) && Sound(init) && SoundNext(init, e.tx) && FairNext(crypto, init, e.tx)
            && Unspent(es) == Apply(Unspent(init), e)
  {
    ProperIsSound(crypto, es[..|es| - 1]);
  }

  function Rewards(es: seq<Entry>): nat {
    if es == [] then 0 else Rewards(es[..|es| - 1]) + if es[|es| - 1].tx.IsCoinbase() then 1 else 0
  }

  /** A total lies within the slack of what is due, adding up reward by reward and unit by unit. */
  function Due(es: seq<Entry>): real {
    if es == [] then 0.0 else Due(es[..|es| - 1]) + if es[|es| - 1].tx.IsCoinbase() then PAYMENT_FOR_BLOCK_MADE else 0.0
  }

  function Slack(es: seq<Entry>): real {
    if es == [] then 0.0 else Slack(es[..|es| - 1]) + if es[|es| - 1].tx.IsCoinbase() then 0.0 else SMALLEST_UNIT
  }

  lemma {:induction false} DueSlack(es: seq<Entry>)
    ensures Rewards(es) <= |es|
    ensures Due(es) == PAYMENT_FOR_BLOCK_MADE * Rewards(es) as real
    ensures Slack(es) == SMALLEST_UNIT * (|es| - Rewards(es)) as real
    decreases |es|
  {
    if es != [] {
      DueSlack(es[..|es| - 1]);
    }
  }

  lemma {:induction false} WithinSlack(crypto: Crypto, es: seq<Entry>)
    requires Proper(crypto, es)
    ensures -Slack(es) <= Total(Unspent(es)) - Due(es) <= Slack(es)
    decreases |es|
  {
    if es != [] {
      var init, e := es[..|es| - 1], es[|es| - 1];
      InitLast(es);
      ProperSplit(crypto, es);
      WithinSlack(crypto, init);
      SlackKept(crypto, init, e, Total(Unspent(init)), Total(Apply(Unspent(init), e)));
    }
  }

  lemma DueNext(init: seq<Entry>, e: Entry)
    ensures Due(init + [e]) == Due(init) + (if e.tx.IsCoinbase() then PAYMENT_FOR_BLOCK_MADE else 0.0)
    ensures Slack(init + [e]) == Slack(init) + (if e.tx.IsCoinbase() then 0.0 else SMALLEST_UNIT)
  {
    assert (init + [e])[..|init|] == init;
  }

  lemma SlackKept(crypto: Crypto, init: seq<Entry>, e: Entry, t: real, t': real)
    requires Sound(init) && SoundNext(init, e.tx) && FairNext(crypto, init, e.tx)
    requires t == Total(Unspent(init)) && t' == Total(Apply(Unspent(init), e))
    requires -Slack(init) <= t - Due(init) <= Slack(init)
    ensures -Slack(init + [e]) <= t' - Due(init + [e]) <= Slack(init + [e])
  {
    TotalStep(crypto, init, e);
    DueNext(init, e);
    SlackStep(t, t', Due(init), Due(init + [e]), Slack(init), Slack(init + [e]), e.tx.IsCoinbase());
  }

  lemma SlackStep(t: real, t': real, d: real, d': real, s: real, s': real, reward: bool)
    requires -s <= t - d <= s
    requires reward ==> t' == t + PAYMENT_FOR_BLOCK_MADE && d' == d + PAYMENT_FOR_BLOCK_MADE && s' == s
    requires !reward ==> Abs(t' - t) < SMALLEST_UNIT && d' == d && s' == s + SMALLEST_UNIT
    ensures -s' <= t' - d' <= s'
  {
  }

  /** The unspent outputs of a proper chain total its rewards, to within one smallest unit per ordinary transaction. */
  lemma Conservation(crypto: Crypto, es: seq<Entry>)
    requires Proper(crypto, es)
    ensures Rewards(es) <= |es|
    ensures Abs(Total(Unspent(es)) - PAYMENT_FOR_BLOCK_MADE * Rewards(es) as real)
            <= SMALLEST_UNIT * (|es| - Rewards(es)) as real
  {
    WithinSlack(crypto, es);
    DueSlack(es);
  }

  // ----- Whole units

  /** The amount is a whole number of smallest units. */
  predicate Whole(v: real) {
    (v * 100000000.0).Floor as real == v * 100000000.0
  }

  lemma WholeSum(a: real, b: real)
    requires Whole(a) && Whole(b)
    ensures Whole(a + b) && Whole(a - b)
  {
    var x, y := (a * 100000000.0).Floor, (b * 100000000.0).Floor;
    FloorOf((a + b) * 100000000.0, x + y);
    FloorOf((a - b) * 100000000.0, x - y);
  }

  lemma FloorOf(r: real, n: int)
    requires r == n as real
    ensures r.Floor as real == r
  {
  }

  lemma WholeSmall(a: real)
    requires Whole(a) && Abs(a) < SMALLEST_UNIT
    ensures a == 0.0
  {
    var x := (a * 100000000.0).Floor;
    assert -1.0 < x as real < 1.0;
  }

  ghost predicate WholeOutputs(es: seq<Entry>) {
    forall i, k :: 0 <= i < |es| && 0 <= k < |es[i].tx.vout| ==> Whole(es[i].tx.vout[k].value)
  }

  lemma {:induction false} WholeOutputTotal(vout: seq<TXOutput>)
    requires forall k :: 0 <= k < |vout| ==> Whole(vout[k].value)
    ensures Whole(OutputTotal(vout))
    decreases |vout|
  {
    if vout == [] {
      assert 0.0 * 100000000.0 == 0.0;
    } else {
      WholeOutputTotal(vout[..|vout| - 1]);
      WholeSum(OutputTotal(vout[..|vout| - 1]), vout[|vout| - 1].value);
    }
  }

  lemma {:induction false} WholeInputValue(es: seq<Entry>, vin: seq<TXInput>)
    requires Sound(es) && WholeOutputs(es)
    ensures Whole(InputValue(es, vin))
    decreases |vin|
  {
    if vin == [] {
      assert 0.0 * 100000000.0 == 0.0;
    } else {
      var op := Ref(vin[|vin| - 1]);
      UnspentMeaning(es, op);
      if op in Unspent(es) {
        var i :| KeptFrom(es, i, op);
      }
      WholeInputValue(es, vin[..|vin| - 1]);
      assert Whole(InputCoin(es, vin[|vin| - 1]).value);
      WholeSum(InputValue(es, vin[..|vin| - 1]), InputCoin(es, vin[|vin| - 1]).value);
    }
  }

  /** When every amount is a whole number of smallest units the total is exactly the rewards. */
  lemma {:induction false} ExactConservation(crypto: Crypto, es: seq<Entry>)
    requires Proper(crypto, es) && WholeOutputs(es)
    ensures Total(Unspent(es)) == PAYMENT_FOR_BLOCK_MADE * Rewards(es) as real
    decreases |es|
  {
    if es != [] {
      var init, e := es[..|es| - 1], es[|es| - 1];
      ProperSplit(crypto, es);
      ExactConservation(crypto, init);
      ExactStep(crypto, es, init, e);
    }
  }

  lemma ExactStep(crypto: Crypto, es: seq<Entry>, init: seq<Entry>, e: Entry)
    requires es != [] && init == es[..|es| - 1] && e == es[|es| - 1]
    requires Proper(crypto, es) && WholeOutputs(es)
    ensures Total(Unspent(es)) == Total(Unspent(init)) + if e.tx.IsCoinbase() then PAYMENT_FOR_BLOCK_MADE else 0.0
  {
    ProperSplit(crypto, es);
    if e.tx.IsCoinbase() {
      TotalStep(crypto, init, e);
    } else {
      WholeChange(es, init, e);
      TotalStepExact(crypto, init, e);
    }
  }

  lemma WholeChange(es: seq<Entry>, init: seq<Entry>, e: Entry)
    requires es != [] && init == es[..|es| - 1] && e == es[|es| - 1] && Sound(init) && WholeOutputs(es)
    ensures Whole(InputValue(init, e.tx.vin) - OutputTotal(e.tx.vout))
  {
    WholeParts(es, e.tx.vout);
    WholeOutputTotal(e.tx.vout);
    WholeInputValue(init, e.tx.vin);
    WholeSum(InputValue(init, e.tx.vin), OutputTotal(e.tx.vout));
  }

  lemma WholeParts(es: seq<Entry>, vout: seq<TXOutput>)
    requires es != [] && WholeOutputs(es) && vout == es[|es| - 1].tx.vout
    ensures WholeOutputs(es[..|es| - 1]) && forall k :: 0 <= k < |vout| ==> Whole(vout[k].value)
  {
  }

  // ----- One reward in each block

  lemma {:induction false} RewardsOfTag(es: seq<Entry>, b: Block, n: nat)
    requires OneCoinbase(b.txs) && n <= |b.txs|
    ensures Rewards(es + Tag(b)[..n]) == Rewards(es) + if exists k :: 0 <= k < n && b.txs[k].IsCoinbase() then 1 else 0
    decreases n
  {
    var all := es + Tag(b)[..n];
    if n == 0 {
      assert all == es;
    } else {
      RewardsOfTag(es, b, n - 1);
      assert all[..|all| - 1] == es + Tag(b)[..n - 1];
      assert all[|all| - 1].tx == b.txs[n - 1];
    }
  }

  lemma RewardOfBlock(es: seq<Entry>, b: Block)
    requires OneCoinbase(b.txs)
    ensures Rewards(es + Tag(b)) == Rewards(es) + 1
  {
    RewardsOfTag(es, b, |b.txs|);
    assert Tag(b)[..|b.txs|] == Tag(b);
  }

  /** A path on which every block has one reward has as many rewards as blocks. */
  lemma {:induction false} RewardsOfPath(t: Tree, h: Bytes)
    requires t.Valid() && h in t.blocks && forall a :: a in t.Path(h) ==> OneCoinbase(t.blocks[a].txs)
    ensures Rewards(Entries(t, h)) == t.blocks[h].height + 1
    decreases t.blocks[h].height
  {
    assert t.Link(h) && h in t.Path(h);
    var b := t.blocks[h];
    if h == t.genesis {
      RewardOfBlock([], b);
      assert [] + Tag(b) == Tag(b);
    } else {
      assert t.Path(h) == [h] + t.Path(b.prev);
      RewardsOfPath(t, b.prev);
      RewardOfBlock(Entries(t, b.prev), b);
    }
  }
}

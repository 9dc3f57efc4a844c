/**
 Choosing outputs for a payment, and the outputs of the transaction prepared from them
 (node/transactions/unspent.go:120-184 and 636-708, node/transactions/manager.go:336-421).
 */
module CoinSelection {
  import opened Structures
  import opened Ledger
  import opened TransactionRules
  import opened Pool
  import opened OutputRecords

  function SumOf(outs: seq<UOut>): real {
    if outs == [] then 0.0 else SumOf(outs[..|outs| - 1]) + outs[|outs| - 1].value
  }

  function Op(o: UOut): Outpoint {
    Outpoint(o.txid, o.oIndex)
  }

  predicate NamedBy(pending: seq<TXInput>, op: Outpoint) {
    exists i :: 0 <= i < |pending| && Ref(pending[i]) == op
  }

  /** The output belongs to the key and no pending transaction uses it. */
  predicate Usable(o: UOut, owner: Bytes, pending: seq<TXInput>) {
    o.destPubKeyHash == owner && !NamedBy(pending, Op(o))
  }

  function UsableOf(outs: seq<UOut>, owner: Bytes, pending: seq<TXInput>): seq<UOut> {
    if outs == [] then []
    else
      UsableOf(outs[..|outs| - 1], owner, pending)
      + if Usable(outs[|outs| - 1], owner, pending) then [outs[|outs| - 1]] else []
  }

  /** The usable outputs of the listed records. */
  function Gathered(data: Cache, ids: seq<Bytes>, owner: Bytes, pending: seq<TXInput>): seq<UOut>
    requires forall id :: id in ids ==> id in data
  {
    if ids == [] then []
    else Gathered(data, ids[..|ids| - 1], owner, pending) + UsableOf(data[ids[|ids| - 1]], owner, pending)
  }

  /** Some listing of the usable outputs of the whole cache, record by record. */
  ghost predicate Available(data: Cache, owner: Bytes, pending: seq<TXInput>, available: seq<UOut>) {
    exists ids {:trigger Listing(data, ids)} :: Listing(data, ids) && available == Gathered(data, ids, owner, pending)
  }

  ghost predicate Listing(data: Cache, ids: seq<Bytes>) {
    Distinct(ids) && forall id :: id in ids <==> id in data
  }

  // ----- What is available

  lemma {:induction false} UsableOfMembers(outs: seq<UOut>, owner: Bytes, pending: seq<TXInput>)
    ensures forall o :: o in UsableOf(outs, owner, pending) <==> o in outs && Usable(o, owner, pending)
    decreases |outs|
  {
    if outs != [] {
      UsableOfMembers(outs[..|outs| - 1], owner, pending);
      InitLast(outs);
    }
  }

  lemma {:induction false} GatheredMembers(data: Cache, ids: seq<Bytes>, owner: Bytes, pending: seq<TXInput>, o: UOut)
    requires forall id :: id in ids ==> id in data
    ensures o in Gathered(data, ids, owner, pending) <==> Usable(o, owner, pending) && exists id :: id in ids && o in data[id]
    decreases |ids|
  {
    if ids != [] {
      var init, last := ids[..|ids| - 1], ids[|ids| - 1];
      GatheredMembers(data, init, owner, pending, o);
      UsableOfMembers(data[last], owner, pending);
      InitLast(ids);
    }
  }

  ghost predicate DistinctOps(outs: seq<UOut>) {
    forall i, j :: 0 <= i < j < |outs| ==> Op(outs[i]) != Op(outs[j])
  }

  lemma {:induction false} UsableOfTidy(outs: seq<UOut>, id: Bytes, owner: Bytes, pending: seq<TXInput>)
    requires TidyList(outs, id)
    ensures TidyList(UsableOf(outs, owner, pending), id)
    decreases |outs|
  {
    if outs != [] {
      var init := outs[..|outs| - 1];
      UsableOfTidy(init, id, owner, pending);
      UsableOfMembers(init, owner, pending);
      var rest := UsableOf(init, owner, pending);
      forall i | 0 <= i < |rest| ensures rest[i].oIndex != outs[|outs| - 1].oIndex {
        assert rest[i] in rest && rest[i] in init;
        var m :| 0 <= m < |init| && init[m] == rest[i];
        assert outs[m] == rest[i];
      }
    }
  }

  lemma {:induction false} GatheredIds(data: Cache, ids: seq<Bytes>, owner: Bytes, pending: seq<TXInput>)
    requires Tidy(data) && forall id :: id in ids ==> id in data
    ensures forall o :: o in Gathered(data, ids, owner, pending) ==> o.txid in ids
    decreases |ids|
  {
    if ids != [] {
      var last := ids[|ids| - 1];
      GatheredIds(data, ids[..|ids| - 1], owner, pending);
      UsableOfTidy(data[last], last, owner, pending);
    }
  }

  lemma JoinDistinct(a: seq<UOut>, b: seq<UOut>, id: Bytes)
    requires DistinctOps(a) && TidyList(b, id) && forall o :: o in a ==> o.txid != id
    ensures DistinctOps(a + b)
  {
    var all := a + b;
    forall i, j | 0 <= i < j < |all| ensures Op(all[i]) != Op(all[j]) {
      if i < |a| && j >= |a| {
        assert a[i] in a;
      }
    }
  }

  /** In a tidy cache no output is available twice. */
  lemma {:induction false} GatheredDistinct(data: Cache, ids: seq<Bytes>, owner: Bytes, pending: seq<TXInput>)
    requires Tidy(data) && Distinct(ids) && forall id :: id in ids ==> id in data
    ensures DistinctOps(Gathered(data, ids, owner, pending))
    decreases |ids|
  {
    if ids != [] {
      var init, last := ids[..|ids| - 1], ids[|ids| - 1];
      GatheredDistinct(data, init, owner, pending);
      GatheredIds(data, init, owner, pending);
      UsableOfTidy(data[last], last, owner, pending);
      JoinDistinct(Gathered(data, init, owner, pending), UsableOf(data[last], owner, pending), last);
    }
  }

  // ----- Sums

  lemma {:induction false} SumAppend(a: seq<UOut>, b: seq<UOut>)
    ensures SumOf(a + b) == SumOf(a) + SumOf(b)
    decreases |b|
  {
    if b == [] {
      assert a + b == a;
    } else {
      assert (a + b)[..|a + b| - 1] == a + b[..|b| - 1];
      SumAppend(a, b[..|b| - 1]);
    }
  }

  lemma RemoveOne<T>(s: seq<T>, p: nat)
    requires p < |s|
    ensures multiset(s[..p] + s[p + 1..]) == multiset(s) - multiset{s[p]}
    ensures multiset(s) == multiset(s[..p] + s[p + 1..]) + multiset{s[p]}
  {
    assert s == s[..p] + [s[p]] + s[p + 1..];
  }

  lemma SumWithout(outs: seq<UOut>, p: nat)
    requires p < |outs|
    ensures SumOf(outs) == SumOf(outs[..p] + outs[p + 1..]) + outs[p].value
  {
    var a, b := outs[..p], outs[p + 1..];
    SplitAt(outs, p);
    SumAppend(a + [outs[p]], b);
    SumAppend(a, [outs[p]]);
    SumAppend(a, b);
    assert [outs[p]][..0] == [];
  }

  lemma SplitAt<T>(s: seq<T>, p: nat)
    requires p < |s|
    ensures s == s[..p] + [s[p]] + s[p + 1..]
  {
  }

  lemma SameMembers<T>(a: seq<T>, b: seq<T>)
    requires multiset(a) == multiset(b)
    ensures |a| == |b| && forall x :: x in a <==> x in b
  {
    assert |a| == |multiset(a)| && |b| == |multiset(b)|;
    assert forall x :: x in a <==> x in multiset(a);
    assert forall x :: x in b <==> x in multiset(b);
  }

  lemma MemberOfMultiset<T>(a: seq<T>, x: T)
    ensures x in a <==> multiset(a)[x] > 0
  {
    assert x in a <==> x in multiset(a);
  }

  /** Taking one and the same element out of both keeps the contents the same. */
  lemma RemoveSame<T>(a: seq<T>, b: seq<T>) returns (p: nat)
    requires multiset(a) == multiset(b) && a != []
    ensures p < |b| && b[p] == a[|a| - 1]
    ensures multiset(a[..|a| - 1]) == multiset(b[..p] + b[p + 1..])
  {
    SameMembers(a, b);
    assert a[|a| - 1] in b;
    p :| 0 <= p < |b| && b[p] == a[|a| - 1];
    RemoveOne(a, |a| - 1);
    RemoveOne(b, p);
    assert a[..|a| - 1] + a[|a| - 1 + 1..] == a[..|a| - 1];
  }

  /** The order of the outputs does not matter for their sum. */
  lemma {:induction false} SumReordered(a: seq<UOut>, b: seq<UOut>)
    requires multiset(a) == multiset(b)
    ensures SumOf(a) == SumOf(b)
    decreases |a|
  {
    if a == [] {
      SameMembers(a, b);
    } else {
      var p := RemoveSame(a, b);
      SumWithout(b, p);
      SumReordered(a[..|a| - 1], b[..p] + b[p + 1..]);
    }
  }

  predicate SortedByValue(outs: seq<UOut>) {
    forall i, j :: 0 <= i < j < |outs| ==> outs[i].value <= outs[j].value
  }

  /** Of n outputs drawn from a sorted list one is at least as big as the n-th of the list. */
  lemma SomeBigOne(s: seq<UOut>, other: seq<UOut>) returns (p: nat)
    requires SortedByValue(s) && multiset(other) <= multiset(s) && other != []
    ensures |other| <= |s| && p < |other| && other[p].value >= s[|other| - 1].value
  {
    var n := |other|;
    assert |multiset(s)| == |multiset(other)| + |multiset(s) - multiset(other)|;
    assert |multiset(s)| == |s| && |multiset(other)| == n;
    if forall q :: 0 <= q < n ==> other[q].value < s[n - 1].value {
      FitBelow(s, other, n - 1);
    }
    p :| 0 <= p < n && other[p].value >= s[n - 1].value;
  }

  /** Outputs smaller than the one at place m all come from before it. */
  lemma FitBelow(s: seq<UOut>, other: seq<UOut>, m: nat)
    requires SortedByValue(s) && m < |s| && multiset(other) <= multiset(s)
    requires forall q :: 0 <= q < |other| ==> other[q].value < s[m].value
    ensures |other| <= m
  {
    var low, high := s[..m], s[m..];
    assert s == low + high;
    forall o ensures multiset(other)[o] <= multiset(low)[o] {
      MemberOfMultiset(other, o);
      MemberOfMultiset(high, o);
      assert multiset(s)[o] == multiset(low)[o] + multiset(high)[o];
      if o in other {
        assert o !in high;
      }
    }
    assert multiset(other) <= multiset(low);
    assert |multiset(low)| == |multiset(other)| + |multiset(low) - multiset(other)|;
    assert |multiset(low)| == m && |multiset(other)| == |other|;
  }

  lemma RestWithin<T>(a: seq<T>, b: seq<T>, p: nat)
    requires p < |a| && multiset(a) <= multiset(b)
    ensures multiset(a[..p] + a[p + 1..]) <= multiset(b) && |a[..p] + a[p + 1..]| == |a| - 1
  {
    RemoveOne(a, p);
  }

  /** The first n of a sorted list total no more than any n outputs of it. */
  lemma {:induction false} PrefixIsCheapest(s: seq<UOut>, other: seq<UOut>)
    requires SortedByValue(s) && multiset(other) <= multiset(s)
    ensures |other| <= |s| && SumOf(s[..|other|]) <= SumOf(other)
    decreases |other|
  {
    if other != [] {
      var n := |other|;
      var p := SomeBigOne(s, other);
      var rest := other[..p] + other[p + 1..];
      SumWithout(other, p);
      RestWithin(other, s, p);
      PrefixIsCheapest(s, rest);
      PrefixSum(s, n);
    }
  }

  lemma PrefixSum(s: seq<UOut>, n: nat)
    requires 0 < n <= |s|
    ensures SumOf(s[..n]) == SumOf(s[..n - 1]) + s[n - 1].value
  {
    assert s[..n][..n - 1] == s[..n - 1];
  }

  /** Any other choice of the same number of available outputs totals at least as much. */
  ghost predicate Cheapest(available: seq<UOut>, chosen: seq<UOut>) {
    forall other :: multiset(other) <= multiset(available) && |other| == |chosen| ==> SumOf(chosen) <= SumOf(other)
  }

  /**
   The chosen outputs are different ones of the available, cover the amount when the available
   do, are the cheapest of their number, and without the last one would not cover it.
   */
  ghost predicate GoodChoice(available: seq<UOut>, amount: real, chosen: seq<UOut>) {
    && multiset(chosen) <= multiset(available)
    && if SumOf(available) < amount then chosen == available
       else
         && SumOf(chosen) >= amount && Cheapest(available, chosen)
         && (|chosen| > 1 || (chosen != [] && amount > 0.0) ==> SumOf(chosen[..|chosen| - 1]) < amount)
  }

  lemma PrefixWithin<T>(s: seq<T>, n: nat)
    requires n <= |s|
    ensures multiset(s[..n]) <= multiset(s)
  {
    assert s == s[..n] + s[n..];
  }

  lemma CheapestPrefix(available: seq<UOut>, s: seq<UOut>, n: nat)
    requires SortedByValue(s) && multiset(s) == multiset(available) && n <= |s|
    ensures Cheapest(available, s[..n])
  {
    forall other | multiset(other) <= multiset(available) && |other| == n ensures SumOf(s[..n]) <= SumOf(other) {
      PrefixIsCheapest(s, other);
    }
  }

  lemma WithinOther<T>(s: seq<T>, other: seq<T>, n: nat)
    requires n <= |s| && multiset(s) == multiset(other)
    ensures multiset(s[..n]) <= multiset(other)
  {
    PrefixWithin(s, n);
  }

  lemma PrefixIsGood(available: seq<UOut>, s: seq<UOut>, amount: real, chosen: seq<UOut>)
    requires SortedByValue(s) && multiset(s) == multiset(available) && SumOf(available) >= amount
    requires chosen <= s && SumOf(chosen) >= amount
    requires |chosen| > 1 || (chosen != [] && amount > 0.0) ==> SumOf(chosen[..|chosen| - 1]) < amount
    ensures GoodChoice(available, amount, chosen)
  {
    assert s[..|chosen|] == chosen;
    WithinOther(s, available, |chosen|);
    CheapestPrefix(available, s, |chosen|);
  }

  ghost predicate Positive(outs: seq<UOut>) {
    forall i :: 0 <= i < |outs| ==> outs[i].value > 0.0
  }

  lemma {:induction false} SumPositive(outs: seq<UOut>, n: nat)
    requires Positive(outs) && n <= |outs|
    ensures SumOf(outs[..n]) <= SumOf(outs)
    decreases |outs|
  {
    if n < |outs| {
      SumPositive(outs[..|outs| - 1], n);
      assert outs[..|outs| - 1][..n] == outs[..n];
    } else {
      assert outs[..n] == outs;
    }
  }

  /** The choice uses as many outputs as possible: of more than that one could always be left out. */
  lemma ChoiceIsLongest(available: seq<UOut>, amount: real, chosen: seq<UOut>, other: seq<UOut>)
    requires GoodChoice(available, amount, chosen) && SumOf(available) >= amount
    requires multiset(other) <= multiset(available) && Positive(other) && |other| > |chosen|
    ensures SumOf(other[..|other| - 1]) >= amount
  {
    var n, part := |chosen|, other[..|other| - 1];
    PrefixWithin(other, n);
    SumPositive(part, n);
    assert part[..n] == other[..n];
  }

  /** Chosen outputs are different when the available ones are. */
  lemma ChosenDistinct(available: seq<UOut>, chosen: seq<UOut>)
    requires DistinctOps(available) && multiset(chosen) <= multiset(available)
    ensures DistinctOps(chosen)
  {
    DistinctCount(available);
    DistinctCount(chosen);
    assert Distinct(available);
    forall i, j | 0 <= i < j < |chosen| ensures Op(chosen[i]) != Op(chosen[j]) {
      assert chosen[i] != chosen[j];
      MemberOfMultiset(chosen, chosen[i]);
      MemberOfMultiset(chosen, chosen[j]);
      MemberOfMultiset(available, chosen[i]);
      MemberOfMultiset(available, chosen[j]);
      var m :| 0 <= m < |available| && available[m] == chosen[i];
      var n :| 0 <= n < |available| && available[n] == chosen[j];
      assert m < n || n < m;
    }
  }

  method InsertByValue(s: seq<UOut>, o: UOut) returns (r: seq<UOut>)
    requires SortedByValue(s)
    ensures SortedByValue(r) && multiset(r) == multiset(s) + multiset{o}
  {
    var p := 0;
    while p < |s| && s[p].value <= o.value
      invariant p <= |s| && forall k :: 0 <= k < p ==> s[k].value <= o.value
    {
      p := p + 1;
    }
    InsertKeeps(s, p, o);
    r := s[..p] + [o] + s[p..];
  }

  /** Sorts outputs by value, smallest first; the order of equal values is left open. */
  method SortByValue(outs: seq<UOut>) returns (r: seq<UOut>)
    ensures SortedByValue(r) && multiset(r) == multiset(outs)
  {
    r := [];
    for i := 0 to |outs|
      invariant SortedByValue(r) && multiset(r) == multiset(outs[..i])
    {
      r := InsertByValue(r, outs[i]);
      assert outs[..i + 1] == outs[..i] + [outs[i]];
    }
    assert outs[..|outs|] == outs;
  }

  // ----- Outputs of the pool

  function PendingSum(outs: seq<PendingOut>): real {
    if outs == [] then 0.0 else PendingSum(outs[..|outs| - 1]) + outs[|outs| - 1].out.value
  }

  /** The first k outputs do not reach the amount. */
  predicate Short(pending: seq<PendingOut>, amount: real, total: real, k: nat)
    requires k <= |pending|
  {
    total + PendingSum(pending[..k]) < amount
  }

  /** Fewer than n outputs do not reach the amount. */
  predicate NotReached(pending: seq<PendingOut>, amount: real, total: real, n: nat) {
    forall k {:trigger Short(pending, amount, total, k)} :: 0 < k < n && k <= |pending| ==> Short(pending, amount, total, k)
  }

  /** How many pending outputs are taken: up to the first with which the amount is reached, or all. */
  predicate TakenUpTo(pending: seq<PendingOut>, amount: real, total: real, n: nat) {
    && n <= |pending| && NotReached(pending, amount, total, n)
    && (n == |pending| || (n > 0 && !Short(pending, amount, total, n)))
  }

  function InputsOf(outs: seq<UOut>, pubKey: Bytes): (vin: seq<TXInput>)
    ensures |vin| == |outs|
  {
    if outs == [] then []
    else InputsOf(outs[..|outs| - 1], pubKey) + [TXInput(outs[|outs| - 1].txid, outs[|outs| - 1].oIndex, [], pubKey)]
  }

  lemma {:induction false} InputsOfAt(outs: seq<UOut>, pubKey: Bytes, i: nat)
    requires i < |outs|
    ensures InputsOf(outs, pubKey)[i] == TXInput(outs[i].txid, outs[i].oIndex, [], pubKey)
    decreases |outs|
  {
    if i < |outs| - 1 {
      InputsOfAt(outs[..|outs| - 1], pubKey, i);
    }
  }

  lemma {:induction false} InputsOfAppend(a: seq<UOut>, b: seq<UOut>, pubKey: Bytes)
    ensures InputsOf(a + b, pubKey) == InputsOf(a, pubKey) + InputsOf(b, pubKey)
    decreases |b|
  {
    if b == [] {
      assert a + b == a;
    } else {
      assert (a + b)[..|a + b| - 1] == a + b[..|b| - 1];
      InputsOfAppend(a, b[..|b| - 1], pubKey);
    }
  }

  function OutsOf(pending: seq<PendingOut>): (outs: seq<UOut>)
    ensures |outs| == |pending|
  {
    if pending == [] then [] else OutsOf(pending[..|pending| - 1]) + [pending[|pending| - 1].out]
  }

  /** The map with the transactions of the pending outputs put in. */
  function WithPending(before: map<Bytes, Transaction>, pending: seq<PendingOut>): map<Bytes, Transaction> {
    if pending == [] then before
    else WithPending(before, pending[..|pending| - 1])[pending[|pending| - 1].tx.id := pending[|pending| - 1].tx]
  }

  /** Inputs, transactions and total after the first n pending outputs joined. */
  ghost predicate Extended(pending: seq<PendingOut>, pubKey: Bytes, inputs: seq<TXInput>, prev: map<Bytes, Transaction>, total: real,
                           n: nat, inputs': seq<TXInput>, prev': map<Bytes, Transaction>, total': real)
  {
    && n <= |pending|
    && inputs' == inputs + InputsOf(OutsOf(pending[..n]), pubKey)
    && prev' == WithPending(prev, pending[..n])
    && total' == total + PendingSum(pending[..n])
  }

  lemma NothingExtended(pending: seq<PendingOut>, pubKey: Bytes, inputs: seq<TXInput>, prev: map<Bytes, Transaction>, total: real)
    ensures Extended(pending, pubKey, inputs, prev, total, 0, inputs, prev, total)
  {
    assert pending[..0] == [];
  }

  lemma ExtendedStep(pending: seq<PendingOut>, pubKey: Bytes, inputs: seq<TXInput>, prev: map<Bytes, Transaction>, total: real,
                     n: nat, inputs': seq<TXInput>, prev': map<Bytes, Transaction>, total': real)
    requires n < |pending| && Extended(pending, pubKey, inputs, prev, total, n, inputs', prev', total')
    ensures var p := pending[n];
            Extended(pending, pubKey, inputs, prev, total, n + 1,
                     inputs' + [TXInput(p.out.txid, p.out.oIndex, [], pubKey)], prev'[p.tx.id := p.tx], total' + p.out.value)
  {
    assert pending[..n + 1][..n] == pending[..n];
    InputsOfAppend(OutsOf(pending[..n]), [pending[n].out], pubKey);
    assert [pending[n].out][..0] == [];
  }

  lemma {:induction false} PendingSumIs(pending: seq<PendingOut>)
    ensures PendingSum(pending) == SumOf(OutsOf(pending))
    decreases |pending|
  {
    if pending != [] {
      PendingSumIs(pending[..|pending| - 1]);
      assert OutsOf(pending)[..|pending| - 1] == OutsOf(pending[..|pending| - 1]);
    }
  }

  /** The record is what the transaction says of its output. */
  ghost predicate Backing(o: UOut, tx: Transaction) {
    tx.id == o.txid && InRange(tx, o.oIndex) && tx.vout[o.oIndex] == TXOutput(o.value, o.destPubKeyHash)
  }

  // ----- The outputs of the prepared transaction

  /** The payment, and the change when it is more than one smallest unit. */
  function PaymentOutputs(owner: Bytes, to: Bytes, amount: real, total: real): seq<TXOutput> {
    [TXOutput(amount, to)] + if total > amount && total - amount > SMALLEST_UNIT then [TXOutput(total - amount, owner)] else []
  }

  /** The prepared outputs pass the size and balance tests for every excess but exactly one smallest unit. */
  lemma PaymentBalances(owner: Bytes, to: Bytes, amount: real, total: real)
    requires total >= amount
    ensures var vout := PaymentOutputs(owner, to, amount, total);
            && (OutputsBigEnough(vout) <==> amount >= SMALLEST_UNIT)
            && (Abs(total - OutputTotal(vout)) < SMALLEST_UNIT <==> total - amount != SMALLEST_UNIT)
  {
    var vout := PaymentOutputs(owner, to, amount, total);
    var first := [TXOutput(amount, to)];
    assert first[..0] == [];
    assert OutputTotal(first) == amount;
    if |vout| == 2 {
      assert vout[..1] == first;
    } else {
      assert vout == first;
    }
    assert vout[0].value == amount;
  }

  /** The transaction spends the used outputs of the key, in order, each with its transaction at hand. */
  ghost predicate SpendsUsed(tx: Transaction, used: seq<UOut>, owner: Bytes, prev: InputTXs) {
    && |tx.vin| == |used|
    && forall x {:trigger used[x]} :: 0 <= x < |used| ==>
         && Ref(tx.vin[x]) == Op(used[x]) && used[x].destPubKeyHash == owner
         && x in prev && prev[x].Some? && Backing(used[x], prev[x].value)
  }

  lemma {:induction false} InputTotalIs(tx: Transaction, used: seq<UOut>, owner: Bytes, prev: InputTXs, n: nat)
    requires SpendsUsed(tx, used, owner, prev) && n <= |used|
    ensures forall x :: 0 <= x < n ==> HasInput(tx, prev, x)
    ensures InputTotal(tx, prev, n) == SumOf(used[..n])
    decreases n
  {
    if n > 0 {
      InputTotalIs(tx, used, owner, prev, n - 1);
      assert used[..n][..n - 1] == used[..n - 1];
      assert Backing(used[n - 1], prev[n - 1].value);
    }
  }

  /** Every input is signed with the key that owns the used outputs. */
  ghost predicate SignedBy(crypto: Crypto, tx: Transaction, owner: Bytes) {
    forall x {:trigger tx.vin[x]} :: 0 <= x < |tx.vin| ==>
      crypto.hashPubKey(tx.vin[x].pubKey) == owner && crypto.signatureValid(tx, x, owner)
  }

  /**
   The prepared transaction, once signed, verifies exactly when the amount is at least one
   smallest unit and the excess of the used outputs is not exactly one.
   */
  lemma SignedVerifies(crypto: Crypto, tx: Transaction, used: seq<UOut>, owner: Bytes, prev: InputTXs, to: Bytes, amount: real)
    requires SpendsUsed(tx, used, owner, prev) && SignedBy(crypto, tx, owner) && !tx.IsCoinbase()
    requires SumOf(used) >= amount && tx.vout == PaymentOutputs(owner, to, amount, SumOf(used))
    ensures Verifies(crypto, tx, prev) <==> amount >= SMALLEST_UNIT && SumOf(used) - amount != SMALLEST_UNIT
  {
    InputTotalIs(tx, used, owner, prev, |used|);
    assert used[..|used|] == used;
    PaymentBalances(owner, to, amount, SumOf(used));
    forall x | 0 <= x < |tx.vin| ensures HasInput(tx, prev, x) && SignedByOwner(crypto, tx, prev, x) {
      assert Backing(used[x], prev[x].value) && Ref(tx.vin[x]) == Op(used[x]);
      assert tx.vin[x] == tx.vin[x];
    }
  }
}

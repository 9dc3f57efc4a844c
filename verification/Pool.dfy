/**
 The pool of transactions waiting for a block (node/transactions/pending.go,
 node/database/unapprovedtransactions.go). The bucket is read in an order left open.
 */
module Pool {
  import opened Structures
  import opened Ledger
  import opened TransactionRules
  import opened OutputRecords
  import opened PreparedBy

  type PoolMap = map<Bytes, Transaction>

  predicate SharesInput(a: Transaction, b: Transaction) {
    exists x, y :: 0 <= x < |a.vin| && 0 <= y < |b.vin| && Ref(a.vin[x]) == Ref(b.vin[y])
  }

  ghost predicate ConflictsWith(pool: PoolMap, tx: Transaction) {
    exists id :: id in pool && SharesInput(tx, pool[id])
  }

  /** Adding refuses a transaction that shares an input with one of the pool. */
  ghost function Added(pool: PoolMap, tx: Transaction): PoolMap {
    if ConflictsWith(pool, tx) then pool else pool[tx.id := tx]
  }

  /** The ordinary transactions of a cancelled block come back one after the other. */
  ghost function Returned(pool: PoolMap, txs: seq<Transaction>): PoolMap {
    if txs == [] then pool
    else
      var p, tx := Returned(pool, txs[..|txs| - 1]), txs[|txs| - 1];
      if tx.IsCoinbase() then p else Added(p, tx)
  }

  function OrdinaryIds(txs: seq<Transaction>): set<Bytes> {
    set tx | tx in txs && !tx.IsCoinbase() :: tx.id
  }

  /** Transactions are kept under their IDs, none is a reward, and no two share an input. */
  ghost predicate PoolOk(pool: PoolMap) {
    && (forall id :: id in pool ==> pool[id].id == id && !pool[id].IsCoinbase() && pool[id].vin != [])
    && (forall a, b :: a in pool && b in pool && a != b ==> !SharesInput(pool[a], pool[b]))
  }

  lemma SharesInputSymmetric(a: Transaction, b: Transaction)
    ensures SharesInput(a, b) <==> SharesInput(b, a)
  {
  }

  /** The transaction is in the pool, or shares an input with another one that is. */
  ghost predicate Accounted(pool: PoolMap, tx: Transaction) {
    tx.id in pool || exists id :: id in pool && pool[id] != tx && SharesInput(tx, pool[id])
  }

  ghost predicate Extends(p: PoolMap, q: PoolMap) {
    forall id :: id in p ==> id in q && q[id] == p[id]
  }

  lemma ExtendsAccounted(p: PoolMap, q: PoolMap, tx: Transaction)
    requires Extends(p, q) && Accounted(p, tx)
    ensures Accounted(q, tx)
  {
    if tx.id !in p {
      var id :| id in p && p[id] != tx && SharesInput(tx, p[id]);
      assert id in q && q[id] == p[id];
    }
  }

  lemma AddedKeepsOk(pool: PoolMap, tx: Transaction)
    requires PoolOk(pool) && !tx.IsCoinbase() && tx.vin != [] && (tx.id in pool ==> pool[tx.id] == tx)
    ensures PoolOk(Added(pool, tx)) && Extends(pool, Added(pool, tx)) && Accounted(Added(pool, tx), tx)
    ensures forall id :: id in Added(pool, tx) && id !in pool ==> Added(pool, tx)[id] == tx
  {
    forall id | id in pool { SharesInputSymmetric(tx, pool[id]); }
    if tx.id in pool {
      assert Ref(tx.vin[0]) == Ref(pool[tx.id].vin[0]);
      assert SharesInput(tx, pool[tx.id]);
    }
    if ConflictsWith(pool, tx) {
      var id :| id in pool && SharesInput(tx, pool[id]);
      assert pool[id] == tx ==> tx.id == id;
    }
  }

  /**
   Returning transactions keeps the pool free of conflicts and loses none that was there; each
   returned one is in the pool afterwards or shares an input with another one that is.
   */
  lemma {:induction false} ReturnedKeeps(pool: PoolMap, txs: seq<Transaction>)
    requires PoolOk(pool) && forall tx :: tx in txs && !tx.IsCoinbase() ==> tx.vin != []
    requires forall tx :: tx in txs && tx.id in pool ==> pool[tx.id] == tx
    requires forall a, b :: a in txs && b in txs && a.id == b.id ==> a == b
    ensures PoolOk(Returned(pool, txs)) && Extends(pool, Returned(pool, txs))
    ensures forall id :: id in Returned(pool, txs) && id !in pool ==> Returned(pool, txs)[id] in txs
    ensures forall tx :: tx in txs && !tx.IsCoinbase() ==> Accounted(Returned(pool, txs), tx)
    decreases |txs|
  {
    if txs != [] {
      var init, tx := txs[..|txs| - 1], txs[|txs| - 1];
      ReturnedKeeps(pool, init);
      var p, q := Returned(pool, init), Returned(pool, txs);
      InitLast(txs);
      if !tx.IsCoinbase() {
        AddedKeepsOk(p, tx);
        forall u | u in init && !u.IsCoinbase() ensures Accounted(q, u) {
          ExtendsAccounted(p, q, u);
        }
      }
    }
  }

  ghost function RefsIn(vin: seq<TXInput>): set<Outpoint> {
    set i | i in vin :: Ref(i)
  }

  ghost function RefsOf(txs: seq<Transaction>): set<Outpoint> {
    set tx, op | tx in txs && op in RefsIn(tx.vin) :: op
  }

  ghost predicate DistinctRefs(vin: seq<TXInput>) {
    forall x, y :: 0 <= x < y < |vin| ==> Ref(vin[x]) != Ref(vin[y])
  }

  /** No two of the transactions name one output. */
  ghost predicate Apart(txs: seq<Transaction>) {
    forall i, j :: 0 <= i < j < |txs| ==> !SharesInput(txs[i], txs[j])
  }

  /** A list of transactions in which no output is named twice. */
  ghost predicate InputsDisjoint(txs: seq<Transaction>) {
    (forall i :: 0 <= i < |txs| ==> DistinctRefs(txs[i].vin)) && Apart(txs)
  }

  /** Notes inputs one by one until one is noted already; tells whether all were new. */
  ghost function NoteInputs(vin: seq<TXInput>, used: set<Outpoint>): (bool, set<Outpoint>) {
    if vin == [] then (true, used)
    else
      var n, last := NoteInputs(vin[..|vin| - 1], used), Ref(vin[|vin| - 1]);
      if !n.0 || last in n.1 then (false, n.1) else (true, n.1 + {last})
  }

  datatype Screened = Screened(good: seq<Transaction>, bad: seq<Transaction>, used: set<Outpoint>)

  /** The screening of a list: a transaction is kept when each of its inputs is new. */
  ghost function Screen(txs: seq<Transaction>): Screened {
    if txs == [] then Screened([], [], {})
    else
      var s, tx := Screen(txs[..|txs| - 1]), txs[|txs| - 1];
      var n := NoteInputs(tx.vin, s.used);
      if n.0 then Screened(s.good + [tx], s.bad, n.1) else Screened(s.good, s.bad + [tx], n.1)
  }

  lemma InRefsIn(vin: seq<TXInput>, op: Outpoint)
    ensures op in RefsIn(vin) <==> exists x :: 0 <= x < |vin| && Ref(vin[x]) == op
  {
    if op in RefsIn(vin) {
      var i :| i in vin && Ref(i) == op;
      var x :| 0 <= x < |vin| && vin[x] == i;
    }
    if x :| 0 <= x < |vin| && Ref(vin[x]) == op {
      assert vin[x] in vin;
    }
  }

  lemma RefsStep(vin: seq<TXInput>, i: TXInput)
    ensures RefsIn(vin + [i]) == RefsIn(vin) + {Ref(i)}
    ensures DistinctRefs(vin + [i]) <==> DistinctRefs(vin) && Ref(i) !in RefsIn(vin)
  {
    var all := vin + [i];
    InRefsIn(vin, Ref(i));
    if DistinctRefs(all) {
      forall x | 0 <= x < |vin| ensures Ref(vin[x]) != Ref(i) { assert all[x] == vin[x] && all[|vin|] == i; }
      forall x, y | 0 <= x < y < |vin| ensures Ref(vin[x]) != Ref(vin[y]) { assert all[x] == vin[x] && all[y] == vin[y]; }
    }
  }

  lemma {:induction false} NoteInputsMeans(vin: seq<TXInput>, used: set<Outpoint>)
    ensures NoteInputs(vin, used).0 <==> DistinctRefs(vin) && RefsIn(vin) !! used
    ensures used <= NoteInputs(vin, used).1 <= used + RefsIn(vin)
    ensures NoteInputs(vin, used).0 ==> NoteInputs(vin, used).1 == used + RefsIn(vin)
    decreases |vin|
  {
    if vin != [] {
      var init, last := vin[..|vin| - 1], vin[|vin| - 1];
      NoteInputsMeans(init, used);
      RefsStep(init, last);
      InitLast(vin);
    }
  }

  /** Once an input was noted already the rest is not looked at. */
  lemma {:induction false} NoteInputsStops(vin: seq<TXInput>, used: set<Outpoint>, n: nat)
    requires n <= |vin| && !NoteInputs(vin[..n], used).0
    ensures NoteInputs(vin, used) == NoteInputs(vin[..n], used)
    decreases |vin|
  {
    if n < |vin| {
      assert vin[..|vin| - 1][..n] == vin[..n];
      NoteInputsStops(vin[..|vin| - 1], used, n);
    } else {
      assert vin[..n] == vin;
    }
  }

  lemma SharesInputRefs(a: Transaction, b: Transaction)
    ensures SharesInput(a, b) <==> !(RefsIn(a.vin) !! RefsIn(b.vin))
  {
    if SharesInput(a, b) {
      var x, y :| 0 <= x < |a.vin| && 0 <= y < |b.vin| && Ref(a.vin[x]) == Ref(b.vin[y]);
      InRefsIn(a.vin, Ref(a.vin[x]));
      InRefsIn(b.vin, Ref(a.vin[x]));
    }
    if op :| op in RefsIn(a.vin) && op in RefsIn(b.vin) {
      InRefsIn(a.vin, op);
      InRefsIn(b.vin, op);
    }
  }

  lemma RefsOfStep(txs: seq<Transaction>, tx: Transaction)
    ensures RefsOf(txs + [tx]) == RefsOf(txs) + RefsIn(tx.vin)
  {
  }

  lemma ApartStep(txs: seq<Transaction>, tx: Transaction)
    ensures Apart(txs + [tx]) <==> Apart(txs) && RefsIn(tx.vin) !! RefsOf(txs)
  {
    var all := txs + [tx];
    forall i | 0 <= i < |txs| ensures SharesInput(txs[i], tx) <==> !(RefsIn(txs[i].vin) !! RefsIn(tx.vin)) {
      SharesInputRefs(txs[i], tx);
    }
    if Apart(all) {
      forall u | u in txs ensures RefsIn(tx.vin) !! RefsIn(u.vin) {
        var i :| 0 <= i < |txs| && txs[i] == u;
        assert !SharesInput(all[i], all[|txs|]);
      }
      forall i, j | 0 <= i < j < |txs| ensures !SharesInput(txs[i], txs[j]) {
        assert !SharesInput(all[i], all[j]);
      }
    }
    if Apart(txs) && RefsIn(tx.vin) !! RefsOf(txs) {
      forall i | 0 <= i < |txs| ensures !SharesInput(txs[i], tx) {
        assert txs[i] in txs && forall op :: op in RefsIn(txs[i].vin) ==> op in RefsOf(txs);
      }
    }
  }

  /** A list grows without naming an output twice exactly when the new inputs are distinct and new. */
  lemma InputsDisjointStep(txs: seq<Transaction>, tx: Transaction)
    ensures InputsDisjoint(txs + [tx]) <==> InputsDisjoint(txs) && DistinctRefs(tx.vin) && RefsIn(tx.vin) !! RefsOf(txs)
  {
    var all := txs + [tx];
    ApartStep(txs, tx);
    if InputsDisjoint(all) {
      assert DistinctRefs(all[|txs|].vin);
      forall i | 0 <= i < |txs| ensures DistinctRefs(txs[i].vin) {
        assert all[i] == txs[i];
      }
    }
  }

  /** What screening keeps names no output twice. */
  lemma {:induction false} ScreenDisjoint(txs: seq<Transaction>)
    ensures InputsDisjoint(Screen(txs).good) && RefsOf(Screen(txs).good) <= Screen(txs).used <= RefsOf(txs)
    decreases |txs|
  {
    if txs != [] {
      var init, tx := txs[..|txs| - 1], txs[|txs| - 1];
      ScreenDisjoint(init);
      var s := Screen(init);
      NoteInputsMeans(tx.vin, s.used);
      InitLast(txs);
      RefsOfStep(init, tx);
      RefsOfStep(s.good, tx);
      InputsDisjointStep(s.good, tx);
    }
  }

  /** Screening drops nothing exactly when no output is named twice. */
  lemma {:induction false} ScreenKeepsAll(txs: seq<Transaction>)
    ensures InputsDisjoint(txs) <==> Screen(txs).bad == []
    ensures Screen(txs).bad == [] ==> Screen(txs).good == txs && Screen(txs).used == RefsOf(txs)
    decreases |txs|
  {
    if txs != [] {
      var init, tx := txs[..|txs| - 1], txs[|txs| - 1];
      ScreenKeepsAll(init);
      NoteInputsMeans(tx.vin, Screen(init).used);
      RefsOfStep(init, tx);
      InputsDisjointStep(init, tx);
      InitLast(txs);
    }
  }

  /** Of transactions that are apart screening drops exactly those that name an output twice. */
  lemma {:induction false} ScreenApart(txs: seq<Transaction>)
    requires Apart(txs)
    ensures forall tx {:trigger tx in Screen(txs).bad} :: tx in Screen(txs).bad <==> tx in txs && !DistinctRefs(tx.vin)
    decreases |txs|
  {
    if txs != [] {
      var init, tx := txs[..|txs| - 1], txs[|txs| - 1];
      InitLast(txs);
      ApartStep(init, tx);
      ScreenApart(init);
      ScreenDisjoint(init);
      NoteInputsMeans(tx.vin, Screen(init).used);
    }
  }

  /** Earlier transactions come first: one that names outputs once each, and none that those before it name, stays. */
  lemma {:induction false} ScreenEarlier(txs: seq<Transaction>, k: nat)
    requires k < |txs| && DistinctRefs(txs[k].vin) && RefsIn(txs[k].vin) !! RefsOf(txs[..k])
    ensures txs[k] in Screen(txs).good
    decreases |txs|
  {
    var init := txs[..|txs| - 1];
    if k < |init| {
      assert init[..k] == txs[..k];
      ScreenEarlier(init, k);
    } else {
      ScreenDisjoint(init);
      NoteInputsMeans(txs[k].vin, Screen(init).used);
    }
  }

  /** Screening only splits the list. */
  lemma {:induction false} ScreenSplits(txs: seq<Transaction>)
    ensures multiset(Screen(txs).good) + multiset(Screen(txs).bad) == multiset(txs)
    decreases |txs|
  {
    if txs != [] {
      var init, tx := txs[..|txs| - 1], txs[|txs| - 1];
      ScreenSplits(init);
      assert txs == init + [tx];
      if NoteInputs(tx.vin, Screen(init).used).0 {
        assert Screen(txs).good == Screen(init).good + [tx] && Screen(txs).bad == Screen(init).bad;
      } else {
        assert Screen(txs).good == Screen(init).good && Screen(txs).bad == Screen(init).bad + [tx];
      }
    }
  }

  function FirstWithId(txs: seq<Transaction>, id: Bytes): Option<Transaction> {
    if txs == [] then None else if txs[0].id == id then Some(txs[0]) else FirstWithId(txs[1..], id)
  }

  predicate Marked(m: map<Bytes, seq<int>>, op: Outpoint) {
    op.txid in m && op.index in m[op.txid]
  }

  function Mark(m: map<Bytes, seq<int>>, op: Outpoint): (r: map<Bytes, seq<int>>)
    ensures forall o :: Marked(r, o) <==> Marked(m, o) || o == op
  {
    m[op.txid := (if op.txid in m then m[op.txid] else []) + [op.index]]
  }

  /** An input whose transaction is not in a block, with its place. */
  datatype MissingInput = MissingInput(ind: nat, vin: TXInput)

  ghost predicate NamedOnce(inputs: seq<MissingInput>) {
    forall i, j :: 0 <= i < j < |inputs| ==> Ref(inputs[i].vin) != Ref(inputs[j].vin)
  }

  ghost predicate AllListed(inputs: seq<MissingInput>, prevTXs: seq<Transaction>) {
    forall i :: 0 <= i < |inputs| ==> FirstWithId(prevTXs, inputs[i].vin.txid).Some?
  }

  /** The input transactions completed by the first listed transaction of each missing ID. */
  function Filled(inputTXs: InputTXs, inputs: seq<MissingInput>, prevTXs: seq<Transaction>): InputTXs {
    if inputs == [] then inputTXs
    else
      var last := inputs[|inputs| - 1];
      Filled(inputTXs, inputs[..|inputs| - 1], prevTXs)[last.ind := FirstWithId(prevTXs, last.vin.txid)]
  }

  ghost predicate AllPooled(inputs: seq<MissingInput>, pool: PoolMap) {
    forall i :: 0 <= i < |inputs| ==> inputs[i].vin.txid in pool
  }

  /** The input transactions completed from the pool. */
  function FilledFromPool(inputTXs: InputTXs, inputs: seq<MissingInput>, pool: PoolMap): InputTXs {
    if inputs == [] then inputTXs
    else
      var last := inputs[|inputs| - 1];
      FilledFromPool(inputTXs, inputs[..|inputs| - 1], pool)
      [last.ind := if last.vin.txid in pool then Some(pool[last.vin.txid]) else None]
  }

  lemma {:induction false} FilledFromPoolAt(inputTXs: InputTXs, us: seq<MissingInput>, pool: PoolMap, x: nat)
    requires forall i, j :: 0 <= i < j < |us| ==> us[i].ind < us[j].ind
    ensures (forall i :: 0 <= i < |us| ==> us[i].ind != x) ==>
              (x in FilledFromPool(inputTXs, us, pool) <==> x in inputTXs)
              && (x in inputTXs ==> FilledFromPool(inputTXs, us, pool)[x] == inputTXs[x])
    ensures forall i :: 0 <= i < |us| && us[i].ind == x ==>
              x in FilledFromPool(inputTXs, us, pool)
              && FilledFromPool(inputTXs, us, pool)[x] == if us[i].vin.txid in pool then Some(pool[us[i].vin.txid]) else None
    decreases |us|
  {
    if us != [] {
      FilledFromPoolAt(inputTXs, us[..|us| - 1], pool, x);
    }
  }

  // ----- Drawing transactions for a block

  predicate SortedByTime(txs: seq<Transaction>) {
    forall i, j :: 0 <= i < j < |txs| ==> txs[i].time <= txs[j].time
  }

  lemma {:induction false} DistinctCount<T>(s: seq<T>)
    ensures Distinct(s) <==> forall x :: multiset(s)[x] <= 1
    decreases |s|
  {
    if s != [] {
      var init, last := s[..|s| - 1], s[|s| - 1];
      InitLast(s);
      DistinctCount(init);
      if last in init {
        var i :| 0 <= i < |init| && init[i] == last;
        assert s[i] == s[|init|] && multiset(init)[last] > 0;
        assert multiset(s)[last] > 1;
      } else if Distinct(init) {
        assert forall x :: multiset(s)[x] == multiset(init)[x] + if x == last then 1 else 0;
      } else {
        var i, j :| 0 <= i < j < |init| && init[i] == init[j];
        assert s[i] == s[j];
        assert forall x :: multiset(init)[x] <= multiset(s)[x];
      }
    }
  }

  lemma ReorderedDistinct<T>(a: seq<T>, b: seq<T>)
    requires multiset(a) == multiset(b)
    ensures Distinct(a) <==> Distinct(b)
    ensures |a| == |b| && forall x :: x in a <==> x in b
  {
    DistinctCount(a);
    DistinctCount(b);
    assert |a| == |multiset(a)| && |b| == |multiset(b)|;
    assert forall x :: x in a <==> x in multiset(a);
    assert forall x :: x in b <==> x in multiset(b);
  }

  lemma InsertKeeps<T>(s: seq<T>, p: nat, x: T)
    requires p <= |s|
    ensures multiset(s[..p] + [x] + s[p..]) == multiset(s) + multiset{x}
  {
    assert s == s[..p] + s[p..];
  }

  /** Puts a transaction after the last one that is not younger. */
  method InsertByTime(s: seq<Transaction>, tx: Transaction) returns (r: seq<Transaction>)
    requires SortedByTime(s)
    ensures SortedByTime(r) && multiset(r) == multiset(s) + multiset{tx}
  {
    var p := 0;
    while p < |s| && s[p].time <= tx.time
      invariant p <= |s| && forall k :: 0 <= k < p ==> s[k].time <= tx.time
    {
      p := p + 1;
    }
    InsertKeeps(s, p, tx);
    r := s[..p] + [tx] + s[p..];
  }

  /** Sorts transactions by time, oldest first; the order of equal times is left open. */
  method SortByTime(txs: seq<Transaction>) returns (r: seq<Transaction>)
    ensures SortedByTime(r) && multiset(r) == multiset(txs)
  {
    r := [];
    for i := 0 to |txs|
      invariant SortedByTime(r) && multiset(r) == multiset(txs[..i])
    {
      r := InsertByTime(r, txs[i]);
      assert txs[..i + 1] == txs[..i] + [txs[i]];
    }
    assert txs[..|txs|] == txs;
  }

  /** The transactions of the pool kept under the listed IDs. */
  ghost function Under(pool: PoolMap, ids: seq<Bytes>): (txs: seq<Transaction>)
    requires forall id :: id in ids ==> id in pool
    ensures |txs| == |ids| && forall i :: 0 <= i < |ids| ==> txs[i] == pool[ids[i]]
  {
    seq(|ids|, i requires 0 <= i < |ids| => pool[ids[i]])
  }

  ghost predicate ListsPool(pool: PoolMap, ids: seq<Bytes>) {
    Distinct(ids) && forall id :: id in ids <==> id in pool
  }

  /** Some listing of the whole pool. */
  ghost predicate PoolListing(pool: PoolMap, txs: seq<Transaction>) {
    exists ids {:trigger ListsPool(pool, ids)} :: ListsPool(pool, ids) && txs == Under(pool, ids)
  }

  lemma UnderDistinct(pool: PoolMap, ids: seq<Bytes>)
    requires PoolOk(pool) && Distinct(ids) && forall id :: id in ids ==> id in pool
    ensures Distinct(Under(pool, ids))
  {
    forall i, j | 0 <= i < j < |ids| ensures Under(pool, ids)[i] != Under(pool, ids)[j] {
      assert ids[i] in ids && ids[j] in ids;
    }
  }

  /** Different transactions of the pool. */
  ghost predicate Drawn(pool: PoolMap, txs: seq<Transaction>) {
    Distinct(txs) && forall tx :: tx in txs ==> tx.id in pool && pool[tx.id] == tx
  }

  function DrawCount(size: nat, number: int): (n: nat)
    ensures n <= size
  {
    if size == 0 then 0 else if number < 1 then 1 else if number < size then number else size
  }

  lemma DrawnIs(pool: PoolMap, ids: seq<Bytes>, txset: seq<Transaction>, txs: seq<Transaction>)
    requires PoolOk(pool) && Distinct(ids) && forall id :: id in ids ==> id in pool
    requires txset == Under(pool, ids) && multiset(txs) == multiset(txset)
    ensures Drawn(pool, txs) && |txs| == |ids|
  {
    UnderDistinct(pool, ids);
    ReorderedDistinct(txset, txs);
    forall tx | tx in txset ensures tx.id in pool && pool[tx.id] == tx {
      var i :| 0 <= i < |ids| && Under(pool, ids)[i] == tx;
      assert ids[i] in ids;
    }
  }

  class UnapprovedDB {
    var txs: PoolMap

    constructor ()
      ensures txs == map[]
    {
      txs := map[];
    }

    /** The keys of the bucket, each once. */
    method Keys() returns (ids: seq<Bytes>)
      ensures Distinct(ids) && |ids| == |txs| && forall id :: id in ids <==> id in txs
    {
      ids := [];
      var rest := txs.Keys;
      while rest != {}
        invariant rest <= txs.Keys && Distinct(ids) && |ids| + |rest| == |txs|
        invariant forall id :: id in ids <==> id in txs && id !in rest
        decreases |rest|
      {
        var id :| id in rest;
        ids := ids + [id];
        rest := rest - {id};
      }
    }

    method GetTransaction(id: Bytes) returns (r: Option<Transaction>)
      ensures r == if id in txs then Some(txs[id]) else None
    {
      r := if id in txs then Some(txs[id]) else None;
    }

    method PutTransaction(id: Bytes, tx: Transaction)
      modifies this
      ensures txs == old(txs)[id := tx]
    {
      txs := txs[id := tx];
    }

    method DeleteTransaction(id: Bytes)
      modifies this
      ensures txs == old(txs) - {id}
    {
      txs := txs - {id};
    }
  }

  class UnApprovedTransactions {
    const utdb: UnapprovedDB

    constructor (utdb: UnapprovedDB)
      ensures this.utdb == utdb
    {
      this.utdb := utdb;
    }

    /** A transaction of the pool that shares an input with the given one, if there is any. */
    method DetectConflictsForNew(txcheck: Transaction) returns (r: Option<Transaction>)
      ensures r.Some? <==> ConflictsWith(utdb.txs, txcheck)
      ensures r.Some? ==> SharesInput(txcheck, r.value) && r.value in utdb.txs.Values
    {
      var ids := utdb.Keys();
      for i := 0 to |ids|
        invariant forall k :: 0 <= k < i ==> !SharesInput(txcheck, utdb.txs[ids[k]])
      {
        assert ids[i] in ids;
        var txexi := utdb.txs[ids[i]];
        for x := 0 to |txcheck.vin|
          invariant forall y, z :: 0 <= y < x && 0 <= z < |txexi.vin| ==> Ref(txcheck.vin[y]) != Ref(txexi.vin[z])
        {
          for z := 0 to |txexi.vin|
            invariant forall w :: 0 <= w < z ==> Ref(txcheck.vin[x]) != Ref(txexi.vin[w])
          {
            if txcheck.vin[x].txid == txexi.vin[z].txid && txcheck.vin[x].vout == txexi.vin[z].vout {
              assert Ref(txcheck.vin[x]) == Ref(txexi.vin[z]);
              return Some(txexi);
            }
          }
        }
      }
      return None;
    }

    method GetCount() returns (n: nat)
      ensures n == |utdb.txs|
    {
      n := |utdb.txs|;
    }

    /** At most number transactions of the pool (but one at least, if there is any), oldest first. */
    method GetTransactions(number: int) returns (txs: seq<Transaction>)
      requires PoolOk(utdb.txs)
      ensures SortedByTime(txs) && Drawn(utdb.txs, txs)
      ensures |txs| == DrawCount(|utdb.txs|, number)
    {
      var ids := utdb.Keys();
      var txset := Collect(ids, number);
      txs := SortByTime(txset);
      DrawnIs(utdb.txs, ids[..DrawCount(|ids|, number)], txset, txs);
    }

    /** The loop over the bucket, stopped once enough transactions are there. */
    method Collect(ids: seq<Bytes>, number: int) returns (txset: seq<Transaction>)
      requires forall id :: id in ids ==> id in utdb.txs
      ensures txset == Under(utdb.txs, ids[..DrawCount(|ids|, number)])
    {
      txset := [];
      for i := 0 to |ids|
        invariant |txset| == i && (i == 0 || i < number)
        invariant forall k :: 0 <= k < i ==> txset[k] == utdb.txs[ids[k]]
      {
        txset := txset + [utdb.txs[ids[i]]];
        if |txset| >= number {
          return;
        }
      }
    }

    method Add(txadd: Transaction) returns (err: Option<Error>)
      modifies utdb
      ensures utdb.txs == Added(old(utdb.txs), txadd)
      ensures err == if ConflictsWith(old(utdb.txs), txadd) then Some(Conflict) else None
    {
      var conflicts := DetectConflictsForNew(txadd);
      if conflicts.Some? {
        return Some(Conflict);
      }
      utdb.PutTransaction(txadd.id, txadd);
      return None;
    }

    method Delete(id: Bytes) returns (found: bool)
      modifies utdb
      ensures found <==> id in old(utdb.txs)
      ensures utdb.txs == old(utdb.txs) - {id}
    {
      var tx := utdb.GetTransaction(id);
      if tx.Some? {
        utdb.DeleteTransaction(id);
        return true;
      }
      return false;
    }

    /** Takes the ordinary transactions of a block out of the pool. */
    method DeleteFromBlock(block: Block)
      modifies utdb
      ensures utdb.txs == old(utdb.txs) - OrdinaryIds(block.txs)
    {
      assert OrdinaryIds(block.txs[..0]) == {};
      for i := 0 to |block.txs|
        invariant utdb.txs == old(utdb.txs) - OrdinaryIds(block.txs[..i])
      {
        assert block.txs[..i + 1] == block.txs[..i] + [block.txs[i]];
        if !block.txs[i].IsCoinbase() {
          var _ := Delete(block.txs[i].id);
          assert OrdinaryIds(block.txs[..i + 1]) == OrdinaryIds(block.txs[..i]) + {block.txs[i].id};
        } else {
          assert OrdinaryIds(block.txs[..i + 1]) == OrdinaryIds(block.txs[..i]);
        }
      }
      assert block.txs[..|block.txs|] == block.txs;
    }

    /** Puts the ordinary transactions of a cancelled block back; a refused one is dropped. */
    method AddFromCanceled(txs: seq<Transaction>)
      modifies utdb
      ensures utdb.txs == Returned(old(utdb.txs), txs)
    {
      assert txs[..0] == [];
      for i := 0 to |txs|
        invariant utdb.txs == Returned(old(utdb.txs), txs[..i])
      {
        assert txs[..i + 1][..i] == txs[..i];
        if !txs[i].IsCoinbase() {
          var _ := Add(txs[i]);
        }
      }
      assert txs[..|txs|] == txs;
    }

    /** Splits a list into transactions whose inputs are all new and those with an input noted before. */
    method DetectConflicts(txs: seq<Transaction>) returns (good: seq<Transaction>, conflicts: seq<Transaction>)
      ensures good == Screen(txs).good && conflicts == Screen(txs).bad
    {
      good, conflicts := [], [];
      var usedoutputs: map<Bytes, seq<int>> := map[];
      assert txs[..0] == [];
      for i := 0 to |txs|
        invariant good == Screen(txs[..i]).good && conflicts == Screen(txs[..i]).bad
        invariant forall op :: op in Screen(txs[..i]).used <==> Marked(usedoutputs, op)
      {
        assert txs[..i + 1][..i] == txs[..i];
        var used;
        used, usedoutputs := NoteAll(txs[i], usedoutputs, Screen(txs[..i]).used);
        if used {
          conflicts := conflicts + [txs[i]];
        } else {
          good := good + [txs[i]];
        }
      }
      assert txs[..|txs|] == txs;
    }

    /** The input loop of DetectConflicts. */
    method NoteAll(tx: Transaction, before: map<Bytes, seq<int>>, ghost noted: set<Outpoint>)
      returns (used: bool, after: map<Bytes, seq<int>>)
      requires forall op :: op in noted <==> Marked(before, op)
      ensures used <==> !NoteInputs(tx.vin, noted).0
      ensures forall op :: op in NoteInputs(tx.vin, noted).1 <==> Marked(after, op)
    {
      after := before;
      assert tx.vin[..0] == [];
      for x := 0 to |tx.vin|
        invariant NoteInputs(tx.vin[..x], noted).0
        invariant forall op :: op in NoteInputs(tx.vin[..x], noted).1 <==> Marked(after, op)
      {
        var txi := tx.vin[x];
        assert tx.vin[..x + 1][..x] == tx.vin[..x];
        if Marked(after, Ref(txi)) {
          NoteInputsStops(tx.vin, noted, x + 1);
          return true, after;
        }
        after := Mark(after, Ref(txi));
      }
      assert tx.vin[..|tx.vin|] == tx.vin;
      return false, after;
    }

    /**
     Finds the transactions of inputs among those listed before; refuses a missing one or an
     output named twice. The source walks the inputs in map order, which the outcome does not depend on.
     */
    method CheckInputsWereBefore(inputs: seq<MissingInput>, prevTXs: seq<Transaction>, inputTXs: InputTXs) returns (r: Result<InputTXs>)
      ensures r.Ok? <==> NamedOnce(inputs) && AllListed(inputs, prevTXs)
      ensures r.Ok? ==> r.value == Filled(inputTXs, inputs, prevTXs)
    {
      var result := inputTXs;
      var checked: map<Bytes, seq<int>> := map[];
      assert inputs[..0] == [];
      for i := 0 to |inputs|
        invariant result == Filled(inputTXs, inputs[..i], prevTXs)
        invariant AllListed(inputs[..i], prevTXs) && NamedOnce(inputs[..i])
        invariant forall op :: Marked(checked, op) <==> exists j :: 0 <= j < i && Ref(inputs[j].vin) == op
      {
        var vin := inputs[i].vin;
        assert inputs[..i + 1][..i] == inputs[..i];
        if Marked(checked, Ref(vin)) {
          return Err(InputRepeated);
        }
        var tx := FindFirst(prevTXs, vin.txid);
        if tx.None? {
          return Err(InputMissing);
        }
        result := result[inputs[i].ind := tx];
        checked := Mark(checked, Ref(vin));
      }
      assert inputs[..|inputs|] == inputs;
      return Ok(result);
    }

    method GetIfExists(id: Bytes) returns (r: Option<Transaction>)
      ensures r == if id in utdb.txs then Some(utdb.txs[id]) else None
    {
      r := utdb.GetTransaction(id);
    }

    /** Finds the transactions of inputs in the pool; refuses a missing one or an output named twice. */
    method CheckInputsArePrepared(inputs: seq<MissingInput>, inputTXs: InputTXs) returns (r: Result<InputTXs>)
      ensures r.Ok? <==> NamedOnce(inputs) && AllPooled(inputs, utdb.txs)
      ensures r.Ok? ==> r.value == FilledFromPool(inputTXs, inputs, utdb.txs)
    {
      var result := inputTXs;
      var checked: map<Bytes, seq<int>> := map[];
      assert inputs[..0] == [];
      for i := 0 to |inputs|
        invariant result == FilledFromPool(inputTXs, inputs[..i], utdb.txs)
        invariant AllPooled(inputs[..i], utdb.txs) && NamedOnce(inputs[..i])
        invariant forall op :: Marked(checked, op) <==> exists j :: 0 <= j < i && Ref(inputs[j].vin) == op
      {
        var vin := inputs[i].vin;
        assert inputs[..i + 1][..i] == inputs[..i];
        if Marked(checked, Ref(vin)) {
          return Err(InputRepeated);
        }
        var tx := GetIfExists(vin.txid);
        if tx.None? {
          return Err(InputMissing);
        }
        result := result[inputs[i].ind := tx];
        checked := Mark(checked, Ref(vin));
      }
      assert inputs[..|inputs|] == inputs;
      return Ok(result);
    }

    /** What a key has at stake in the pool: its inputs, its unused outputs, its inputs on approved outputs. */
    method GetPreparedBy(crypto: Crypto, pubKeyHash: Bytes)
      returns (inputs: seq<TXInput>, realoutputs: seq<PendingOut>, approvedinputs: seq<TXInput>, ghost txs: seq<Transaction>)
      ensures PoolListing(utdb.txs, txs) && inputs == KeyInputs(crypto, txs, pubKeyHash)
      ensures realoutputs == FreeOutputs(KeyOutputs(txs, pubKeyHash), inputs)
      ensures approvedinputs == ApprovedInputs(inputs, KeyOutputs(txs, pubKeyHash))
    {
      var ids := utdb.Keys();
      txs := Under(utdb.txs, ids);
      assert ListsPool(utdb.txs, ids);
      var outputs: seq<PendingOut> := [];
      inputs := [];
      assert txs[..0] == [];
      for i := 0 to |ids|
        invariant inputs == KeyInputs(crypto, txs[..i], pubKeyHash) && outputs == KeyOutputs(txs[..i], pubKeyHash)
      {
        assert ids[i] in ids && txs[..i + 1][..i] == txs[..i];
        var tx := utdb.txs[ids[i]];
        if !tx.IsCoinbase() {
          var signed := SignedInputs(crypto, tx.vin, pubKeyHash);
          inputs := inputs + signed;
        }
        var paid := PaidOutputs(tx, pubKeyHash);
        outputs := outputs + paid;
      }
      assert txs[..|txs|] == txs;
      realoutputs := UnusedOutputs(outputs, inputs);
      approvedinputs := InputsOnApproved(inputs, outputs);
    }

    method SignedInputs(crypto: Crypto, vin: seq<TXInput>, pubKeyHash: Bytes) returns (r: seq<TXInput>)
      ensures r == SignedIn(crypto, vin, pubKeyHash)
    {
      r := [];
      assert vin[..0] == [];
      for x := 0 to |vin|
        invariant r == SignedIn(crypto, vin[..x], pubKeyHash)
      {
        assert vin[..x + 1][..x] == vin[..x];
        if crypto.hashPubKey(vin[x].pubKey) == pubKeyHash {
          r := r + [vin[x]];
        }
      }
      assert vin[..|vin|] == vin;
    }

    /** The sender is the key of the first input; a transaction without inputs, a panic in the source, has none. */
    method PaidOutputs(tx: Transaction, pubKeyHash: Bytes) returns (r: seq<PendingOut>)
      ensures r == PaidIn(tx, pubKeyHash, |tx.vout|)
    {
      r := [];
      for k := 0 to |tx.vout|
        invariant r == PaidIn(tx, pubKeyHash, k)
      {
        if tx.vout[k].pubKeyHash == pubKeyHash {
          r := r + [PendingOut(LoadFromSimple(tx.vout[k], tx.id, k, SenderOf(tx), tx.IsCoinbase(), []), tx)];
        }
      }
    }

    method UnusedOutputs(outs: seq<PendingOut>, inputs: seq<TXInput>) returns (r: seq<PendingOut>)
      ensures r == FreeOutputs(outs, inputs)
    {
      r := [];
      assert outs[..0] == [];
      for k := 0 to |outs|
        invariant r == FreeOutputs(outs[..k], inputs)
      {
        assert outs[..k + 1][..k] == outs[..k];
        var used := false;
        for i := 0 to |inputs|
          invariant !used && forall j :: 0 <= j < i ==> !(inputs[j].txid == outs[k].out.txid && inputs[j].vout == outs[k].out.oIndex)
        {
          if inputs[i].txid == outs[k].out.txid && inputs[i].vout == outs[k].out.oIndex {
            used := true;
            break;
          }
        }
        if !used {
          r := r + [outs[k]];
        }
      }
      assert outs[..|outs|] == outs;
    }

    method InputsOnApproved(inputs: seq<TXInput>, outs: seq<PendingOut>) returns (r: seq<TXInput>)
      ensures r == ApprovedInputs(inputs, outs)
    {
      r := [];
      assert inputs[..0] == [];
      for i := 0 to |inputs|
        invariant r == ApprovedInputs(inputs[..i], outs)
      {
        assert inputs[..i + 1][..i] == inputs[..i];
        var pendingout := false;
        for k := 0 to |outs|
          invariant !pendingout && forall j :: 0 <= j < k ==> !(inputs[i].txid == outs[j].out.txid && inputs[i].vout == outs[j].out.oIndex)
        {
          if inputs[i].txid == outs[k].out.txid && inputs[i].vout == outs[k].out.oIndex {
            pendingout := true;
            break;
          }
        }
        if !pendingout {
          r := r + [inputs[i]];
        }
      }
      assert inputs[..|inputs|] == inputs;
    }

    method FindFirst(txs: seq<Transaction>, id: Bytes) returns (r: Option<Transaction>)
      ensures r == FirstWithId(txs, id)
    {
      for i := 0 to |txs|
        invariant FirstWithId(txs, id) == FirstWithId(txs[i..], id)
      {
        if txs[i].id == id {
          return Some(txs[i]);
        }
        assert txs[i..][1..] == txs[i + 1..];
      }
      return None;
    }
  }
}

/**
 A small world of keyless coins in which runs of the node can be worked out: blocks of one
 reward and of transactions known by number, added to a node one by one.
 */
module Scenes {
  import opened Structures
  import opened BlockTree
  import opened Blockchain
  import opened Ledger
  import opened Soundness
  import opened TransactionRules
  import opened Pool
  import opened Acceptance
  import opened Validity
  import opened NodeRuns

  /** Every signature and proof of work is good, and every key has the empty hash. */
  function Agreeable(): Crypto {
    Crypto(_ => [], (_, _, _) => true, _ => true)
  }

  function Hash(n: byte): (h: Bytes)
    requires n != 0
    ensures IsHash(h) && h[0] == n
  {
    var h := seq(HASH_SIZE, _ => n);
    assert h[0] != Zeros(HASH_SIZE)[0];
    h
  }

  function Id(n: byte): (id: Bytes)
    ensures |id| == 1 && id[0] == n
  {
    [n]
  }

  function RewardId(n: byte): (id: Bytes)
    ensures |id| == 2 && id[1] == n
  {
    [0, n]
  }

  function Reward(n: byte): Transaction {
    Transaction(RewardId(n), [TXInput([], -1, [], [])], [TXOutput(10.0, [])], 0)
  }

  function From(op: Outpoint): TXInput {
    TXInput(op.txid, op.index, [], [])
  }

  function To(v: real): TXOutput {
    TXOutput(v, [])
  }

  /** Spends one output and pays its value on. */
  function Move(n: byte, from: Outpoint, v: real): Transaction {
    Transaction(Id(n), [From(from)], [To(v)], 0)
  }

  // ----- What is known of a chain of transactions

  /** The output is unspent, of this value, and without an owner. */
  ghost predicate Holds(es: seq<Entry>, op: Outpoint, v: real) {
    op in Unspent(es) && Unspent(es)[op].value == v && Unspent(es)[op].owner == []
  }

  /** The chain is proper, holds transactions of these IDs, and among its unspent outputs are these. */
  ghost predicate Knows(es: seq<Entry>, ids: set<Bytes>, coins: map<Outpoint, real>) {
    && Proper(Agreeable(), es)
    && (forall id :: HasId(es, id) <==> id in ids)
    && forall op {:trigger op in coins} :: op in coins ==> Holds(es, op, coins[op])
  }

  function Given(coins: map<Outpoint, real>, vin: seq<TXInput>): real {
    if vin == [] then 0.0
    else Given(coins, vin[..|vin| - 1]) + if Ref(vin[|vin| - 1]) in coins then coins[Ref(vin[|vin| - 1])] else 0.0
  }

  function Paid(tx: Transaction): map<Outpoint, real> {
    map k | 0 <= k < |tx.vout| :: Outpoint(tx.id, k) := tx.vout[k].value
  }

  ghost function AfterPay(coins: map<Outpoint, real>, tx: Transaction): map<Outpoint, real> {
    (map op | op in coins && op !in RefsIn(tx.vin) :: coins[op]) + Paid(tx)
  }

  /** The transaction is new, spends known coins once each, and pays out what it takes. */
  ghost predicate Payable(ids: set<Bytes>, coins: map<Outpoint, real>, tx: Transaction) {
    && !tx.IsCoinbase() && tx.vin != [] && tx.id !in ids && InputsDistinct(tx)
    && (forall x {:trigger tx.vin[x]} :: 0 <= x < |tx.vin| ==> Ref(tx.vin[x]) in coins)
    && (forall k {:trigger tx.vout[k]} :: 0 <= k < |tx.vout| ==> tx.vout[k].value >= SMALLEST_UNIT && tx.vout[k].pubKeyHash == [])
    && Given(coins, tx.vin) == OutputTotal(tx.vout)
  }

  lemma {:induction false} GivenIs(es: seq<Entry>, coins: map<Outpoint, real>, vin: seq<TXInput>)
    requires forall op {:trigger op in coins} :: op in coins ==> Holds(es, op, coins[op])
    requires forall x {:trigger vin[x]} :: 0 <= x < |vin| ==> Ref(vin[x]) in coins
    ensures InputValue(es, vin) == Given(coins, vin)
    decreases |vin|
  {
    if vin != [] {
      GivenIs(es, coins, vin[..|vin| - 1]);
      assert Ref(vin[|vin| - 1]) in coins;
    }
  }

  lemma PaysNext(es: seq<Entry>, ids: set<Bytes>, coins: map<Outpoint, real>, tx: Transaction)
    requires Knows(es, ids, coins) && Payable(ids, coins, tx)
    ensures SoundNext(es, tx) && FairNext(Agreeable(), es, tx)
  {
    ProperIsSound(Agreeable(), es);
    forall x {:trigger tx.vin[x]} | 0 <= x < |tx.vin|
      ensures Spendable(es, Ref(tx.vin[x])) && InputCoin(es, tx.vin[x]).owner == []
    {
      assert Ref(tx.vin[x]) in coins;
      SpendableIsUnspent(es, Ref(tx.vin[x]));
    }
    GivenIs(es, coins, tx.vin);
  }

  lemma HasIdNext(es: seq<Entry>, e: Entry, id: Bytes)
    ensures HasId(es + [e], id) <==> HasId(es, id) || e.tx.id == id
  {
    var all := es + [e];
    if i :| 0 <= i < |es| && es[i].tx.id == id {
      assert all[i].tx.id == id;
    }
    assert all[|es|] == e;
  }

  /** An unspent output stays when the next transaction neither spends it nor has its ID. */
  lemma HoldsNext(es: seq<Entry>, e: Entry, op: Outpoint)
    ensures op in Unspent(es) && op !in Spends(e.tx) && op.txid != e.tx.id ==>
              op in Unspent(es + [e]) && Unspent(es + [e])[op] == Unspent(es)[op]
    ensures op.txid == e.tx.id && InRange(e.tx, op.index) ==> op in Unspent(es + [e]) && Unspent(es + [e])[op] == CoinOf(e, op.index)
  {
    assert (es + [e])[..|es|] == es;
  }

  lemma KnowsIds(es: seq<Entry>, ids: set<Bytes>, coins: map<Outpoint, real>, e: Entry)
    requires Knows(es, ids, coins)
    ensures forall id :: HasId(es + [e], id) <==> id in ids + {e.tx.id}
  {
    forall id ensures HasId(es + [e], id) <==> id in ids + {e.tx.id} {
      HasIdNext(es, e, id);
    }
  }

  /** What is known after a payment. */
  lemma Pays(es: seq<Entry>, ids: set<Bytes>, coins: map<Outpoint, real>, tx: Transaction, hash: Bytes)
    requires Knows(es, ids, coins) && Payable(ids, coins, tx)
    ensures Knows(es + [Entry(tx, hash)], ids + {tx.id}, AfterPay(coins, tx))
  {
    var e := Entry(tx, hash);
    PaysNext(es, ids, coins, tx);
    ProperStep(Agreeable(), es, e);
    KnowsIds(es, ids, coins, e);
    forall op {:trigger op in AfterPay(coins, tx)} | op in AfterPay(coins, tx) ensures Holds(es + [e], op, AfterPay(coins, tx)[op]) {
      HoldsNext(es, e, op);
      if op !in Paid(tx) {
        assert op in coins && op !in RefsIn(tx.vin);
        KnownIds(es, ids, coins, op);
      }
    }
  }

  lemma KnownIds(es: seq<Entry>, ids: set<Bytes>, coins: map<Outpoint, real>, op: Outpoint)
    requires Knows(es, ids, coins) && op in coins
    ensures op.txid in ids
  {
    ProperIsSound(Agreeable(), es);
    UnspentMeaning(es, op);
  }

  /** What is known after a reward. */
  lemma Mints(es: seq<Entry>, ids: set<Bytes>, coins: map<Outpoint, real>, n: byte, hash: Bytes)
    requires Knows(es, ids, coins) && RewardId(n) !in ids
    ensures Knows(es + [Entry(Reward(n), hash)], ids + {RewardId(n)}, coins[Outpoint(RewardId(n), 0) := 10.0])
  {
    var e, after := Entry(Reward(n), hash), coins[Outpoint(RewardId(n), 0) := 10.0];
    ProperStep(Agreeable(), es, e);
    KnowsIds(es, ids, coins, e);
    forall op {:trigger op in after} | op in after ensures Holds(es + [e], op, after[op]) {
      HoldsNext(es, e, op);
      if op in coins {
        KnownIds(es, ids, coins, op);
      }
    }
  }

  // ----- Numbered transactions and blocks

  /** The reward of the first block. */
  function FirstCoin(): Outpoint {
    Outpoint(RewardId(1), 0)
  }

  /** The ordinary transactions of the world, by number. */
  function Ordinary(n: byte): (tx: Transaction)
    ensures tx.id == Id(n) && !tx.IsCoinbase() && tx.vin != []
  {
    if n == 2 then Transaction(Id(2), [From(FirstCoin())], [To(4.0), To(6.0)], 0)
    else if n == 4 then Move(4, Outpoint(Id(2), 1), 6.0)
    else if n == 6 then Move(6, Outpoint(Id(2), 0), 4.0)
    else if n == 7 then Move(7, Outpoint(Id(6), 0), 4.0)
    else if n == 8 then Transaction(Id(8), [From(Outpoint(Id(6), 0)), From(Outpoint(RewardId(2), 0))], [To(14.0)], 0)
    else if n == 9 then Move(9, Outpoint(Id(2), 1), 6.0)
    else if n == 10 then Move(10, Outpoint(Id(2), 0), 4.0)
    else if n == 11 then Move(11, Outpoint(Id(10), 0), 4.0)
    else if n == 13 then Move(13, Outpoint(Id(11), 0), 4.0)
    else if n == 14 then Move(14, Outpoint(Id(13), 0), 4.0)
    else if n == 15 then Move(15, Outpoint(Id(14), 0), 4.0)
    else if n == 18 then Move(18, Outpoint(Id(17), 0), 10.0)
    else Move(n, FirstCoin(), 10.0)
  }

  function Numbered(ns: seq<byte>): (txs: seq<Transaction>)
    ensures |txs| == |ns| && forall i :: 0 <= i < |ns| ==> txs[i] == Ordinary(ns[i])
  {
    seq(|ns|, i requires 0 <= i < |ns| => Ordinary(ns[i]))
  }

  /** Block number n with its reward and the numbered transactions. */
  function Blk(n: byte, prev: Bytes, height: int, ns: seq<byte>): Block
    requires n != 0
  {
    Block(0, [Reward(n)] + Numbered(ns), prev, Hash(n), 0, height)
  }

  /** A block of the world: its transactions are its reward and numbered ones. */
  ghost predicate Legit(b: Block) {
    && b.hash != [] && b.hash[0] != 0 && b.hash == Hash(b.hash[0])
    && forall tx {:trigger tx in b.txs} :: tx in b.txs ==> BookTx(tx, b.hash[0])
  }

  predicate BookTx(tx: Transaction, n: byte) {
    tx == Reward(n) || (|tx.id| == 1 && tx == Ordinary(tx.id[0]))
  }

  lemma BlkIsLegit(n: byte, prev: Bytes, height: int, ns: seq<byte>)
    requires n != 0
    ensures Legit(Blk(n, prev, height, ns)) && OneCoinbase(Blk(n, prev, height, ns).txs)
  {
    var b := Blk(n, prev, height, ns);
    forall tx {:trigger tx in b.txs} | tx in b.txs ensures BookTx(tx, n) {
      var i :| 0 <= i < |b.txs| && b.txs[i] == tx;
      assert i > 0 ==> tx == Ordinary(ns[i - 1]);
    }
    forall j | 0 <= j < |b.txs| && j != 0 ensures !b.txs[j].IsCoinbase() {
      assert b.txs[j] == Ordinary(ns[j - 1]);
    }
    assert b.txs[0].IsCoinbase();
  }

  lemma SameBookTx(u: Transaction, n: byte, v: Transaction, m: byte)
    requires BookTx(u, n) && BookTx(v, m) && u.id == v.id
    ensures u == v && (n != m ==> !u.IsCoinbase())
  {
  }

  /** In this world IDs identify transactions and rewards are new. */
  lemma LegitAssumptions(t: Tree, b: Block)
    requires forall h :: h in t.blocks ==> Legit(t.blocks[h]) && t.blocks[h].hash == h
    requires Legit(b) && b.hash !in t.blocks && OneCoinbase(b.txs)
    ensures TxAssumptions(t, b)
  {
    forall h, u, v | h in t.blocks && u in t.blocks[h].txs && v in b.txs && u.id == v.id ensures u == v && !u.IsCoinbase() {
      SameBookTx(u, h[0], v, b.hash[0]);
    }
    forall i, j | 0 <= i < j < |b.txs| && b.txs[i].id == b.txs[j].id ensures b.txs[i] == b.txs[j] && !b.txs[i].IsCoinbase() {
      assert b.txs[i] in b.txs && b.txs[j] in b.txs;
      SameBookTx(b.txs[i], b.hash[0], b.txs[j], b.hash[0]);
    }
    forall i | 0 <= i < |b.txs| && !b.txs[i].IsCoinbase() ensures b.txs[i].vin != [] {
      assert b.txs[i] in b.txs;
    }
  }

  // ----- What is known after a block

  ghost predicate Works(ids: set<Bytes>, coins: map<Outpoint, real>, ns: seq<byte>)
    decreases |ns|
  {
    ns != [] ==> Payable(ids, coins, Ordinary(ns[0])) && Works(ids + {Id(ns[0])}, AfterPay(coins, Ordinary(ns[0])), ns[1..])
  }

  function IdsAfter(ids: set<Bytes>, ns: seq<byte>): set<Bytes>
    decreases |ns|
  {
    if ns == [] then ids else IdsAfter(ids + {Id(ns[0])}, ns[1..])
  }

  ghost function CoinsAfter(coins: map<Outpoint, real>, ns: seq<byte>): map<Outpoint, real>
    decreases |ns|
  {
    if ns == [] then coins else CoinsAfter(AfterPay(coins, Ordinary(ns[0])), ns[1..])
  }

  lemma {:induction false} ListKnown(es: seq<Entry>, ids: set<Bytes>, coins: map<Outpoint, real>, ns: seq<byte>, b: Block)
    requires Knows(es, ids, coins) && Works(ids, coins, ns) && b.txs == Numbered(ns)
    ensures Knows(es + Tag(b), IdsAfter(ids, ns), CoinsAfter(coins, ns))
    decreases |ns|
  {
    if ns == [] {
      assert es + Tag(b) == es;
    } else {
      var tx := Ordinary(ns[0]);
      Pays(es, ids, coins, tx, b.hash);
      var rest := b.(txs := Numbered(ns[1..]));
      ListKnown(es + [Entry(tx, b.hash)], ids + {Id(ns[0])}, AfterPay(coins, tx), ns[1..], rest);
      NumberedFirst(ns);
      TagFirst(es, b, tx, rest);
    }
  }

  lemma NumberedFirst(ns: seq<byte>)
    requires ns != []
    ensures Numbered(ns) == [Ordinary(ns[0])] + Numbered(ns[1..])
  {
  }

  lemma TagFirst(es: seq<Entry>, b: Block, tx: Transaction, rest: Block)
    requires b.txs == [tx] + rest.txs && b.hash == rest.hash
    ensures es + [Entry(tx, b.hash)] + Tag(rest) == es + Tag(b)
  {
    assert Tag(b) == [Entry(tx, b.hash)] + Tag(rest);
    Together(es, [Entry(tx, b.hash)], Tag(rest));
  }

  lemma Together<T>(a: seq<T>, b: seq<T>, c: seq<T>)
    ensures a + b + c == a + (b + c)
  {
  }

  /** What a block of the world adds to what is known. */
  lemma BlockKnown(es: seq<Entry>, ids: set<Bytes>, coins: map<Outpoint, real>, n: byte, prev: Bytes, height: int, ns: seq<byte>)
    requires n != 0 && Knows(es, ids, coins) && RewardId(n) !in ids
    requires Works(ids + {RewardId(n)}, coins[Outpoint(RewardId(n), 0) := 10.0], ns)
    ensures Knows(es + Tag(Blk(n, prev, height, ns)), IdsAfter(ids + {RewardId(n)}, ns), CoinsAfter(coins[Outpoint(RewardId(n), 0) := 10.0], ns))
  {
    var b := Blk(n, prev, height, ns);
    var e, rest := Entry(Reward(n), b.hash), b.(txs := Numbered(ns));
    Mints(es, ids, coins, n, b.hash);
    ListKnown(es + [e], ids + {RewardId(n)}, coins[Outpoint(RewardId(n), 0) := 10.0], ns, rest);
    TagFirst(es, b, Reward(n), rest);
  }

  // ----- Adding blocks to a node

  function First(): Block {
    Blk(1, [], 0, [])
  }

  /** The run from the first block leads to the state, which is exact and has an empty pool. */
  ghost predicate Scene(s: NodeState, es: seq<Event>) {
    && RunFit(Agreeable(), Genesis(First()), es) && After(Agreeable(), Genesis(First()), es) == s
    && NodeInv(Agreeable(), s) && UtxoExact(s) && s.pool == map[]
    && AllLegit(s.chain.tree)
  }

  lemma Opening()
    ensures Genesis(First()).chain == Chain(Tree(map[Hash(1) := First()], Hash(1)), Hash(1))
    ensures Scene(Genesis(First()), [])
  {
    BlkIsLegit(1, [], 0, []);
    FirstIsGenesis();
    GenesisInv(Agreeable(), First());
    SceneOpens(Genesis(First()));
  }

  lemma SceneOpens(s: NodeState)
    requires s == Genesis(First()) && NodeInv(Agreeable(), s) && UtxoExact(s) && Legit(First())
    ensures Scene(s, [])
  {
    FirstIsLegit(s);
    NoEvents(s);
  }

  lemma FirstIsLegit(s: NodeState)
    requires s == Genesis(First()) && Legit(First())
    ensures s.pool == map[] && AllLegit(s.chain.tree)
  {
  }

  lemma NoEvents(s: NodeState)
    ensures RunFit(Agreeable(), s, []) && After(Agreeable(), s, []) == s
  {
  }

  lemma OpeningKnows()
    ensures Genesis(First()).chain.Valid()
    ensures Knows(Entries(Genesis(First()).chain.tree, Hash(1)), {RewardId(1)}, map[FirstCoin() := 10.0])
  {
    OpeningEntries();
    OpeningKnown();
    SameKnows([] + [Entry(Reward(1), Hash(1))], Entries(Genesis(First()).chain.tree, Hash(1)), {RewardId(1)}, map[FirstCoin() := 10.0]);
  }

  lemma SameKnows(es: seq<Entry>, fs: seq<Entry>, ids: set<Bytes>, coins: map<Outpoint, real>)
    requires Knows(es, ids, coins) && es == fs
    ensures Knows(fs, ids, coins)
  {
  }

  lemma FirstIsGenesis()
    ensures IsGenesis(First()) && First().txs == [Reward(1)]
  {
    assert Numbered([]) == [] && First().txs[0] == Reward(1);
  }

  lemma OpeningEntries()
    ensures Genesis(First()).chain.Valid()
    ensures Entries(Genesis(First()).chain.tree, Hash(1)) == [] + [Entry(Reward(1), Hash(1))]
  {
    FirstIsGenesis();
    GenesisEntries(First());
  }

  lemma OpeningKnown()
    ensures Knows([] + [Entry(Reward(1), Hash(1))], {RewardId(1)}, map[FirstCoin() := 10.0])
  {
    assert Knows([], {}, map[]);
    Mints([], {}, map[], 1, Hash(1));
    assert {} + {RewardId(1)} == {RewardId(1)};
  }

  /** A block the node of the scene is going to admit. */
  ghost predicate Ready(c: Chain, b: Block)
    requires c.Valid()
  {
    && Legit(b) && c.tree.Fits(b)
    && ProperBlock(c.tree, Agreeable(), b) && NoStrays(c, b)
  }

  ghost predicate AllLegit(t: Tree) {
    forall h {:trigger t.blocks[h]} :: h in t.blocks ==> Legit(t.blocks[h])
  }

  lemma LegitTree(t: Tree)
    requires t.Valid() && AllLegit(t)
    ensures forall h :: h in t.blocks ==> Legit(t.blocks[h]) && t.blocks[h].hash == h
  {
    forall h | h in t.blocks ensures t.blocks[h].hash == h {
      assert t.Link(h);
    }
  }

  /** Such a block is fit to come and is admitted. */
  lemma ReadyIsAdmitted(s: NodeState, b: Block)
    requires NodeInv(Agreeable(), s) && s.pool == map[] && AllLegit(s.chain.tree) && Ready(s.chain, b)
    ensures Incoming(s, b) && Admitted(Agreeable(), s.chain, b)
  {
    assert ProperAt(Agreeable(), s.chain.tree, b.prev);
    LegitTree(s.chain.tree);
    LegitAssumptions(s.chain.tree, b);
    BlockAcceptedIff(s.chain, Agreeable(), b);
  }

  lemma RunOn(s: NodeState, es: seq<Event>, b: Block)
    requires RunFit(Agreeable(), Genesis(First()), es) && After(Agreeable(), Genesis(First()), es) == s
    requires s.chain.Valid() && Incoming(s, b)
    ensures RunFit(Agreeable(), Genesis(First()), es + [BlockArrives(b)])
    ensures After(Agreeable(), Genesis(First()), es + [BlockArrives(b)]) == Step(Agreeable(), s, b)
  {
    var all := es + [BlockArrives(b)];
    assert all[..|all| - 1] == es && all[|all| - 1] == BlockArrives(b);
  }

  lemma Arriving(s: NodeState, es: seq<Event>, b: Block)
    requires Scene(s, es) && Ready(s.chain, b)
    ensures Incoming(s, b) && Admitted(Agreeable(), s.chain, b)
    ensures RunFit(Agreeable(), Genesis(First()), es + [BlockArrives(b)])
    ensures After(Agreeable(), Genesis(First()), es + [BlockArrives(b)]) == Step(Agreeable(), s, b)
  {
    ReadyIsAdmitted(s, b);
    RunOn(s, es, b);
  }

  lemma StepOfScene(s: NodeState, b: Block)
    requires NodeInv(Agreeable(), s) && UtxoExact(s) && s.pool == map[] && Incoming(s, b) && Admitted(Agreeable(), s.chain, b)
    requires s.chain.AddStateOf(b) != AddedToParallelTop
    ensures NodeInv(Agreeable(), Step(Agreeable(), s, b)) && UtxoExact(Step(Agreeable(), s, b)) && Step(Agreeable(), s, b).pool == map[]
    ensures Step(Agreeable(), s, b).chain == s.chain.Add(b)
  {
    StepKeepsInv(Agreeable(), s, b);
    StepKeepsUtxo(Agreeable(), s, b);
    StepChain(Agreeable(), s, b);
    PoolStaysEmpty(s, b);
  }

  lemma PoolStaysEmpty(s: NodeState, b: Block)
    requires s.chain.Valid() && s.pool == map[] && s.chain.Acceptable(b) && Admitted(Agreeable(), s.chain, b)
    requires s.chain.AddStateOf(b) != AddedToParallelTop
    ensures Step(Agreeable(), s, b).pool == map[]
  {
    if s.chain.AddStateOf(b) == AddedToTop {
      StepOnTop(Agreeable(), s, b);
    } else {
      StepBesides(Agreeable(), s, b);
    }
  }

  /** When it does not replace the main branch the scene goes on. */
  lemma Advance(s: NodeState, es: seq<Event>, b: Block)
    requires Scene(s, es) && Ready(s.chain, b) && s.chain.AddStateOf(b) != AddedToParallelTop
    ensures Scene(Step(Agreeable(), s, b), es + [BlockArrives(b)])
    ensures Step(Agreeable(), s, b).chain == s.chain.Add(b)
  {
    Arriving(s, es, b);
    StepOfScene(s, b);
    LegitAdded(s.chain, b);
  }

  lemma LegitAdded(c: Chain, b: Block)
    requires c.top in c.tree.blocks && AllLegit(c.tree) && Legit(b)
    ensures AllLegit(c.Add(b).tree)
  {
  }
}

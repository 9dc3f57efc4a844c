/**
 A pool from which the node prepares a block that it would refuse.
 */
module Counterexamples {
  import opened Structures
  import opened Blockchain
  import opened Ledger
  import opened Soundness
  import opened TransactionIndex
  import opened TransactionRules
  import opened Pool
  import opened Acceptance
  import opened Preparation
  import opened QuickCheck
  import opened Dropping
  import opened Scenes
  import opened ForkRuns
  import opened NodeRuns

  /** Names one reward twice. */
  function Doubled(): Transaction {
    Transaction(Id(1), [From(FirstCoin()), From(FirstCoin())], [To(20.0)], 0)
  }

  /** Spends what the former pays. */
  function Dependent(): Transaction {
    Transaction(Id(2), [From(Outpoint(Id(1), 0))], [To(20.0)], 1)
  }

  function PoolOfTwo(): PoolMap {
    map[Id(1) := Doubled(), Id(2) := Dependent()]
  }

  lemma PoolOfTwoOk()
    ensures PoolOk(PoolOfTwo()) && Drawn(PoolOfTwo(), [Doubled(), Dependent()])
  {
    assert Doubled().id[0] == 1 && Dependent().id[0] == 2;
    assert Ref(Doubled().vin[0]).txid[0] == 0 && Ref(Doubled().vin[1]).txid[0] == 0 && Ref(Dependent().vin[0]).txid[0] == 1;
    assert !SharesInput(Doubled(), Dependent()) && !SharesInput(Dependent(), Doubled());
  }

  /** Screening drops the first and keeps the second. */
  lemma ScreenOfTwo()
    ensures Screen([Doubled(), Dependent()]).good == [Dependent()]
  {
    var txs := [Doubled(), Dependent()];
    var d := Doubled().vin;
    assert txs[..1] == [Doubled()] && [Doubled()][..0] == [];
    NoteInputsMeans(d, {});
    assert Ref(d[0]) == Ref(d[1]) && !DistinctRefs(d);
    var used := Screen([Doubled()]).used;
    assert Screen([Doubled()]).good == [];
    assert RefsIn(d) == {FirstCoin()} by { assert d == [From(FirstCoin()), From(FirstCoin())]; }
    NoteInputsMeans(Dependent().vin, used);
    assert RefsIn(Dependent().vin) == {Outpoint(Id(1), 0)} by { assert Dependent().vin == [From(Outpoint(Id(1), 0))]; }
  }

  lemma StartShape()
    ensures var c := One();
            c.Valid() && Entries(c.tree, Hash(1)) == [Entry(Reward(1), Hash(1))] && c.tree.blocks[c.top].height == 0
            && c.tree.blocks[Hash(1)].txs == [Reward(1)]
  {
    Opening();
    OpeningEntries();
    ShapeOf(Genesis(First()).chain);
  }

  lemma ShapeOf(c: Chain)
    requires c == One() && c.Valid() && Entries(c.tree, Hash(1)) == [] + [Entry(Reward(1), Hash(1))]
    ensures One().Valid() && Entries(One().tree, Hash(1)) == [Entry(Reward(1), Hash(1))]
    ensures One().tree.blocks[One().top].height == 0 && One().tree.blocks[Hash(1)].txs == [Reward(1)]
  {
    FirstIsGenesis();
  }

  lemma StartResolves()
    ensures One().Valid()
    ensures Resolve(One().tree, RewardId(1), Hash(1)) == Some(Entry(Reward(1), Hash(1))) && Resolve(One().tree, Id(1), Hash(1)) == None
  {
    var c := One();
    StartShape();
    var e := Entry(Reward(1), Hash(1));
    assert Entries(c.tree, Hash(1))[0] == e && e.tx.id == RewardId(1);
    ResolveUnique(c.tree, Hash(1), e);
  }

  /** Nothing is spent yet. */
  lemma StartUnspent(op: Outpoint)
    ensures One().Valid() && !SpentUnder(One(), op, Hash(1), Hash(1))
  {
    StartShape();
    forall h | h in One().tree.blocks ensures !SpendsOutput(One().tree.blocks[h].txs, op) {
      assert h == Hash(1) && One().tree.blocks[h].txs == [Reward(1)];
    }
  }

  lemma DoubledAccepted()
    ensures One().Valid() && Accepts(One(), Agreeable(), Doubled(), [], Hash(1))
  {
    var c, tx := One(), Doubled();
    StartShape();
    StartResolves();
    StartUnspent(FirstCoin());
    forall x {:trigger InputFree(c, tx.vin[x], Hash(1))} | 0 <= x < |tx.vin| ensures InputFree(c, tx.vin[x], Hash(1)) {
      assert tx.vin[x] == From(FirstCoin());
    }
    var prev := PrevTXs(c.tree, tx, [], Hash(1));
    assert HasInput(tx, prev, 0) && HasInput(tx, prev, 1);
    DoubledTotals(prev);
    assert Verifies(Agreeable(), tx, prev);
  }

  lemma DoubledTotals(prev: InputTXs)
    requires HasInput(Doubled(), prev, 0) && HasInput(Doubled(), prev, 1) && prev[0] == prev[1] == Some(Reward(1))
    ensures InputTotal(Doubled(), prev, 2) == 20.0 && OutputTotal(Doubled().vout) == 20.0
  {
    assert InputTotal(Doubled(), prev, 0) == 0.0 && InputTotal(Doubled(), prev, 1) == 10.0;
    assert Doubled().vout[..0] == [];
  }

  lemma DependentAccepted()
    ensures One().Valid() && Accepts(One(), Agreeable(), Dependent(), [Doubled()], Hash(1))
  {
    var c, tx := One(), Dependent();
    StartShape();
    StartResolves();
    assert tx.vin[0].txid == Id(1);
    assert InputFree(c, tx.vin[0], Hash(1));
    var prev := PrevTXs(c.tree, tx, [Doubled()], Hash(1));
    assert prev[0] == Some(Doubled()) && HasInput(tx, prev, 0);
    DependentTotals(prev);
    assert Verifies(Agreeable(), tx, prev);
  }

  lemma DependentTotals(prev: InputTXs)
    requires HasInput(Dependent(), prev, 0) && prev[0] == Some(Doubled())
    ensures InputTotal(Dependent(), prev, 1) == 20.0 && OutputTotal(Dependent().vout) == 20.0
  {
    assert InputTotal(Dependent(), prev, 0) == 0.0;
    assert Dependent().vout[..0] == [];
  }

  lemma KeptOfTwo()
    ensures One().Valid() && Kept(One(), Agreeable(), [Doubled(), Dependent()]) == [Doubled(), Dependent()]
  {
    var list := [Doubled(), Dependent()];
    DoubledAccepted();
    DependentAccepted();
    assert list[..1] == [Doubled()] && [Doubled()][..0] == [];
    assert Kept(One(), Agreeable(), [Doubled()]) == [Doubled()];
  }

  lemma DependentNotHeld()
    ensures One().Valid() && !ClosedChoice(One(), [Dependent()])
  {
    StartShape();
    StartResolves();
    assert Dependent().vin[0].txid == Id(1);
    assert !InputsHeld(One(), [Dependent()][0], [Dependent()][..0]);
  }

  lemma ChosenOfTwo()
    ensures One().Valid() && Chosen(One(), Agreeable(), [Doubled(), Dependent()]) == [Dependent()]
    ensures Enough(One(), [Dependent()]) && SortedByTime([Doubled(), Dependent()])
  {
    StartShape();
    KeptOfTwo();
    ScreenOfTwo();
  }

  // ----- The run that leads to this pool

  /** The node after the first block, with this pool. */
  function AtStart(pool: PoolMap): NodeState {
    NodeState(One(), Genesis(First()).utxo, pool)
  }

  /** A run of these events from the first block fits and ends with this pool. */
  ghost predicate Leads(es: seq<Event>, pool: PoolMap) {
    RunFit(Agreeable(), Genesis(First()), es) && After(Agreeable(), Genesis(First()), es) == AtStart(pool)
  }

  lemma StartCoins()
    ensures Genesis(First()).utxo == Creates(Entry(Reward(1), Hash(1))) && FirstCoin() in Genesis(First()).utxo
    ensures Genesis(First()).utxo[FirstCoin()].block == Hash(1) && Outpoint(Id(1), 0) !in Genesis(First()).utxo
  {
    FirstIsGenesis();
  }

  lemma FirstHolds()
    ensures FirstWithId(First().txs, RewardId(1)) == Some(Reward(1))
  {
    FirstIsGenesis();
  }

  lemma DoubledQuick()
    ensures QuickAccepts(Agreeable(), One().tree, Genesis(First()).utxo, map[], Doubled())
  {
    var u, tx := Genesis(First()).utxo, Doubled();
    StartCoins();
    FirstHolds();
    assert Ref(tx.vin[0]) == FirstCoin() && Ref(tx.vin[1]) == FirstCoin();
    var prev := QuickPrev(One().tree, u, map[], tx);
    assert prev[0] == Some(Reward(1)) && prev[1] == Some(Reward(1));
    assert HasInput(tx, prev, 0) && HasInput(tx, prev, 1);
    DoubledTotals(prev);
    assert Verifies(Agreeable(), tx, prev);
  }

  lemma DependentQuick(pool: PoolMap)
    requires pool == map[Id(1) := Doubled()]
    ensures QuickAccepts(Agreeable(), One().tree, Genesis(First()).utxo, pool, Dependent())
  {
    var u, tx := Genesis(First()).utxo, Dependent();
    StartCoins();
    assert Ref(tx.vin[0]) == Outpoint(Id(1), 0);
    var prev := QuickPrev(One().tree, u, pool, tx);
    assert prev[0] == Some(Doubled()) && HasInput(tx, prev, 0);
    DependentTotals(prev);
    assert Verifies(Agreeable(), tx, prev);
  }

  lemma RunOnTx(s: NodeState, es: seq<Event>, tx: Transaction)
    requires RunFit(Agreeable(), Genesis(First()), es) && After(Agreeable(), Genesis(First()), es) == s
    requires s.chain.Valid() && IncomingTx(s, tx)
    ensures RunFit(Agreeable(), Genesis(First()), es + [TxArrives(tx)])
    ensures After(Agreeable(), Genesis(First()), es + [TxArrives(tx)]) == StepTx(Agreeable(), s, tx)
  {
    var all := es + [TxArrives(tx)];
    assert all[..|all| - 1] == es && all[|all| - 1] == TxArrives(tx);
  }

  /** An accepted transaction with a new ID that shares no input joins the pool. */
  lemma Joins(pool: PoolMap, tx: Transaction, es: seq<Event>)
    requires Leads(es, pool)
    requires One().Valid() && tx.vin != [] && !tx.IsCoinbase() && tx.id != RewardId(1) && tx.id !in pool
    requires QuickAccepts(Agreeable(), One().tree, Genesis(First()).utxo, pool, tx) && !ConflictsWith(pool, tx)
    ensures Leads(es + [TxArrives(tx)], pool[tx.id := tx])
  {
    StartShape();
    RunOnTx(AtStart(pool), es, tx);
  }

  lemma TwoArrive()
    ensures Leads([TxArrives(Doubled()), TxArrives(Dependent())], PoolOfTwo())
  {
    StartLeads();
    DoubledJoins([]);
    DependentJoins([TxArrives(Doubled())]);
    Pair(TxArrives(Doubled()), TxArrives(Dependent()));
  }

  lemma Pair<T>(a: T, b: T)
    ensures [] + [a] == [a] && [a] + [b] == [a, b]
  {
  }

  lemma StartLeads()
    ensures Leads([], map[])
  {
    Opening();
    NoEvents(Genesis(First()));
  }

  lemma DoubledJoins(es: seq<Event>)
    requires Leads(es, map[])
    ensures Leads(es + [TxArrives(Doubled())], map[Id(1) := Doubled()])
  {
    StartShape();
    DoubledQuick();
    Joins(map[], Doubled(), es);
    assert map[][Id(1) := Doubled()] == map[Id(1) := Doubled()];
  }

  lemma DependentJoins(es: seq<Event>)
    requires Leads(es, map[Id(1) := Doubled()])
    ensures Leads(es + [TxArrives(Dependent())], PoolOfTwo())
  {
    StartShape();
    DependentQuick(map[Id(1) := Doubled()]);
    DependentIsNew(map[Id(1) := Doubled()]);
    Joins(map[Id(1) := Doubled()], Dependent(), es);
    assert map[Id(1) := Doubled()][Id(2) := Dependent()] == PoolOfTwo();
  }

  lemma DependentIsNew(pool: PoolMap)
    requires pool == map[Id(1) := Doubled()]
    ensures Dependent().id !in pool && !ConflictsWith(pool, Dependent())
  {
    PoolOfTwoOk();
    assert Dependent().id[0] == 2;
  }

  /**
   After two transactions arrive the node prepares a block from its pool that fails its own
   checks: the second one stays without the first.
   */
  lemma PreparedBlockCanFail(timestamp: int, hash: Bytes, nonce: int)
    ensures Leads([TxArrives(Doubled()), TxArrives(Dependent())], PoolOfTwo())
    ensures PoolOk(PoolOfTwo()) && Drawn(PoolOfTwo(), [Doubled(), Dependent()]) && SortedByTime([Doubled(), Dependent()])
    ensures One().Valid() && Enough(One(), Chosen(One(), Agreeable(), [Doubled(), Dependent()]))
    ensures !BlockChecks(One(), Agreeable(),
                         BlockOf(One(), Chosen(One(), Agreeable(), [Doubled(), Dependent()]), Reward(8), timestamp, hash, nonce))
  {
    TwoArrive();
    PoolOfTwoOk();
    ChosenOfTwo();
    DependentNotHeld();
    PreparedPassesIff(One(), Agreeable(), PoolOfTwo(), [Doubled(), Dependent()], Reward(8), timestamp, hash, nonce);
  }

  // ----- A valid transaction that is dropped all the same

  lemma DoubledMinable()
    ensures One().Valid() && Minable(One(), Agreeable(), Doubled(), [])
  {
    StartShape();
    DoubledAccepted();
    StartSound();
    ExtendedUnique(One(), []);
    AcceptsIffMinable(One(), Agreeable(), Doubled(), []);
  }

  lemma StartSound()
    ensures One().Valid() && Sound(Entries(One().tree, One().top))
  {
    OneIs();
    ProperIsSound(Agreeable(), Entries(One().tree, Hash(1)));
  }

  /**
   The first of the two continues the main chain fairly and no stray block is in its way, and
   preparing the block drops it, for it names an output twice.
   */
  lemma DoubledIsDropped()
    ensures Leads([TxArrives(Doubled()), TxArrives(Dependent())], PoolOfTwo())
    ensures One().Valid() && Minable(One(), Agreeable(), Doubled(), []) && !DistinctRefs(Doubled().vin)
    ensures Drawn(PoolOfTwo(), [Doubled(), Dependent()]) && Doubled().id in Dropped(One(), Agreeable(), [Doubled(), Dependent()])
  {
    var list := [Doubled(), Dependent()];
    TwoArrive();
    PoolOfTwoOk();
    DoubledMinable();
    assert Ref(Doubled().vin[0]) == Ref(Doubled().vin[1]);
    DroppedMeans(One(), Agreeable(), PoolOfTwo(), list, 0);
  }
}

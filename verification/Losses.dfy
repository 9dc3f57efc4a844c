/**
 Runs and states on which the code does not do what one would wish: the conditions of the main
 results cannot be dropped. All blocks are ones that a node takes in, one after the other.
 */
module Losses {
  import opened Structures
  import opened BlockTree
  import opened Blockchain
  import opened Ledger
  import opened TransactionIndex
  import opened Cancellation
  import opened Pool
  import opened Acceptance
  import opened Drift
  import opened NodeRuns
  import opened Scenes
  import opened Forks
  import opened ForkRuns

  // ----- Block 6 replaces block 4 by blocks 5 and 6

  /** The chain with block 6, whose branch is now the main one. */
  lemma SixOn(d: Chain, n: byte)
    requires AtFive(d, n) && d.tree.Fits(Six()) && d.AddStateOf(Six()) == AddedToParallelTop
    ensures var c := d.Add(Six());
            && Stands(c, Two(), [Hash(2), Hash(1)]) && Stands(c, Four(n), [Hash(4), Hash(2), Hash(1)])
            && Stands(c, Six(), [Hash(6), Hash(5), Hash(2), Hash(1)]) && c.top == Hash(6)
            && Stands(c, First(), [Hash(1)])
  {
    StandsAfter(d, Six(), First(), [Hash(1)]);
    StandsAfter(d, Six(), Two(), [Hash(2), Hash(1)]);
    StandsAfter(d, Six(), Four(n), [Hash(4), Hash(2), Hash(1)]);
    NewStands(d, Six(), Five(), [Hash(5), Hash(2), Hash(1)]);
    ConsThree(Hash(6), Hash(5), Hash(2), Hash(1));
  }

  /** The coins of block 2 that neither block 5 nor block 6 touches are unspent on the new main chain. */
  lemma SixKeeps(d: Chain, n: byte)
    requires AtFive(d, n) && d.tree.Fits(Six()) && d.AddStateOf(Six()) == AddedToParallelTop
    ensures var c := d.Add(Six());
            && KnownAt(c, Hash(2), IdsOfTwo(), CoinsOfTwo()) && Hash(6) in c.tree.blocks
            && Outpoint(RewardId(2), 0) in Unspent(Entries(c.tree, Hash(2))) && Outpoint(Id(2), 1) in Unspent(Entries(c.tree, Hash(2)))
            && Outpoint(RewardId(2), 0) in Unspent(Entries(c.tree, Hash(6))) && Outpoint(Id(2), 1) in Unspent(Entries(c.tree, Hash(6)))
  {
    KnownAfter(d, Six(), Hash(2), IdsOfTwo(), CoinsOfTwo());
    Grow(d, Six());
    SixKnown(Entries(d.tree, Hash(5)));
    HoldTwo(Entries(d.Add(Six()).tree, Hash(2)));
  }

  lemma HoldTwo(es: seq<Entry>)
    requires Knows(es, IdsOfTwo(), CoinsOfTwo())
    ensures Outpoint(RewardId(2), 0) in Unspent(es) && Outpoint(Id(2), 1) in Unspent(es)
  {
    assert Outpoint(RewardId(2), 0) in CoinsOfTwo() && Outpoint(Id(2), 1) in CoinsOfTwo();
  }

  lemma ConsThree<T>(a: T, b: T, c: T, d: T)
    ensures [a] + [b, c, d] == [a, b, c, d]
  {
  }

  /** The old branch is block 4 alone, on block 2. */
  lemma OldBranch(c: Chain, n: byte)
    requires Stands(c, Two(), [Hash(2), Hash(1)]) && Stands(c, Four(n), [Hash(4), Hash(2), Hash(1)])
    requires Stands(c, Six(), [Hash(6), Hash(5), Hash(2), Hash(1)]) && c.top == Hash(6)
    ensures Merge(c.tree, Hash(4), Hash(6)) == 1 && MergeBlock(c.tree, Hash(4), Hash(6)) == Hash(2)
    ensures TopBlocks(c.tree, Hash(4), 1) == [Four(n)]
  {
    HashesApart();
    assert c.tree.Path(Hash(6))[2] == Hash(2);
    MergeSecond(c.tree, Hash(4), Hash(6), Hash(2));
    TopBlocksStep(c.tree, Hash(4), 1);
  }

  /** Then an output of block 2 that cancelling block 4 does not give back is lost. */
  lemma LostBySix(c: Chain, u: Utxo, n: byte, op: Outpoint)
    requires Stands(c, Two(), [Hash(2), Hash(1)]) && Stands(c, Four(n), [Hash(4), Hash(2), Hash(1)])
    requires Stands(c, Six(), [Hash(6), Hash(5), Hash(2), Hash(1)]) && c.top == Hash(6)
    requires op in Unspent(Entries(c.tree, Hash(2))) && op in Unspent(Entries(c.tree, Hash(6)))
    requires Four(n).prev in c.tree.blocks && !GivenBack(c, u, [Four(n)], op, Unspent(Entries(c.tree, Hash(2)))[op].block)
    ensures Lost(c, u, Hash(4), op)
  {
    OldBranch(c, n);
  }

  // ----- An input after one of the same block

  /** Number 8 names number 6 of its own block before the reward of block 2, so the loop does not get to that. */
  lemma LateNotReached(below: seq<Entry>)
    requires Knows(below, IdsOfTwo(), CoinsOfTwo())
    ensures RewardId(2) !in Reached(Four(8), below)
  {
    forall tx | tx in Four(8).txs ensures RewardId(2) !in ReachedBy(tx, below) {
      LateTx(tx);
      assert !HasId(below, Id(6));
      assert tx == Ordinary(8) ==> tx.vin[0].txid == Id(6) && !ReachesInput(tx, below, 1);
    }
  }

  lemma LateTx(tx: Transaction)
    requires tx in Four(8).txs
    ensures tx == Reward(4) || tx == Ordinary(6) || tx == Ordinary(8)
  {
    var ns: seq<byte> := [6, 8];
    var i :| 0 <= i < |Four(8).txs| && Four(8).txs[i] == tx;
    assert i > 0 ==> tx == Ordinary(ns[i - 1]);
  }

  lemma LateSpends()
    ensures SpendsOutput(Four(8).txs, Outpoint(RewardId(2), 0))
  {
    BlkSpendsTwo(4, Hash(2), 2, 6, 8, Outpoint(RewardId(2), 0));
    assert Ref(Ordinary(8).vin[1]) == Outpoint(RewardId(2), 0);
    InRefsIn(Ordinary(8).vin, Outpoint(RewardId(2), 0));
  }

  lemma LateNotGiven(c: Chain, u: Utxo, origin: Bytes)
    requires c.Valid() && Hash(2) in c.tree.blocks && KnownAt(c, Hash(2), IdsOfTwo(), CoinsOfTwo())
    ensures !GivenBack(c, u, [Four(8)], Outpoint(RewardId(2), 0), origin)
  {
    LateNotReached(Entries(c.tree, Hash(2)));
    LateSpends();
    assert [Four(8)][|[Four(8)]| - 1] == Four(8);
  }

  // ----- A stray spend

  lemma StrayReached(below: seq<Entry>)
    requires Knows(below, IdsOfTwo(), CoinsOfTwo())
    ensures Id(2) in Reached(Four(7), below)
  {
    var tx := Four(7).txs[1];
    assert tx == Ordinary(6) && tx in Four(7).txs && HasId(below, Id(2));
    assert ReachesInput(tx, below, 0) && tx.vin[0].txid == Id(2);
    assert Id(2) in ReachedBy(tx, below);
  }

  /** Block 3 counts as lying under block 2 and spends the second output of number 2. */
  lemma ThreeStrays(c: Chain, origin: Bytes)
    requires Stands(c, First(), [Hash(1)]) && Stands(c, Two(), [Hash(2), Hash(1)]) && Stands(c, Three(), [Hash(3), Hash(1)])
    requires Hash(2) in c.Main() && (origin == Hash(1) || origin == Hash(2))
    ensures Stray(c, Hash(3), origin, Hash(2)) && Strays(c, Outpoint(Id(2), 1), origin, Hash(2))
  {
    HashesApart();
    MergeOnPath(c.tree, Hash(2), c.top);
    ThreeSpends(Outpoint(Id(2), 1));
  }

  lemma OriginInPath(c: Chain, op: Outpoint)
    requires KnownAt(c, Hash(2), IdsOfTwo(), CoinsOfTwo()) && Stands(c, Two(), [Hash(2), Hash(1)]) && op in Unspent(Entries(c.tree, Hash(2)))
    ensures Unspent(Entries(c.tree, Hash(2)))[op].block == Hash(1) || Unspent(Entries(c.tree, Hash(2)))[op].block == Hash(2)
  {
    ProperIsSound(Agreeable(), Entries(c.tree, Hash(2)));
    UnspentAmongAll(Entries(c.tree, Hash(2)), op);
    CreatorBlock(c.tree, Hash(2), op);
  }

  lemma StrayNotGiven(c: Chain, u: Utxo, origin: Bytes)
    requires Stands(c, First(), [Hash(1)]) && Stands(c, Two(), [Hash(2), Hash(1)]) && Stands(c, Three(), [Hash(3), Hash(1)])
    requires KnownAt(c, Hash(2), IdsOfTwo(), CoinsOfTwo()) && Hash(2) in c.Main() && (origin == Hash(1) || origin == Hash(2))
    ensures !GivenBack(c, u, [Four(7)], Outpoint(Id(2), 1), origin)
  {
    StrayReached(Entries(c.tree, Hash(2)));
    ThreeStrays(c, origin);
    assert [Four(7)][|[Four(7)]| - 1] == Four(7);
  }

  // ----- The runs

  /** Block 6 is ready on this chain and then replaces block 4, and whatever is kept loses the output. */
  ghost predicate LosesBySix(d: Chain, op: Outpoint) {
    && d.Valid() && Ready(d, Six()) && d.AddStateOf(Six()) == AddedToParallelTop && d.top == Hash(4)
    && AlwaysLost(d, op)
  }

  ghost predicate AlwaysLost(d: Chain, op: Outpoint) {
    forall u {:trigger LostAt(d, op, u)} :: LostAt(d, op, u)
  }

  ghost predicate LostAt(d: Chain, op: Outpoint, u: Utxo) {
    && d.top in d.tree.blocks && d.Add(Six()).Valid() && Hash(4) in d.Add(Six()).tree.blocks
    && Lost(d.Add(Six()), u, Hash(4), op)
  }

  /** Such a loss makes the exact unspent outputs inexact. */
  lemma SixRun(ks: seq<Fork>, js: seq<Fork>, n: byte, d: Chain, op: Outpoint) returns (s: NodeState, r: NodeState)
    requires Played(ks, n, d) && js == ks + [6] && LosesBySix(d, op)
    ensures Reaches(ForkBlocks(ks, n), s) && UtxoExact(s) && Reaches(ForkBlocks(js, n), r) && !UtxoExact(r)
  {
    s := Starts(ks, n, d);
    ForkIs(6, n);
    ForkGoesOn(s, ks, n, 6, Six());
    r := Step(Agreeable(), s, Six());
    assert LostAt(d, op, s.utxo);
    LossShows(s, Six(), op, r);
  }

  lemma LossShows(s: NodeState, b: Block, op: Outpoint, r: NodeState)
    requires NodeInv(Agreeable(), s) && UtxoExact(s) && Incoming(s, b) && Admitted(Agreeable(), s.chain, b)
    requires s.chain.AddStateOf(b) == AddedToParallelTop && r == Step(Agreeable(), s, b)
    requires s.chain.Add(b).Valid() && s.chain.top in s.chain.Add(b).tree.blocks && Lost(s.chain.Add(b), s.utxo, s.chain.top, op)
    ensures !UtxoExact(r)
  {
    StepKeepsUtxo(Agreeable(), s, b);
  }

  /** The lists of the runs, block by block. */
  lemma Lists()
    ensures [2] + [3] == [2, 3] && [2, 3] + [4] == [2, 3, 4]
    ensures [2, 3, 4] + [5] == [2, 3, 4, 5] && [2, 3, 4, 5] + [6] == [2, 3, 4, 5, 6]
    ensures [2] + [4] == [2, 4] && [2, 4] + [3] == [2, 4, 3]
    ensures [2, 4] + [5] == [2, 4, 5] && [2, 4, 5] + [6] == [2, 4, 5, 6]
    ensures 4 !in [2, 3] && 5 !in [2, 3, 4] && 6 !in [2, 3, 4] && 6 !in [2, 4, 5] && 6 !in [2, 3, 4, 5]
  {
  }

  /** Blocks 2, 4 with number 8, and 5. */
  lemma LateChain() returns (d: Chain)
    ensures Played([2, 4, 5], 8, d) && AtFive(d, 8)
  {
    Lists();
    var c1 := PlayTwo(8);
    var c2 := PlayFour([2], [2, 4], 8, c1);
    d := PlayFive([2, 4], [2, 4, 5], 8, c2);
  }

  /** Blocks 2 and 3. */
  lemma BesideChain(n: byte) returns (d: Chain)
    ensures Played([2, 3], n, d) && Base(d) && d.top == Hash(2) && Stands(d, Three(), [Hash(3), Hash(1)])
  {
    Lists();
    var c := PlayTwo(n);
    assert c.Main()[1] == Hash(1);
    d := PlayThree([2], [2, 3], n, c);
  }

  /** Blocks 2, 3, 4 with number 7, and 5. */
  lemma StrayChain() returns (d: Chain)
    ensures Played([2, 3, 4, 5], 7, d) && AtFive(d, 7) && Stands(d, Three(), [Hash(3), Hash(1)])
  {
    Lists();
    var c1 := BesideChain(7);
    var c2 := PlayFour([2, 3], [2, 3, 4], 7, c1);
    d := PlayFive([2, 3, 4], [2, 3, 4, 5], 7, c2);
    StandsAfter(c1, Four(7), Three(), [Hash(3), Hash(1)]);
    StandsAfter(c2, Five(), Three(), [Hash(3), Hash(1)]);
  }

  lemma LateSix(ks: seq<Fork>, d: Chain)
    requires Played(ks, 8, d) && AtFive(d, 8) && 6 !in ks
    ensures LosesBySix(d, Outpoint(RewardId(2), 0))
  {
    SixComes(ks, 8, d);
    LateLost(d);
  }

  lemma LateLost(d: Chain)
    requires AtFive(d, 8) && d.tree.Fits(Six()) && d.AddStateOf(Six()) == AddedToParallelTop
    ensures AlwaysLost(d, Outpoint(RewardId(2), 0))
  {
    forall u {:trigger LostAt(d, Outpoint(RewardId(2), 0), u)} ensures LostAt(d, Outpoint(RewardId(2), 0), u) {
      LateAfter(d, u);
    }
  }

  lemma LateAfter(d: Chain, u: Utxo)
    requires AtFive(d, 8) && d.tree.Fits(Six()) && d.AddStateOf(Six()) == AddedToParallelTop
    ensures LostAt(d, Outpoint(RewardId(2), 0), u)
  {
    var c := d.Add(Six());
    SixOn(d, 8);
    SixKeeps(d, 8);
    LateNotGiven(c, u, Unspent(Entries(c.tree, Hash(2)))[Outpoint(RewardId(2), 0)].block);
    LostBySix(c, u, 8, Outpoint(RewardId(2), 0));
  }

  lemma StraySix(ks: seq<Fork>, d: Chain)
    requires Played(ks, 7, d) && AtFive(d, 7) && Stands(d, Three(), [Hash(3), Hash(1)]) && 6 !in ks
    ensures LosesBySix(d, Outpoint(Id(2), 1))
  {
    SixComes(ks, 7, d);
    StrayLost(d);
  }

  lemma StrayLost(d: Chain)
    requires AtFive(d, 7) && Stands(d, Three(), [Hash(3), Hash(1)]) && d.tree.Fits(Six()) && d.AddStateOf(Six()) == AddedToParallelTop
    ensures AlwaysLost(d, Outpoint(Id(2), 1))
  {
    forall u {:trigger LostAt(d, Outpoint(Id(2), 1), u)} ensures LostAt(d, Outpoint(Id(2), 1), u) {
      StrayAfter(d, u);
    }
  }

  lemma StrayAfter(d: Chain, u: Utxo)
    requires AtFive(d, 7) && Stands(d, Three(), [Hash(3), Hash(1)]) && d.tree.Fits(Six()) && d.AddStateOf(Six()) == AddedToParallelTop
    ensures LostAt(d, Outpoint(Id(2), 1), u)
  {
    SixOn(d, 7);
    SixKeeps(d, 7);
    StandsAfter(d, Six(), Three(), [Hash(3), Hash(1)]);
    StrayAway(d.Add(Six()), u);
  }

  lemma StrayAway(c: Chain, u: Utxo)
    requires Stands(c, First(), [Hash(1)]) && Stands(c, Two(), [Hash(2), Hash(1)]) && Stands(c, Three(), [Hash(3), Hash(1)])
    requires Stands(c, Four(7), [Hash(4), Hash(2), Hash(1)])
    requires Stands(c, Six(), [Hash(6), Hash(5), Hash(2), Hash(1)]) && c.top == Hash(6)
    requires KnownAt(c, Hash(2), IdsOfTwo(), CoinsOfTwo()) && Outpoint(Id(2), 1) in Unspent(Entries(c.tree, Hash(6)))
    requires Outpoint(Id(2), 1) in Unspent(Entries(c.tree, Hash(2)))
    ensures Lost(c, u, Hash(4), Outpoint(Id(2), 1))
  {
    OriginInPath(c, Outpoint(Id(2), 1));
    OnSix(c);
    StrayNotGiven(c, u, Unspent(Entries(c.tree, Hash(2)))[Outpoint(Id(2), 1)].block);
    LostBySix(c, u, 7, Outpoint(Id(2), 1));
  }

  lemma OnSix(c: Chain)
    requires Stands(c, Six(), [Hash(6), Hash(5), Hash(2), Hash(1)]) && c.top == Hash(6)
    ensures c.Valid() && Hash(2) in c.Main()
  {
    assert c.Main()[2] == Hash(2);
  }

  /**
   A run from the first block: with blocks 2, 4 and 5 the unspent outputs are exact, and when
   block 6 makes the branch of 5 the main one they are not, for block 4 named an output of its own
   before one of block 2.
   */
  lemma LateInputIsLost() returns (s: NodeState, r: NodeState)
    ensures Reaches(ForkBlocks([2, 4, 5], 8), s) && UtxoExact(s)
    ensures Reaches(ForkBlocks([2, 4, 5, 6], 8), r) && !UtxoExact(r)
  {
    Lists();
    var d := LateChain();
    LateSix([2, 4, 5], d);
    s, r := SixRun([2, 4, 5], [2, 4, 5, 6], 8, d, Outpoint(RewardId(2), 0));
  }

  /**
   The same with blocks 2, 3, 4 and 5, where every transaction names outputs of earlier blocks
   first: block 3 spends the second output of number 2 on its own branch, so cancelling block 4
   takes that output for spent.
   */
  lemma StraySpendIsLost() returns (s: NodeState, r: NodeState)
    ensures Reaches(ForkBlocks([2, 3, 4, 5], 7), s) && UtxoExact(s)
    ensures Reaches(ForkBlocks([2, 3, 4, 5, 6], 7), r) && !UtxoExact(r)
  {
    Lists();
    var d := StrayChain();
    StraySix([2, 3, 4, 5], d);
    s, r := SixRun([2, 3, 4, 5], [2, 3, 4, 5, 6], 7, d, Outpoint(Id(2), 1));
  }

  // ----- Strays

  lemma BesideStrays(d: Chain)
    requires Base(d) && d.top == Hash(2) && Stands(d, Three(), [Hash(3), Hash(1)])
    ensures d.Valid() && Hash(3) !in d.tree.Path(Hash(2)) && InTipRange(d, Hash(3), Hash(2), Hash(2))
  {
    HashesApart();
    assert d.Main()[0] == Hash(2);
    ThreeStrays(d, Hash(2));
  }

  /** After blocks 2 and 3 the latter counts as lying under the former, though it is not on its path. */
  lemma StrayIsCounted() returns (s: NodeState)
    ensures Reaches(ForkBlocks([2, 3], 7), s) && s.chain.top == Hash(2)
    ensures Hash(2) in s.chain.tree.blocks && s.chain.tree.blocks[Hash(2)] == Two()
    ensures Hash(3) in s.chain.tree.blocks && s.chain.tree.blocks[Hash(3)] == Three()
    ensures Hash(3) !in s.chain.tree.Path(Hash(2)) && InTipRange(s.chain, Hash(3), Hash(2), Hash(2))
  {
    var d := BesideChain(7);
    BesideStrays(d);
    s := Starts([2, 3], 7, d);
  }

  // ----- Two blocks that spend one output

  /** Both block 2 and block 3 hold number 2, which spends the first coin. */
  lemma TwoSpends()
    ensures SpendsOutput(Two().txs, FirstCoin()) && SpendsOutput(Three().txs, FirstCoin())
  {
    ThreeSpends(FirstCoin());
    var ns: seq<byte> := [2];
    BlkSpends(2, Hash(1), 1, ns, FirstCoin());
    NamesOne(Ordinary(ns[0]), FirstCoin());
    assert NumberSpendsAt(ns, 0, FirstCoin());
  }

  lemma DroppedRecord(t: Tree, links: map<Bytes, seq<Bytes>>, spent: map<Bytes, seq<SpentOutput>>,
                      links': map<Bytes, seq<Bytes>>, spent': map<Bytes, seq<SpentOutput>>) returns (r: SpentOutput)
    requires Hash(3) in t.blocks && t.blocks[Hash(3)] == Three()
    requires IndexExact(t, links, spent) && IndexRemoves(links, spent, Two(), links', spent')
    ensures r.blockHash == Hash(3) && r.outInd == 0 && Listed(spent, RewardId(1), r) && !Listed(spent', RewardId(1), r)
  {
    TwoSpends();
    SpendHasRecord(Three().txs, Hash(3), FirstCoin());
    r :| RecordsSpend(Three().txs, Hash(3), RewardId(1), r) && r.outInd == 0;
    RecordOfBlock(Three().txs, Hash(3), RewardId(1), r);
  }

  lemma RecordOfBlock(txs: seq<Transaction>, hash: Bytes, id: Bytes, r: SpentOutput)
    requires RecordsSpend(txs, hash, id, r)
    ensures r.blockHash == hash
  {
  }

  /**
   The node after blocks 2 and 3: taking block 2, its top, out of an exact index takes out the
   record of the spend that block 3 makes, though that block stays stored.
   */
  lemma SharedSpendIsDropped(links: map<Bytes, seq<Bytes>>, spent: map<Bytes, seq<SpentOutput>>,
                             links': map<Bytes, seq<Bytes>>, spent': map<Bytes, seq<SpentOutput>>)
    returns (s: NodeState)
    requires IndexRemoves(links, spent, Two(), links', spent')
    ensures Reaches(ForkBlocks([2, 3], 7), s) && s.chain.top == Hash(2)
    ensures IndexExact(s.chain.tree, links, spent) ==>
              exists r: SpentOutput {:trigger Listed(spent, RewardId(1), r)} ::
                r.blockHash == Hash(3) && r.outInd == 0 && Listed(spent, RewardId(1), r) && !Listed(spent', RewardId(1), r)
  {
    s := StrayIsCounted();
    if IndexExact(s.chain.tree, links, spent) {
      var r := DroppedRecord(s.chain.tree, links, spent, links', spent');
    }
  }
}

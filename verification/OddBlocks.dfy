/**
 Blocks that the node takes in though they do not continue its chain properly, and a block that
 it takes in or refuses depending on what came before (node/consensus/manager.go:252-313).
 */
module OddBlocks {
  import opened Structures
  import opened BlockTree
  import opened Blockchain
  import opened Ledger
  import opened Pool
  import opened Acceptance
  import opened Validity
  import opened Preparation
  import opened NodeRuns
  import opened Agreement
  import opened Scenes
  import opened Forks
  import opened ForkRuns
  import opened Losses

  // ----- Blocks on the first one

  /** A block of the first level that moves the first coin, and perhaps moves it on. */
  lemma OnFirst(c: Chain, n: byte, height: int, ns: seq<byte>)
    requires AtOne(c) && n != 0 && n != 1 && Hash(n) !in c.tree.blocks
    requires CountAllowed(height, |ns|)
    requires Relay(ns, FirstCoin(), 10.0) && Distinct(ns)
    ensures TxAssumptions(c.tree, Blk(n, Hash(1), height, ns)) && BlockAccepted(c, Agreeable(), Blk(n, Hash(1), height, ns))
    ensures InputsDisjoint(Blk(n, Hash(1), height, ns).txs)
  {
    OnFirstProper(Entries(c.tree, Hash(1)), n, height, ns);
    OnFirstAssumed(c, n, height, ns);
    OnFirstNoStrays(c, Blk(n, Hash(1), height, ns));
    ProperIsAccepted(c, Blk(n, Hash(1), height, ns));
  }

  lemma OnFirstProper(es: seq<Entry>, n: byte, height: int, ns: seq<byte>)
    requires Knows(es, IdsOfOne(), CoinsOfOne()) && n != 0 && n != 1 && Relay(ns, FirstCoin(), 10.0) && Distinct(ns)
    ensures Proper(Agreeable(), es) && Proper(Agreeable(), es + Tag(Blk(n, Hash(1), height, ns)))
  {
    RelayWorks(IdsOfOne() + {RewardId(n)}, CoinsOfOne()[Outpoint(RewardId(n), 0) := 10.0], ns, FirstCoin(), 10.0);
    BlockIsProper(es, IdsOfOne(), CoinsOfOne(), n, Hash(1), height, ns);
  }

  lemma ProperIsAccepted(c: Chain, b: Block)
    requires c.Valid() && b.prev in c.tree.blocks && Proper(Agreeable(), Entries(c.tree, b.prev)) && TxAssumptions(c.tree, b)
    requires ProperBlock(c.tree, Agreeable(), b) && NoStrays(c, b)
    ensures BlockAccepted(c, Agreeable(), b) && InputsDisjoint(b.txs)
  {
    BlockAcceptedIff(c, Agreeable(), b);
  }

  lemma OnFirstAssumed(c: Chain, n: byte, height: int, ns: seq<byte>)
    requires AtOne(c) && n != 0 && Hash(n) !in c.tree.blocks
    ensures TxAssumptions(c.tree, Blk(n, Hash(1), height, ns)) && OneCoinbase(Blk(n, Hash(1), height, ns).txs)
  {
    BlkIsLegit(1, [], 0, []);
    BlkIsLegit(n, Hash(1), height, ns);
    assert AllLegit(c.tree);
    LegitTree(c.tree);
    LegitAssumptions(c.tree, Blk(n, Hash(1), height, ns));
  }

  lemma OnFirstNoStrays(c: Chain, b: Block)
    requires AtOne(c) && b.prev == Hash(1)
    ensures NoStrays(c, b)
  {
    MergeOnPath(c.tree, Hash(1), Hash(1));
    forall h {:trigger c.tree.blocks[h]} | h in c.tree.blocks ensures h in c.tree.Path(Hash(1)) {
      assert c.tree.Link(h) && c.tree.Path(Hash(1))[0] == Hash(1);
    }
    NoStraysIf(c, b);
  }

  // ----- Two transactions that name one output

  /** Block 7 spends the first coin twice. */
  function Twice(): Block {
    Blk(7, Hash(1), 1, [17, 19])
  }

  lemma OneMove(c: Chain, m: byte)
    requires AtOne(c) && (m == 17 || m == 19)
    ensures Accepts(c, Agreeable(), Ordinary(m), [Reward(7)], c.top)
  {
    OnlyFirst(c, Hash(7));
    OneMoveIn(c, m, [m]);
  }

  lemma OneMoveIn(c: Chain, m: byte, ns: seq<byte>)
    requires AtOne(c) && (m == 17 || m == 19) && Hash(7) !in c.tree.blocks && ns == [m]
    ensures Accepts(c, Agreeable(), Ordinary(m), [Reward(7)], c.top)
  {
    var b := Blk(7, Hash(1), 1, ns);
    assert ns[1..] == [];
    OnFirst(c, 7, 1, ns);
    AcceptedSecond(c, b);
    assert b.txs[..1] == [Reward(7)] && b.txs[1] == Ordinary(m);
  }

  lemma AcceptedSecond(c: Chain, b: Block)
    requires c.Valid() && b.prev in c.tree.blocks && BlockAccepted(c, Agreeable(), b) && |b.txs| > 1
    ensures Accepts(c, Agreeable(), b.txs[1], b.txs[..1], b.prev)
  {
    assert AcceptedAt(c, Agreeable(), b, 1);
  }

  lemma SecondMove(c: Chain)
    requires AtOne(c)
    ensures Accepts(c, Agreeable(), Ordinary(19), [Reward(7), Ordinary(17)], c.top)
  {
    OneMove(c, 19);
    SecondAfter(c, Ordinary(19), [Reward(7)], [Reward(7), Ordinary(17)]);
  }

  lemma SecondAfter(c: Chain, tx: Transaction, before: seq<Transaction>, more: seq<Transaction>)
    requires AtOne(c) && tx == Ordinary(19) && before == [Reward(7)] && more == [Reward(7), Ordinary(17)]
    requires Accepts(c, Agreeable(), tx, before, c.top)
    ensures Accepts(c, Agreeable(), tx, more, c.top)
  {
    SecondHeld(c, tx, more);
    FirstOfBoth(before, more, Reward(7), Ordinary(17));
    AcceptedAfter(c, Agreeable(), tx, before, more);
  }

  lemma FirstOfBoth(before: seq<Transaction>, more: seq<Transaction>, r: Transaction, tx: Transaction)
    requires before == [r] && more == [r, tx] && r.id != tx.id
    ensures forall u, v :: u in before && v in more && u.id == v.id ==> u == v
  {
  }

  lemma SecondHeld(c: Chain, tx: Transaction, more: seq<Transaction>)
    requires AtOne(c) && tx == Ordinary(19)
    ensures InputsHeld(c, tx, more)
  {
    assert HasId(Entries(c.tree, c.top), RewardId(1)) && tx.vin[0].txid == RewardId(1);
  }

  /** The block is accepted, with IDs that identify its transactions, and two of them name one output. */
  lemma TwiceAccepted(c: Chain)
    requires AtOne(c)
    ensures c.tree.Fits(Twice()) && TxAssumptions(c.tree, Twice()) && BlockAccepted(c, Agreeable(), Twice())
  {
    HashesApart();
    OnlyFirst(c, Hash(7));
    OnFirstAssumed(c, 7, 1, [17, 19]);
    TwiceTxs();
    OneMove(c, 17);
    SecondMove(c);
    TwiceAll(c);
  }

  lemma TwiceAll(c: Chain)
    requires c.Valid() && c.top == Hash(1)
    requires Accepts(c, Agreeable(), Ordinary(17), [Reward(7)], c.top)
    requires Accepts(c, Agreeable(), Ordinary(19), [Reward(7), Ordinary(17)], c.top)
    ensures AllAccepted(c, Agreeable(), Twice(), |Twice().txs|)
  {
    TwiceTxs();
    forall k {:trigger AcceptedAt(c, Agreeable(), Twice(), k)} | 0 <= k < |Twice().txs| ensures AcceptedAt(c, Agreeable(), Twice(), k) {
      assert k == 0 || k == 1 || k == 2;
    }
  }

  lemma TwiceShares()
    ensures SharesInput(Twice().txs[1], Twice().txs[2]) && !InputsDisjoint(Twice().txs)
  {
    TwiceTxs();
    assert Ref(Twice().txs[1].vin[0]) == Ref(Twice().txs[2].vin[0]);
  }

  lemma TwiceTxs()
    ensures Twice().txs == [Reward(7), Ordinary(17), Ordinary(19)]
    ensures Twice().txs[..1] == [Reward(7)] && Twice().txs[..2] == [Reward(7), Ordinary(17)]
  {
    var ns: seq<byte> := [17, 19];
    assert ns[0] == 17 && ns[1] == 19;
  }

  lemma TwiceIsImproper(c: Chain)
    requires AtOne(c)
    ensures Proper(Agreeable(), Entries(c.tree, Hash(1))) && !Proper(Agreeable(), Entries(c.tree, Hash(1)) + Tag(Twice()))
  {
    TwiceAccepted(c);
    TwiceShares();
    AcceptedProperIff(c, Agreeable(), Twice());
  }

  /** On the first block the node accepts a block that spends its coin twice, and the chain is not proper any more. */
  lemma DoubleSpendAccepted() returns (s: NodeState)
    ensures s == Genesis(First()) && NodeInv(Agreeable(), s) && s.chain.top == Twice().prev && s.chain.tree.Fits(Twice())
    ensures TxAssumptions(s.chain.tree, Twice()) && Admitted(Agreeable(), s.chain, Twice())
    ensures SharesInput(Twice().txs[1], Twice().txs[2]) && !InputsDisjoint(Twice().txs)
    ensures Proper(Agreeable(), Entries(s.chain.tree, s.chain.top)) && !Proper(Agreeable(), Entries(s.chain.tree, s.chain.top) + Tag(Twice()))
  {
    s := Genesis(First());
    Opening();
    OneIs();
    TwiceAccepted(One());
    TwiceShares();
    TwiceIsImproper(One());
  }

  // ----- A height that does not fit

  /** Block 8 claims the second level on top of the first block. */
  function TooHigh(): Block {
    Blk(8, Hash(1), 2, [17, 18])
  }

  lemma HighAccepted(c: Chain)
    requires AtOne(c)
    ensures TxAssumptions(c.tree, TooHigh()) && BlockAccepted(c, Agreeable(), TooHigh()) && InputsDisjoint(TooHigh().txs)
    ensures !c.HeightFits(TooHigh()) && c.AddStateOf(TooHigh()) == AddedToTop && TooHigh().hash !in c.tree.blocks
  {
    var ns: seq<byte> := [17, 18];
    HashesApart();
    OnlyFirst(c, Hash(8));
    HighRelays(ns);
    OnFirst(c, 8, 2, ns);
  }

  lemma HighRelays(ns: seq<byte>)
    requires ns == [17, 18]
    ensures Relay(ns, FirstCoin(), 10.0) && Distinct(ns)
  {
    assert ns[1..] == [18] && ns[1..][1..] == [];
    assert Ordinary(17) == Move(17, FirstCoin(), 10.0) && Ordinary(18) == Move(18, Outpoint(Id(17), 0), 10.0);
    assert Relay(ns[1..], Outpoint(Id(17), 0), 10.0);
  }

  /** The node accepts it and makes it the top, and the tree is not a tree of levels any more. */
  lemma WrongHeightAccepted() returns (s: NodeState)
    ensures s == Genesis(First()) && NodeInv(Agreeable(), s) && TooHigh().prev == s.chain.top
    ensures TxAssumptions(s.chain.tree, TooHigh()) && Admitted(Agreeable(), s.chain, TooHigh()) && InputsDisjoint(TooHigh().txs)
    ensures s.chain.AddStateOf(TooHigh()) == AddedToTop && !s.chain.HeightFits(TooHigh()) && !s.chain.Add(TooHigh()).Valid()
  {
    s := Genesis(First());
    Opening();
    OneIs();
    HighAccepted(One());
    AddValidIff(s.chain, TooHigh());
  }

  // ----- A block that comes too late

  lemma EntryBlock(t: Tree, tip: Bytes, id: Bytes)
    requires t.Valid() && tip in t.blocks && HasId(Entries(t, tip), id)
    ensures Resolve(t, id, tip).Some? && Resolve(t, id, tip).value.block in t.Path(tip)
  {
    EntrySource(t, tip, Resolve(t, id, tip).value);
  }

  /** Block 3 counts as lying under block 2 and spends what number 9 names. */
  lemma ThreeStops(c: Chain)
    requires Base(c) && c.top == Hash(2) && Stands(c, Three(), [Hash(3), Hash(1)])
    ensures !NoStrays(c, Four(9))
  {
    EntryBlock(c.tree, Hash(2), Id(2));
    var origin := Resolve(c.tree, Id(2), Hash(2)).value.block;
    assert c.Main()[0] == Hash(2);
    ThreeStrays(c, origin);
    LastOfFour();
    assert StrayInput(c, Four(9).txs[2].vin[0], Hash(2));
  }

  lemma LastOfFour()
    ensures |Four(9).txs| == 3 && Four(9).txs[2] == Ordinary(9) && !Ordinary(9).IsCoinbase()
    ensures |Ordinary(9).vin| == 1 && Ordinary(9).vin[0].txid == Id(2) && Ref(Ordinary(9).vin[0]) == Outpoint(Id(2), 1)
  {
    var ns: seq<byte> := [6, 9];
    assert ns[1] == 9 && Four(9).txs[2] == Numbered(ns)[1];
  }

  lemma FourIsProper(c: Chain)
    requires Base(c)
    ensures ProperBlock(c.tree, Agreeable(), Four(9)) && InputsDisjoint(Four(9).txs)
  {
    FourKnown(Entries(c.tree, Hash(2)), 9);
    BlkIsLegit(4, Hash(2), 2, [6, 9]);
    ProperIsSound(Agreeable(), Entries(c.tree, Hash(2)) + Tag(Four(9)));
    SoundIsDisjoint(Entries(c.tree, Hash(2)), Four(9));
  }

  lemma FourRefused(c: Chain)
    requires Base(c) && c.top == Hash(2) && Stands(c, Three(), [Hash(3), Hash(1)]) && TxAssumptions(c.tree, Four(9))
    ensures !BlockAccepted(c, Agreeable(), Four(9))
  {
    ThreeStops(c);
    FourIsProper(c);
    KnownIsProper(c, Hash(2), IdsOfTwo(), CoinsOfTwo());
    BlockAcceptedIff(c, Agreeable(), Four(9));
  }

  lemma KnownIsProper(c: Chain, h: Bytes, ids: set<Bytes>, coins: map<Outpoint, real>)
    requires KnownAt(c, h, ids, coins)
    ensures Proper(Agreeable(), Entries(c.tree, h))
  {
  }

  lemma FourAssumed(c: Chain)
    requires Base(c) && AllLegit(c.tree) && Hash(4) !in c.tree.blocks
    ensures TxAssumptions(c.tree, Four(9)) && c.Acceptable(Four(9))
  {
    LegitTree(c.tree);
    BlkIsLegit(4, Hash(2), 2, [6, 9]);
    LegitAssumptions(c.tree, Four(9));
  }

  /** Blocks 2 and 3 are stored, and block 4 is not. */
  ghost predicate ThreeIsIn(c: Chain) {
    Base(c) && c.top == Hash(2) && Stands(c, Three(), [Hash(3), Hash(1)]) && Hash(4) !in c.tree.blocks
  }

  /** So a node that holds block 3 refuses block 4, a proper block. */
  lemma FourStopped(c: Chain)
    requires ThreeIsIn(c) && AllLegit(c.tree)
    ensures c.Acceptable(Four(9)) && TxAssumptions(c.tree, Four(9)) && InputsDisjoint(Four(9).txs) && !BlockAccepted(c, Agreeable(), Four(9))
  {
    FourAssumed(c);
    FourIsProper(c);
    FourRefused(c);
  }

  lemma RunLate(ks: seq<Fork>, js: seq<Fork>, d: Chain) returns (s: NodeState)
    requires Played(ks, 9, d) && ThreeIsIn(d) && js == ks + [4]
    ensures Reaches(ForkBlocks(js, 9), s) && Hash(4) !in s.chain.tree.blocks
  {
    PlayedLegit(ks, 9, d);
    FourStopped(d);
    ForkIs(4, 9);
    s := RefusedRun(ks, js, 9, 4, d, Four(9));
  }

  lemma WithoutFour() returns (d: Chain)
    ensures Played([2, 3], 9, d) && ThreeIsIn(d)
  {
    Lists();
    d := BesideChain(9);
    NotStored(d, [2, 3], 9, 4);
  }

  /** Each of blocks 2, 3 and 4 is valid where it stands. */
  lemma AllThreeValid(c: Chain, ks: seq<Fork>)
    requires Base(c) && 5 !in ks && 6 !in ks
    ensures AllValid(Agreeable(), ForkBlocks(ks, 9), c.tree)
  {
    var bs := ForkBlocks(ks, 9);
    forall i {:trigger ValidThere(Agreeable(), bs[i], c.tree)} | 0 <= i < |bs| ensures ValidThere(Agreeable(), bs[i], c.tree) {
      assert ks[i] in ks;
      LowValid(c, ks[i]);
    }
  }

  lemma LowValid(c: Chain, k: Fork)
    requires Base(c) && k <= 4
    ensures ValidThere(Agreeable(), ForkBlock(k, 9), c.tree)
  {
    ForkIs(k, 9);
    if k == 4 {
      FourIsProper(c);
      ProperIsValid(c, Four(9));
    } else {
      LowerProper(c);
      ProperIsValid(c, Two());
      ProperIsValid(c, Three());
    }
  }

  lemma ProperIsValid(c: Chain, b: Block)
    requires c.Valid() && b.prev in c.tree.blocks && ProperBlock(c.tree, Agreeable(), b)
    ensures ValidThere(Agreeable(), b, c.tree)
  {
  }

  /** Block 4 before block 3. */
  lemma EarlyChain() returns (d: Chain)
    ensures Played([2, 4, 3], 9, d) && Base(d) && Hash(4) in d.tree.blocks
  {
    Lists();
    var c1 := PlayTwo(9);
    var c2 := PlayFour([2], [2, 4], 9, c1);
    assert c2.Main()[2] == Hash(1);
    d := PlayThree([2, 4], [2, 4, 3], 9, c2);
    StandsAfter(c2, Three(), Four(9), [Hash(4), Hash(2), Hash(1)]);
  }

  lemma LowerProper(c: Chain)
    requires Base(c)
    ensures ProperBlock(c.tree, Agreeable(), Two()) && ProperBlock(c.tree, Agreeable(), Three())
  {
    BlkIsLegit(2, Hash(1), 1, [2]);
    BlkIsLegit(3, Hash(1), 1, [2, 4]);
    TwoKnown(Entries(c.tree, Hash(1)));
    ThreeKnown(Entries(c.tree, Hash(1)));
  }

  /**
   Two nodes that are sent the same three valid blocks in two orders, parents first: one stores
   them all, and the other refuses block 4, for it holds block 3 by then, whose spend on another
   branch counts.
   */
  lemma OrderDecides() returns (early: NodeState, late: NodeState)
    ensures Reaches(ForkBlocks([2, 4, 3], 9), early) && Reaches(ForkBlocks([2, 3, 4], 9), late)
    ensures early.chain.Valid() && AllValid(Agreeable(), ForkBlocks([2, 3, 4], 9), early.chain.tree)
    ensures Hash(4) in early.chain.tree.blocks && Hash(4) !in late.chain.tree.blocks
  {
    Lists();
    var d := EarlyChain();
    early := RunEarly([2, 4, 3], [2, 3, 4], d);
    var c := WithoutFour();
    late := RunLate([2, 3], [2, 3, 4], c);
  }

  lemma RunEarly(ks: seq<Fork>, js: seq<Fork>, d: Chain) returns (s: NodeState)
    requires Played(ks, 9, d) && Base(d) && Hash(4) in d.tree.blocks && 5 !in js && 6 !in js
    ensures Reaches(ForkBlocks(ks, 9), s) && s.chain.Valid()
    ensures AllValid(Agreeable(), ForkBlocks(js, 9), s.chain.tree) && Hash(4) in s.chain.tree.blocks
  {
    AllThreeValid(d, js);
    s := Starts(ks, 9, d);
  }
}

/**
 Runs of a node on the forking blocks: blocks 1 and 2, block 3 beside 2 or not, block 4 on top,
 block 5 beside it, and block 6, which makes the branch of 5 the main one.
 */
module ForkRuns {
  import opened Structures
  import opened BlockTree
  import opened Blockchain
  import opened Ledger
  import opened TransactionIndex
  import opened Cancellation
  import opened Pool
  import opened Acceptance
  import opened Validity
  import opened Money
  import opened NodeRuns
  import opened Scenes
  import opened Forks
  import opened Agreement

  // ----- Chains

  /** The chain keeps its paths and entries, and the block is on top of the path of its parent. */
  lemma Grow(c: Chain, b: Block)
    requires c.Valid() && c.tree.Fits(b)
    ensures c.Add(b).Valid() && c.Add(b).tree == c.tree.Add(b)
    ensures forall h :: h in c.tree.blocks ==> c.Add(b).tree.Path(h) == c.tree.Path(h) && Entries(c.Add(b).tree, h) == Entries(c.tree, h)
    ensures c.Add(b).tree.Path(b.hash) == [b.hash] + c.tree.Path(b.prev)
    ensures Entries(c.Add(b).tree, b.hash) == Entries(c.tree, b.prev) + Tag(b)
  {
    AddValid(c.tree, b);
    forall h | h in c.tree.blocks ensures Entries(c.Add(b).tree, h) == Entries(c.tree, h) {
      EntriesAdded(c.tree, b, h);
    }
    EntriesAdded(c.tree, b, b.hash);
  }

  lemma MergeOnPath(t: Tree, h: Bytes, top: Bytes)
    requires t.Valid() && h in t.blocks && top in t.blocks && h in t.Path(top)
    ensures Merge(t, h, top) == 0 && MergeBlock(t, h, top) == h
  {
    assert t.Path(h)[0] == h;
  }

  // ----- What blocks spend

  ghost predicate SpendNothingAlike(a: Block, b: Block) {
    forall op {:trigger SpendsOutput(a.txs, op)} :: SpendsOutput(a.txs, op) ==> !SpendsOutput(b.txs, op)
  }

  /** No stray block matters when each stored block is on the path, above the main chain's part of it, or spends other outputs. */
  lemma NoStraysIf(c: Chain, b: Block)
    requires c.Valid() && b.prev in c.tree.blocks && MergeBlock(c.tree, b.prev, c.top) in c.tree.blocks
    requires forall h {:trigger c.tree.blocks[h]} :: h in c.tree.blocks ==>
               || h in c.tree.Path(b.prev)
               || c.tree.blocks[h].height > c.tree.blocks[MergeBlock(c.tree, b.prev, c.top)].height
               || SpendNothingAlike(c.tree.blocks[h], b)
    ensures NoStrays(c, b)
  {
    forall k, x | 0 <= k < |b.txs| && !b.txs[k].IsCoinbase() && 0 <= x < |b.txs[k].vin| ensures !StrayInput(c, b.txs[k].vin[x], b.prev) {
      var op := Ref(b.txs[k].vin[x]);
      assert b.txs[k].vin[x] in b.txs[k].vin && op in Spends(b.txs[k]) && b.txs[k] in b.txs;
      SpendIn(b.txs, b.txs[k], op);
    }
    forall k {:trigger b.txs[k]} | 0 <= k < |b.txs| && !b.txs[k].IsCoinbase() ensures NoStrayInputs(c, b.txs[k], b.prev) {
      assert forall x {:trigger b.txs[k].vin[x]} :: 0 <= x < |b.txs[k].vin| ==> !StrayInput(c, b.txs[k].vin[x], b.prev);
    }
  }

  lemma BlkSpends(n: byte, prev: Bytes, height: int, ns: seq<byte>, op: Outpoint)
    requires n != 0
    ensures SpendsOutput(Blk(n, prev, height, ns).txs, op) <==> NumberSpends(ns, op)
  {
    var txs := Blk(n, prev, height, ns).txs;
    if SpendsOutput(txs, op) {
      var k :| 0 <= k < |txs| && op in Spends(txs[k]);
      NumberedAt(n, ns, k);
      assert NumberSpendsAt(ns, k - 1, op);
    }
    if NumberSpends(ns, op) {
      var i :| 0 <= i < |ns| && NumberSpendsAt(ns, i, op);
      NumberedAt(n, ns, i + 1);
      assert op in Spends(txs[i + 1]);
    }
  }

  ghost predicate NumberSpends(ns: seq<byte>, op: Outpoint) {
    exists i {:trigger NumberSpendsAt(ns, i, op)} :: 0 <= i < |ns| && NumberSpendsAt(ns, i, op)
  }

  ghost predicate NumberSpendsAt(ns: seq<byte>, i: nat, op: Outpoint)
    requires i < |ns|
  {
    op in RefsIn(Ordinary(ns[i]).vin)
  }

  lemma NumberedAt(n: byte, ns: seq<byte>, k: nat)
    requires k <= |ns|
    ensures k == 0 ==> Spends(([Reward(n)] + Numbered(ns))[k]) == {}
    ensures k > 0 ==> Spends(([Reward(n)] + Numbered(ns))[k]) == RefsIn(Ordinary(ns[k - 1]).vin)
  {
    if k > 0 {
      SpendsAreRefs(Ordinary(ns[k - 1]));
    }
  }

  lemma BlkSpendsTwo(n: byte, prev: Bytes, height: int, a: byte, b: byte, op: Outpoint)
    requires n != 0
    ensures SpendsOutput(Blk(n, prev, height, [a, b]).txs, op) <==> op in RefsIn(Ordinary(a).vin) || op in RefsIn(Ordinary(b).vin)
  {
    var ns := [a, b];
    BlkSpends(n, prev, height, ns, op);
    assert NumberSpendsAt(ns, 0, op) <==> op in RefsIn(Ordinary(a).vin);
    assert NumberSpendsAt(ns, 1, op) <==> op in RefsIn(Ordinary(b).vin);
  }

  lemma ThreeSpends(op: Outpoint)
    ensures SpendsOutput(Three().txs, op) <==> op == FirstCoin() || op == Outpoint(Id(2), 1)
  {
    BlkSpendsTwo(3, Hash(1), 1, 2, 4, op);
    NamesOne(Ordinary(2), FirstCoin());
    MoveNames(4, Outpoint(Id(2), 1), 6.0);
  }

  lemma FourSpends(n: byte, op: Outpoint)
    requires n == 7 || n == 9
    ensures SpendsOutput(Four(n).txs, op) <==> op == Outpoint(Id(2), 0) || op == if n == 7 then Outpoint(Id(6), 0) else Outpoint(Id(2), 1)
  {
    BlkSpendsTwo(4, Hash(2), 2, 6, n, op);
    MoveNames(6, Outpoint(Id(2), 0), 4.0);
    if n == 7 {
      MoveNames(7, Outpoint(Id(6), 0), 4.0);
    } else {
      MoveNames(9, Outpoint(Id(2), 1), 6.0);
    }
  }

  lemma FiveSpends(op: Outpoint)
    ensures SpendsOutput(Five().txs, op) <==> op == Outpoint(Id(2), 0) || op == Outpoint(Id(10), 0)
  {
    BlkSpendsTwo(5, Hash(2), 2, 10, 11, op);
    MoveNames(10, Outpoint(Id(2), 0), 4.0);
    MoveNames(11, Outpoint(Id(10), 0), 4.0);
  }

  lemma SixSpends(op: Outpoint)
    ensures SpendsOutput(Six().txs, op) ==> op.txid == Id(11) || op.txid == Id(13) || op.txid == Id(14)
  {
    var ns: seq<byte> := [13, 14, 15];
    BlkSpends(6, Hash(5), 3, ns, op);
    MoveNames(13, Outpoint(Id(11), 0), 4.0);
    MoveNames(14, Outpoint(Id(13), 0), 4.0);
    MoveNames(15, Outpoint(Id(14), 0), 4.0);
  }

  /** What block 3 spends, neither block 4 with number 7, nor 5, nor 6 spends. */
  lemma ThreeAside()
    ensures SpendNothingAlike(Three(), Four(7)) && SpendNothingAlike(Three(), Five()) && SpendNothingAlike(Three(), Six())
  {
    forall op {:trigger SpendsOutput(Three().txs, op)} | SpendsOutput(Three().txs, op)
      ensures !SpendsOutput(Four(7).txs, op) && !SpendsOutput(Five().txs, op) && !SpendsOutput(Six().txs, op)
    {
      ThreeSpends(op);
      FourSpends(7, op);
      FiveSpends(op);
      SixSpends(op);
    }
  }

  // ----- What is stored

  lemma HashesApart()
    ensures Hash(1) != Hash(2) && Hash(1) != Hash(3) && Hash(1) != Hash(4) && Hash(1) != Hash(5) && Hash(1) != Hash(6)
    ensures Hash(2) != Hash(3) && Hash(2) != Hash(4) && Hash(2) != Hash(5) && Hash(2) != Hash(6)
    ensures Hash(3) != Hash(4) && Hash(3) != Hash(5) && Hash(3) != Hash(6)
    ensures Hash(4) != Hash(5) && Hash(4) != Hash(6) && Hash(5) != Hash(6)
  {
  }

  /** The block is stored with this path. */
  ghost predicate Stands(c: Chain, b: Block, path: seq<Bytes>) {
    c.Valid() && b.hash in c.tree.blocks && c.tree.blocks[b.hash] == b && c.tree.Path(b.hash) == path
  }

  /** It is known what the chain of the block holds. */
  ghost predicate KnownAt(c: Chain, h: Bytes, ids: set<Bytes>, coins: map<Outpoint, real>) {
    c.Valid() && h in c.tree.blocks && Knows(Entries(c.tree, h), ids, coins)
  }

  /** The blocks of the fork by number; n is the second transaction of block 4. */
  type Fork = k: byte | 2 <= k <= 6 witness 2

  function ForkBlock(k: Fork, n: byte): (b: Block)
    ensures b.hash == Hash(k)
  {
    if k == 2 then Two() else if k == 3 then Three() else if k == 4 then Four(n) else if k == 5 then Five() else Six()
  }

  function ForkBlocks(ks: seq<Fork>, n: byte): (bs: seq<Block>)
    ensures |bs| == |ks| && forall i :: 0 <= i < |ks| ==> bs[i] == ForkBlock(ks[i], n)
  {
    seq(|ks|, i requires 0 <= i < |ks| => ForkBlock(ks[i], n))
  }

  /** Every stored block is the first one or one of these. */
  ghost predicate OnlyOf(c: Chain, ks: seq<Fork>, n: byte) {
    forall h {:trigger OneOfAt(c, h, ks, n)} :: OneOfAt(c, h, ks, n)
  }

  ghost predicate OneOfAt(c: Chain, h: Bytes, ks: seq<Fork>, n: byte) {
    h in c.tree.blocks ==> OneOf(c.tree.blocks[h], ks, n)
  }

  ghost predicate OneOf(b: Block, ks: seq<Fork>, n: byte) {
    b == First() || exists k {:trigger ForkBlock(k, n)} :: k in ks && b == ForkBlock(k, n)
  }

  lemma StandsAfter(c: Chain, b: Block, a: Block, path: seq<Bytes>)
    requires Stands(c, a, path) && c.tree.Fits(b)
    ensures Stands(c.Add(b), a, path)
  {
    Grow(c, b);
  }

  lemma NewStands(c: Chain, b: Block, a: Block, path: seq<Bytes>)
    requires Stands(c, a, path) && c.tree.Fits(b) && b.prev == a.hash
    ensures Stands(c.Add(b), b, [b.hash] + path)
  {
    Grow(c, b);
  }

  lemma KnownAfter(c: Chain, b: Block, h: Bytes, ids: set<Bytes>, coins: map<Outpoint, real>)
    requires KnownAt(c, h, ids, coins) && c.tree.Fits(b)
    ensures KnownAt(c.Add(b), h, ids, coins)
  {
    Grow(c, b);
    SameKnows(Entries(c.tree, h), Entries(c.Add(b).tree, h), ids, coins);
  }

  lemma NewKnown(c: Chain, b: Block, ids: set<Bytes>, coins: map<Outpoint, real>)
    requires c.Valid() && c.tree.Fits(b) && Knows(Entries(c.tree, b.prev) + Tag(b), ids, coins)
    ensures KnownAt(c.Add(b), b.hash, ids, coins)
  {
    Grow(c, b);
    SameKnows(Entries(c.tree, b.prev) + Tag(b), Entries(c.Add(b).tree, b.hash), ids, coins);
  }

  lemma OnlyAfter(c: Chain, ks: seq<Fork>, n: byte, k: Fork)
    requires OnlyOf(c, ks, n) && c.top in c.tree.blocks
    ensures OnlyOf(c.Add(ForkBlock(k, n)), ks + [k], n)
  {
    var d := c.Add(ForkBlock(k, n));
    forall h {:trigger OneOfAt(d, h, ks + [k], n)} ensures OneOfAt(d, h, ks + [k], n) {
      assert OneOfAt(c, h, ks, n);
      if h in d.tree.blocks && h in c.tree.blocks && d.tree.blocks[h] == c.tree.blocks[h] {
        MoreToBeOf(c.tree.blocks[h], ks, n, k);
      }
    }
  }

  lemma MoreToBeOf(b: Block, ks: seq<Fork>, n: byte, k: Fork)
    requires OneOf(b, ks, n)
    ensures OneOf(b, ks + [k], n)
  {
  }

  lemma NotStored(c: Chain, ks: seq<Fork>, n: byte, k: Fork)
    requires c.Valid() && OnlyOf(c, ks, n) && k !in ks
    ensures Hash(k) !in c.tree.blocks
  {
    if Hash(k) in c.tree.blocks {
      assert c.tree.Link(Hash(k)) && OneOfAt(c, Hash(k), ks, n);
      OtherHash(c.tree.blocks[Hash(k)], ks, n, k);
    }
  }

  lemma OtherHash(b: Block, ks: seq<Fork>, n: byte, k: Fork)
    requires OneOf(b, ks, n) && k !in ks
    ensures b.hash != Hash(k)
  {
    forall m: Fork | m in ks ensures Hash(m) != Hash(k) {
      assert Hash(m)[0] == m && Hash(k)[0] == k;
    }
    assert First().hash == Hash(1) && Hash(1)[0] == 1 && Hash(k)[0] == k;
  }

  /** Whether each of the blocks is out of the way of b, a block on top of a stored one. */
  ghost predicate OutOfTheWay(c: Chain, a: Block, b: Block, base: int)
    requires c.Valid() && b.prev in c.tree.blocks
  {
    a.hash in c.tree.Path(b.prev) || a.height > base || SpendNothingAlike(a, b)
  }

  /** A numbered block is ready when it fits, its chain is proper, and all stored blocks are out of its way. */
  lemma BlkReady(c: Chain, m: byte, prev: Bytes, height: int, ns: seq<byte>, ks: seq<Fork>, n: byte, base: int)
    requires m != 0 && c.Valid() && OnlyOf(c, ks, n) && c.tree.Fits(Blk(m, prev, height, ns))
    requires CountAllowed(height, |ns|)
    requires Proper(Agreeable(), Entries(c.tree, prev) + Tag(Blk(m, prev, height, ns)))
    requires MergeBlock(c.tree, prev, c.top) in c.tree.blocks && c.tree.blocks[MergeBlock(c.tree, prev, c.top)].height == base
    requires OutOfTheWay(c, First(), Blk(m, prev, height, ns), base)
    requires forall k {:trigger ForkBlock(k, n)} :: k in ks ==> OutOfTheWay(c, ForkBlock(k, n), Blk(m, prev, height, ns), base)
    ensures Ready(c, Blk(m, prev, height, ns))
  {
    var b := Blk(m, prev, height, ns);
    BlkIsLegit(m, prev, height, ns);
    forall h {:trigger c.tree.blocks[h]} | h in c.tree.blocks
      ensures h in c.tree.Path(b.prev) || c.tree.blocks[h].height > base || SpendNothingAlike(c.tree.blocks[h], b)
    {
      assert OneOfAt(c, h, ks, n) && c.tree.Link(h);
      assert OutOfTheWay(c, c.tree.blocks[h], b, base);
    }
    NoStraysIf(c, b);
  }

  // ----- The forking blocks

  /** Blocks 1 and 2 stand, and what their chains hold is known. */
  ghost predicate Base(c: Chain) {
    && Stands(c, First(), [Hash(1)]) && Stands(c, Two(), [Hash(2), Hash(1)])
    && KnownAt(c, Hash(1), IdsOfOne(), CoinsOfOne()) && KnownAt(c, Hash(2), IdsOfTwo(), CoinsOfTwo())
  }

  lemma BaseAfter(c: Chain, b: Block)
    requires Base(c) && c.tree.Fits(b)
    ensures Base(c.Add(b))
  {
    StandsAfter(c, b, First(), [Hash(1)]);
    StandsAfter(c, b, Two(), [Hash(2), Hash(1)]);
    KnownAfter(c, b, Hash(1), IdsOfOne(), CoinsOfOne());
    KnownAfter(c, b, Hash(2), IdsOfTwo(), CoinsOfTwo());
  }

  function One(): Chain {
    Chain(Tree(map[Hash(1) := First()], Hash(1)), Hash(1))
  }

  /** Only the first block is stored. */
  ghost predicate AtOne(c: Chain) {
    && Stands(c, First(), [Hash(1)]) && KnownAt(c, Hash(1), IdsOfOne(), CoinsOfOne()) && c.top == Hash(1)
    && forall h {:trigger c.tree.blocks[h]} :: h in c.tree.blocks ==> c.tree.blocks[h] == First()
  }

  lemma OneStands(c: Chain)
    requires c == One() && c.Valid() && Knows(Entries(c.tree, Hash(1)), IdsOfOne(), CoinsOfOne())
    ensures AtOne(c)
  {
    assert c.tree.Link(Hash(1));
    assert c.tree.Path(Hash(1)) == [Hash(1)];
  }

  lemma OneIs()
    ensures AtOne(One())
  {
    Opening();
    OpeningKnows();
    KnowsAtStart(Genesis(First()).chain);
    OneStands(One());
  }

  lemma OnlyFirst(c: Chain, h: Bytes)
    requires AtOne(c) && h != Hash(1)
    ensures h !in c.tree.blocks
  {
    assert h in c.tree.blocks ==> c.tree.Link(h);
  }

  lemma KnowsAtStart(c: Chain)
    requires c == One() && c.Valid() && Knows(Entries(c.tree, Hash(1)), {RewardId(1)}, map[FirstCoin() := 10.0])
    ensures One().Valid() && Knows(Entries(One().tree, Hash(1)), IdsOfOne(), CoinsOfOne())
  {
    SameKnows(Entries(c.tree, Hash(1)), Entries(One().tree, Hash(1)), IdsOfOne(), CoinsOfOne());
  }

  lemma TwoReady(c: Chain)
    requires AtOne(c)
    ensures Ready(c, Two()) && c.AddStateOf(Two()) == AddedToTop
  {
    HashesApart();
    OnlyFirst(c, Hash(2));
    TwoKnown(Entries(c.tree, Hash(1)));
    MergeOnPath(c.tree, Hash(1), Hash(1));
    BlkReady(c, 2, Hash(1), 1, [2], [], 7, 0);
  }

  lemma TwoStands(c: Chain)
    requires AtOne(c) && c.tree.Fits(Two()) && c.AddStateOf(Two()) == AddedToTop
    ensures Base(c.Add(Two())) && c.Add(Two()).top == Hash(2)
  {
    TwoKnown(Entries(c.tree, Hash(1)));
    StandsAfter(c, Two(), First(), [Hash(1)]);
    NewStands(c, Two(), First(), [Hash(1)]);
    KnownAfter(c, Two(), Hash(1), IdsOfOne(), CoinsOfOne());
    NewKnown(c, Two(), IdsOfTwo(), CoinsOfTwo());
    assert [Hash(2)] + [Hash(1)] == [Hash(2), Hash(1)];
  }

  lemma ForkHigher(n: byte, k: Fork)
    ensures ForkBlock(k, n).height >= 1 && (k >= 4 ==> ForkBlock(k, n).height >= 2)
  {
  }

  /** A block on block 2 or above it need only keep away from what block 3 spends. */
  lemma ForkAside(c: Chain, n: byte, k: Fork, b: Block)
    requires c.Valid() && b.prev in c.tree.blocks && Hash(2) in c.tree.Path(b.prev) && (k == 3 ==> SpendNothingAlike(Three(), b))
    ensures OutOfTheWay(c, ForkBlock(k, n), b, 1)
  {
    ForkHigher(n, k);
  }

  /** Block 3 beside block 2. */
  lemma ThreeReady(c: Chain, ks: seq<Fork>, n: byte)
    requires Stands(c, First(), [Hash(1)]) && Stands(c, Two(), [Hash(2), Hash(1)])
    requires Proper(Agreeable(), Entries(c.tree, Hash(1)) + Tag(Three()))
    requires OnlyOf(c, ks, n) && Hash(3) !in c.tree.blocks && Hash(1) in c.Main()
    ensures Ready(c, Three())
  {
    HashesApart();
    MergeOnPath(c.tree, Hash(1), c.top);
    forall k {:trigger ForkBlock(k, n)} | k in ks ensures OutOfTheWay(c, ForkBlock(k, n), Three(), 0) {
      ForkHigher(n, k);
    }
    BlkReady(c, 3, Hash(1), 1, [2, 4], ks, n, 0);
  }

  /** Block 4 on block 2; with block 3 stored it must keep away from what that one spends. */
  lemma FourReady(c: Chain, ks: seq<Fork>, n: byte)
    requires Stands(c, First(), [Hash(1)]) && Stands(c, Two(), [Hash(2), Hash(1)])
    requires Proper(Agreeable(), Entries(c.tree, Hash(2)) + Tag(Four(n)))
    requires OnlyOf(c, ks, n) && Hash(4) !in c.tree.blocks && c.top == Hash(2) && (n == 7 || n == 8 || n == 9)
    requires 3 in ks ==> n == 7
    ensures Ready(c, Four(n)) && c.AddStateOf(Four(n)) == AddedToTop
  {
    HashesApart();
    assert c.tree.Path(Hash(2))[0] == Hash(2) && c.tree.Path(Hash(2))[1] == Hash(1);
    MergeOnPath(c.tree, Hash(2), Hash(2));
    ThreeAside();
    forall k {:trigger ForkBlock(k, n)} | k in ks ensures OutOfTheWay(c, ForkBlock(k, n), Four(n), 1) {
      ForkAside(c, n, k, Four(n));
    }
    BlkReady(c, 4, Hash(2), 2, [6, n], ks, n, 1);
  }

  /** Block 4 is the top. */
  ghost predicate AtFour(c: Chain, n: byte) {
    Base(c) && c.top == Hash(4) && Stands(c, Four(n), [Hash(4), Hash(2), Hash(1)])
  }

  lemma FourStands(c: Chain, n: byte)
    requires Base(c) && c.tree.Fits(Four(n)) && c.AddStateOf(Four(n)) == AddedToTop
    ensures AtFour(c.Add(Four(n)), n)
  {
    BaseAfter(c, Four(n));
    NewStands(c, Four(n), Two(), [Hash(2), Hash(1)]);
    assert [Hash(4)] + [Hash(2), Hash(1)] == [Hash(4), Hash(2), Hash(1)];
  }

  lemma FiveReady(c: Chain, ks: seq<Fork>, n: byte)
    requires Stands(c, First(), [Hash(1)]) && Stands(c, Two(), [Hash(2), Hash(1)])
    requires Stands(c, Four(n), [Hash(4), Hash(2), Hash(1)]) && c.top == Hash(4)
    requires Proper(Agreeable(), Entries(c.tree, Hash(2)) + Tag(Five()))
    requires OnlyOf(c, ks, n) && Hash(5) !in c.tree.blocks
    ensures Ready(c, Five()) && c.AddStateOf(Five()) == AddedToParallel
  {
    HashesApart();
    assert c.tree.Path(Hash(2))[0] == Hash(2) && c.tree.Path(Hash(2))[1] == Hash(1);
    assert c.Main()[1] == Hash(2);
    MergeOnPath(c.tree, Hash(2), Hash(4));
    ThreeAside();
    forall k {:trigger ForkBlock(k, n)} | k in ks ensures OutOfTheWay(c, ForkBlock(k, n), Five(), 1) {
      ForkAside(c, n, k, Five());
    }
    BlkReady(c, 5, Hash(2), 2, [10, 11], ks, n, 1);
  }

  /** Block 5 is stored beside it. */
  ghost predicate AtFive(c: Chain, n: byte) {
    && AtFour(c, n) && Stands(c, Five(), [Hash(5), Hash(2), Hash(1)])
    && KnownAt(c, Hash(5), IdsOfFive(), CoinsOfFive())
  }

  lemma FiveStands(c: Chain, n: byte)
    requires AtFour(c, n) && c.tree.Fits(Five()) && c.AddStateOf(Five()) == AddedToParallel
    ensures AtFive(c.Add(Five()), n)
  {
    BaseAfter(c, Five());
    StandsAfter(c, Five(), Four(n), [Hash(4), Hash(2), Hash(1)]);
    NewStands(c, Five(), Two(), [Hash(2), Hash(1)]);
    FiveKnown(Entries(c.tree, Hash(2)));
    NewKnown(c, Five(), IdsOfFive(), CoinsOfFive());
    assert [Hash(5)] + [Hash(2), Hash(1)] == [Hash(5), Hash(2), Hash(1)];
  }

  lemma MergeOfFive(c: Chain, n: byte)
    requires Stands(c, Four(n), [Hash(4), Hash(2), Hash(1)]) && Stands(c, Five(), [Hash(5), Hash(2), Hash(1)])
    ensures Merge(c.tree, Hash(5), Hash(4)) == 1 && MergeBlock(c.tree, Hash(5), Hash(4)) == Hash(2)
  {
    HashesApart();
    assert c.tree.Path(Hash(4))[1] == Hash(2);
    MergeSecond(c.tree, Hash(5), Hash(4), Hash(2));
  }

  lemma MergeSecond(t: Tree, h: Bytes, top: Bytes, base: Bytes)
    requires t.Valid() && h in t.blocks && top in t.blocks && h !in t.Path(top) && base in t.Path(top)
    requires |t.Path(h)| >= 2 && t.Path(h)[1] == base
    ensures Merge(t, h, top) == 1 && MergeBlock(t, h, top) == base
  {
    assert t.Path(h)[0] == h;
  }

  lemma SixReady(c: Chain, ks: seq<Fork>, n: byte)
    requires Stands(c, First(), [Hash(1)]) && Stands(c, Two(), [Hash(2), Hash(1)])
    requires Stands(c, Four(n), [Hash(4), Hash(2), Hash(1)]) && c.top == Hash(4) && Stands(c, Five(), [Hash(5), Hash(2), Hash(1)])
    requires Proper(Agreeable(), Entries(c.tree, Hash(5)) + Tag(Six()))
    requires OnlyOf(c, ks, n) && Hash(6) !in c.tree.blocks
    ensures Ready(c, Six()) && c.AddStateOf(Six()) == AddedToParallelTop
  {
    HashesApart();
    MergeOfFive(c, n);
    ThreeAside();
    assert c.tree.Path(Hash(5))[0] == Hash(5) && c.tree.Path(Hash(5))[1] == Hash(2) && c.tree.Path(Hash(5))[2] == Hash(1);
    forall k {:trigger ForkBlock(k, n)} | k in ks ensures OutOfTheWay(c, ForkBlock(k, n), Six(), 1) {
      ForkAside(c, n, k, Six());
    }
    BlkReady(c, 6, Hash(5), 3, [13, 14, 15], ks, n, 1);
  }

  // ----- Playing blocks

  /** Each of the blocks is ready when it comes, and none replaces the main branch. */
  ghost predicate AllReady(c: Chain, bs: seq<Block>)
    decreases |bs|
  {
    bs != [] ==>
      var before, b := AllAdded(c, bs[..|bs| - 1]), bs[|bs| - 1];
      && AllReady(c, bs[..|bs| - 1])
      && before.Valid() && Ready(before, b) && before.AddStateOf(b) != AddedToParallelTop
  }

  ghost function AllAdded(c: Chain, bs: seq<Block>): Chain
    decreases |bs|
  {
    if bs == [] then c
    else
      var before := AllAdded(c, bs[..|bs| - 1]);
      if before.top in before.tree.blocks then before.Add(bs[|bs| - 1]) else before
  }

  /** From the first block these blocks of the fork lead to the chain, one after the other. */
  ghost predicate Played(ks: seq<Fork>, n: byte, d: Chain) {
    Leads(ForkBlocks(ks, n), d) && OnlyOf(d, ks, n)
  }

  ghost predicate Leads(bs: seq<Block>, d: Chain) {
    AllReady(One(), bs) && AllAdded(One(), bs) == d
  }

  lemma PlayNothing(n: byte)
    ensures Played([], n, One())
  {
    OneIs();
  }

  lemma PlayNext(ks: seq<Fork>, js: seq<Fork>, n: byte, c: Chain, k: Fork, b: Block)
    requires Played(ks, n, c) && js == ks + [k] && b == ForkBlock(k, n)
    requires c.Valid() && Ready(c, b) && c.AddStateOf(b) != AddedToParallelTop
    ensures Played(js, n, c.Add(b))
  {
    OnlyAfter(c, ks, n, k);
    ForkSnoc(ks, n, k);
    LeadsOn(ForkBlocks(ks, n), c, b);
  }

  lemma ForkSnoc(ks: seq<Fork>, n: byte, k: Fork)
    ensures ForkBlocks(ks + [k], n) == ForkBlocks(ks, n) + [ForkBlock(k, n)]
  {
  }

  lemma LeadsOn(bs: seq<Block>, c: Chain, b: Block)
    requires Leads(bs, c) && c.Valid() && Ready(c, b) && c.AddStateOf(b) != AddedToParallelTop
    ensures Leads(bs + [b], c.Add(b))
  {
    assert (bs + [b])[..|bs|] == bs;
  }

  /** The node after the blocks. */
  lemma {:induction false} Plays(bs: seq<Block>) returns (r: NodeState)
    requires AllReady(One(), bs)
    ensures Scene(r, Arrivals(bs)) && r.chain == AllAdded(One(), bs)
    decreases |bs|
  {
    if bs == [] {
      r := PlaysNone(bs);
    } else {
      var s := Plays(bs[..|bs| - 1]);
      r := PlaysOn(s, bs, bs[..|bs| - 1], bs[|bs| - 1]);
    }
  }

  lemma PlaysNone(bs: seq<Block>) returns (r: NodeState)
    requires bs == []
    ensures Scene(r, Arrivals(bs)) && r.chain == One()
  {
    Opening();
    r := Genesis(First());
    assert Arrivals(bs) == [];
  }

  lemma PlaysOn(s: NodeState, bs: seq<Block>, init: seq<Block>, b: Block) returns (r: NodeState)
    requires bs != [] && init == bs[..|bs| - 1] && b == bs[|bs| - 1]
    requires Scene(s, Arrivals(init)) && Ready(s.chain, b) && s.chain.AddStateOf(b) != AddedToParallelTop
    ensures Scene(r, Arrivals(bs)) && r.chain == s.chain.Add(b)
  {
    Advance(s, Arrivals(init), b);
    r := Step(Agreeable(), s, b);
    EndArrives(bs, init, b);
  }

  /** A run of these blocks from the first one fits and ends in this state. */
  ghost predicate Reaches(bs: seq<Block>, s: NodeState) {
    && RunFit(Agreeable(), Genesis(First()), Arrivals(bs))
    && s == After(Agreeable(), Genesis(First()), Arrivals(bs)) && NodeInv(Agreeable(), s)
  }

  lemma Starts(ks: seq<Fork>, n: byte, d: Chain) returns (s: NodeState)
    requires Played(ks, n, d)
    ensures Scene(s, Arrivals(ForkBlocks(ks, n))) && s.chain == d && Reaches(ForkBlocks(ks, n), s)
  {
    s := Plays(ForkBlocks(ks, n));
  }

  lemma PlayedLegit(ks: seq<Fork>, n: byte, d: Chain)
    requires Played(ks, n, d)
    ensures AllLegit(d.tree)
  {
    var s := Starts(ks, n, d);
  }

  /** The run goes on with a block that is ready, whatever it does to the branches. */
  lemma GoesOn(s: NodeState, bs: seq<Block>, b: Block)
    requires Scene(s, Arrivals(bs)) && Ready(s.chain, b)
    ensures Incoming(s, b) && Admitted(Agreeable(), s.chain, b) && Reaches(bs + [b], Step(Agreeable(), s, b))
  {
    Arriving(s, Arrivals(bs), b);
    LastArrival(bs, b);
    StepKeepsInv(Agreeable(), s, b);
  }

  /** A block that is not accepted leaves the node as it was. */
  lemma GoesPast(s: NodeState, bs: seq<Block>, b: Block)
    requires Scene(s, Arrivals(bs)) && s.chain.Acceptable(b) && TxAssumptions(s.chain.tree, b) && InputsDisjoint(b.txs)
    requires b.prev in s.chain.tree.blocks && !BlockAccepted(s.chain, Agreeable(), b)
    ensures Reaches(bs + [b], s)
  {
    RunOn(s, Arrivals(bs), b);
    LastArrival(bs, b);
  }

  lemma ForkIs(k: Fork, n: byte)
    ensures k == 2 ==> ForkBlock(k, n) == Two()
    ensures k == 3 ==> ForkBlock(k, n) == Three()
    ensures k == 4 ==> ForkBlock(k, n) == Four(n)
    ensures k == 5 ==> ForkBlock(k, n) == Five()
    ensures k == 6 ==> ForkBlock(k, n) == Six()
  {
  }

  lemma ForkGoesOn(s: NodeState, ks: seq<Fork>, n: byte, k: Fork, b: Block)
    requires Scene(s, Arrivals(ForkBlocks(ks, n))) && b == ForkBlock(k, n) && Ready(s.chain, b)
    ensures Incoming(s, b) && Admitted(Agreeable(), s.chain, b) && Reaches(ForkBlocks(ks + [k], n), Step(Agreeable(), s, b))
  {
    GoesOn(s, ForkBlocks(ks, n), b);
    ForkSnoc(ks, n, k);
  }

  /** A block that is not accepted comes last. */
  lemma RefusedRun(ks: seq<Fork>, js: seq<Fork>, n: byte, k: Fork, d: Chain, b: Block) returns (s: NodeState)
    requires Played(ks, n, d) && js == ks + [k] && b == ForkBlock(k, n)
    requires d.Valid() && d.Acceptable(b) && TxAssumptions(d.tree, b) && InputsDisjoint(b.txs)
    requires b.prev in d.tree.blocks && !BlockAccepted(d, Agreeable(), b)
    ensures Reaches(ForkBlocks(js, n), s) && s.chain == d
  {
    s := Starts(ks, n, d);
    GoesPast(s, ForkBlocks(ks, n), b);
    ForkSnoc(ks, n, k);
  }

  lemma LastArrival(bs: seq<Block>, b: Block)
    ensures Arrivals(bs) + [BlockArrives(b)] == Arrivals(bs + [b])
  {
  }

  lemma EndArrives(bs: seq<Block>, init: seq<Block>, b: Block)
    requires bs != [] && init == bs[..|bs| - 1] && b == bs[|bs| - 1]
    ensures Arrivals(init) + [BlockArrives(b)] == Arrivals(bs)
  {
  }

  // ----- One block more

  lemma PlayTwo(n: byte) returns (d: Chain)
    ensures Played([2], n, d) && Base(d) && d.top == Hash(2)
  {
    TwoComes(One());
    PlayNothing(n);
    ForkIs(2, n);
    assert [] + [2] == [2];
    PlayNext([], [2], n, One(), 2, Two());
    d := One().Add(Two());
  }

  lemma TwoComes(c: Chain)
    requires c == One()
    ensures c.Valid() && Ready(c, Two()) && c.AddStateOf(Two()) == AddedToTop && Base(c.Add(Two())) && c.Add(Two()).top == Hash(2)
  {
    OneIs();
    TwoReady(c);
    TwoStands(c);
  }

  lemma PlayThree(ks: seq<Fork>, js: seq<Fork>, n: byte, c: Chain) returns (d: Chain)
    requires Played(ks, n, c) && js == ks + [3] && Base(c) && Hash(1) in c.Main() && c.tree.blocks[c.top].height >= 1
    requires 3 !in ks
    ensures c.tree.Fits(Three()) && d == c.Add(Three()) && Played(js, n, d)
    ensures Base(d) && d.top == c.top && Stands(d, Three(), [Hash(3), Hash(1)])
  {
    NotStored(c, ks, n, 3);
    ThreeKnown(Entries(c.tree, Hash(1)));
    ThreeReady(c, ks, n);
    GoesBeside(c, Three());
    ThreeStands(c);
    ForkIs(3, n);
    PlayNext(ks, js, n, c, 3, Three());
    d := c.Add(Three());
  }

  lemma GoesBeside(c: Chain, b: Block)
    requires c.Valid() && c.tree.Fits(b) && c.tree.blocks[c.top].height >= b.height
    ensures c.AddStateOf(b) == AddedToParallel
  {
  }

  lemma ThreeStands(c: Chain)
    requires Base(c) && c.tree.Fits(Three())
    ensures Base(c.Add(Three())) && Stands(c.Add(Three()), Three(), [Hash(3), Hash(1)])
  {
    BaseAfter(c, Three());
    NewStands(c, Three(), First(), [Hash(1)]);
    assert [Hash(3)] + [Hash(1)] == [Hash(3), Hash(1)];
  }

  lemma PlayFour(ks: seq<Fork>, js: seq<Fork>, n: byte, c: Chain) returns (d: Chain)
    requires Played(ks, n, c) && js == ks + [4] && Base(c) && c.top == Hash(2) && (n == 7 || n == 8 || n == 9)
    requires 4 !in ks && (3 in ks ==> n == 7)
    ensures c.tree.Fits(Four(n)) && d == c.Add(Four(n)) && Played(js, n, d) && AtFour(d, n)
  {
    FourComes(ks, n, c);
    FourStands(c, n);
    ForkIs(4, n);
    PlayNext(ks, js, n, c, 4, Four(n));
    d := c.Add(Four(n));
  }

  lemma FourComes(ks: seq<Fork>, n: byte, c: Chain)
    requires OnlyOf(c, ks, n) && Base(c) && c.top == Hash(2) && (n == 7 || n == 8 || n == 9) && 4 !in ks && (3 in ks ==> n == 7)
    ensures Ready(c, Four(n)) && c.AddStateOf(Four(n)) == AddedToTop
  {
    NotStored(c, ks, n, 4);
    FourKnown(Entries(c.tree, Hash(2)), n);
    FourReady(c, ks, n);
  }

  lemma PlayFive(ks: seq<Fork>, js: seq<Fork>, n: byte, c: Chain) returns (d: Chain)
    requires Played(ks, n, c) && js == ks + [5] && AtFour(c, n) && 5 !in ks
    ensures c.tree.Fits(Five()) && d == c.Add(Five()) && Played(js, n, d) && AtFive(d, n)
  {
    FiveComes(ks, n, c);
    FiveStands(c, n);
    ForkIs(5, n);
    PlayNext(ks, js, n, c, 5, Five());
    d := c.Add(Five());
  }

  lemma FiveComes(ks: seq<Fork>, n: byte, c: Chain)
    requires OnlyOf(c, ks, n) && AtFour(c, n) && 5 !in ks
    ensures Ready(c, Five()) && c.AddStateOf(Five()) == AddedToParallel
  {
    NotStored(c, ks, n, 5);
    FiveKnown(Entries(c.tree, Hash(2)));
    FiveReady(c, ks, n);
  }

  lemma SixComes(ks: seq<Fork>, n: byte, d: Chain)
    requires Played(ks, n, d) && AtFive(d, n) && 6 !in ks
    ensures Ready(d, Six()) && d.AddStateOf(Six()) == AddedToParallelTop
  {
    NotStored(d, ks, n, 6);
    SixKnown(Entries(d.tree, Hash(5)));
    SixReady(d, ks, n);
  }
}

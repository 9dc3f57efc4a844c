/**
 Whole runs of AddBlock: which block is the top, and when two nodes agree on it
 (node/blockchain/manager.go:119-155).
 */
module ForkChoice {
  import opened Structures
  import opened BlockTree
  import opened ChainDB
  import opened Blockchain

  /** The chain after storing the blocks of bs one after the other. */
  function Run(c: Chain, bs: seq<Block>): Chain
    requires c.top in c.tree.blocks
    ensures Run(c, bs).top in Run(c, bs).tree.blocks
    decreases |bs|
  {
    if bs == [] then c else Run(c, bs[..|bs| - 1]).Add(bs[|bs| - 1])
  }

  /** Every block of the run carries a proper header when it comes. */
  ghost predicate RunAcceptable(c: Chain, bs: seq<Block>)
    requires c.top in c.tree.blocks
  {
    forall k {:trigger bs[k]} :: 0 <= k < |bs| ==> Run(c, bs[..k]).Acceptable(bs[k])
  }

  /** No stored block is higher than the top. */
  ghost predicate TopIsHighest(c: Chain)
    requires c.Valid()
  {
    forall h :: h in c.tree.blocks ==> c.tree.blocks[h].height <= c.tree.blocks[c.top].height
  }

  /**
   What the answer for a block says: it is known, or without its parent, and then nothing changes;
   else it is stored beside the main chain, on top of it, or as the end of a branch that replaces it.
   */
  lemma AddStateMeans(c: Chain, b: Block)
    requires c.Valid()
    ensures c.AddStateOf(b) == NotAddedExists <==> b.hash in c.tree.blocks
    ensures c.AddStateOf(b) == NotAddedNoPrev <==> b.hash !in c.tree.blocks && b.prev !in c.tree.blocks
    ensures c.AddStateOf(b) == NotAddedExists || c.AddStateOf(b) == NotAddedNoPrev ==> c.Add(b) == c
    ensures c.tree.Fits(b) && TopIsHighest(c) ==>
              var d, st := c.Add(b), c.AddStateOf(b);
              && d.Valid() && d.tree.blocks == c.tree.blocks[b.hash := b]
              && (st == AddedToParallel <==> d.Main() == c.Main())
              && (st == AddedToTop <==> d.Main() == [b.hash] + c.Main())
              && (st == AddedToParallelTop <==> c.top !in d.Main())
  {
    if c.tree.Fits(b) && TopIsHighest(c) {
      StoredMeans(c, b);
    }
  }

  lemma StoredMeans(c: Chain, b: Block)
    requires c.Valid() && c.tree.Fits(b) && TopIsHighest(c)
    ensures var d, st := c.Add(b), c.AddStateOf(b);
            && d.Valid() && d.tree.blocks == c.tree.blocks[b.hash := b]
            && (st == AddedToParallel <==> d.Main() == c.Main())
            && (st == AddedToTop <==> d.Main() == [b.hash] + c.Main())
            && (st == AddedToParallelTop <==> c.top !in d.Main())
  {
    AddValid(c.tree, b);
    PathStored(c.tree, c.top);
    assert c.Main()[0] == c.top && c.tree.Path(b.prev)[0] == b.prev;
    if b.height > c.tree.blocks[c.top].height {
      TopUnder(c, b);
      OneMore(b.hash, c.tree.Path(b.prev), c.Main());
    } else {
      OneMore(b.hash, c.Main(), c.Main());
    }
  }

  /** The old top lies under a higher new block only as its parent. */
  lemma TopUnder(c: Chain, b: Block)
    requires c.Valid() && c.tree.Fits(b) && b.height > c.tree.blocks[c.top].height && TopIsHighest(c)
    ensures c.top in c.tree.Path(b.prev) <==> b.prev == c.top
  {
    assert c.tree.Path(b.prev)[0] == b.prev && c.tree.Path(c.top)[0] == c.top;
    if c.top in c.tree.Path(b.prev) {
      OnPath(c.tree, b.prev, c.top);
    }
  }

  lemma OneMore(h: Bytes, p: seq<Bytes>, q: seq<Bytes>)
    requires h !in q && q != []
    ensures [h] + p != q && q[0] in q && (q[0] in [h] + p <==> q[0] in p)
    ensures [h] + p == [h] + q <==> p == q
  {
    assert ([h] + p)[0] == h && ([h] + p)[1..] == p && ([h] + q)[1..] == q;
  }

  lemma RunPrefix(c: Chain, bs: seq<Block>)
    requires c.top in c.tree.blocks && bs != [] && RunAcceptable(c, bs)
    ensures RunAcceptable(c, bs[..|bs| - 1]) && Run(c, bs[..|bs| - 1]).Acceptable(bs[|bs| - 1])
    ensures Run(c, bs) == Run(c, bs[..|bs| - 1]).Add(bs[|bs| - 1])
  {
    var init := bs[..|bs| - 1];
    forall k {:trigger init[k]} | 0 <= k < |init| ensures Run(c, init[..k]).Acceptable(init[k]) {
      assert init[..k] == bs[..k] && init[k] == bs[k];
    }
    assert bs[|bs| - 1] == bs[|bs| - 1];
  }

  /** Along any run the tree stays a tree, the top stays a highest block and its height never falls. */
  lemma {:induction false} RunKeepsTopHighest(c: Chain, bs: seq<Block>)
    requires c.Valid() && RunAcceptable(c, bs)
    ensures Run(c, bs).Valid()
    ensures TopIsHighest(c) ==> TopIsHighest(Run(c, bs))
    ensures Run(c, bs).tree.genesis == c.tree.genesis
    ensures forall h :: h in c.tree.blocks ==> h in Run(c, bs).tree.blocks && Run(c, bs).tree.blocks[h] == c.tree.blocks[h]
    ensures Run(c, bs).tree.blocks[Run(c, bs).top].height >= c.tree.blocks[c.top].height
    decreases |bs|
  {
    if bs != [] {
      RunPrefix(c, bs);
      RunKeepsTopHighest(c, bs[..|bs| - 1]);
      AddKeepsValid(Run(c, bs[..|bs| - 1]), bs[|bs| - 1]);
    }
  }

  /** First seen wins: a new top was strictly higher than everything stored when it came, at step k. */
  lemma {:induction false} FirstSeenWins(c: Chain, bs: seq<Block>) returns (k: nat)
    requires c.Valid() && TopIsHighest(c) && RunAcceptable(c, bs) && Run(c, bs).top != c.top
    ensures k < |bs| && bs[k].hash == Run(c, bs).top && bs[k].hash !in Run(c, bs[..k]).tree.blocks
    ensures forall h :: h in Run(c, bs[..k]).tree.blocks ==> Run(c, bs[..k]).tree.blocks[h].height < bs[k].height
    decreases |bs|
  {
    RunPrefix(c, bs);
    var init := bs[..|bs| - 1];
    RunKeepsTopHighest(c, init);
    if Run(c, bs).top == Run(c, init).top {
      k := FirstSeenWins(c, init);
      assert init[..k] == bs[..k];
    } else {
      k := |bs| - 1;
    }
  }

  /** Every block of the run finds its hash unused and its parent stored. */
  ghost predicate AllStored(c: Chain, bs: seq<Block>)
    requires c.top in c.tree.blocks
  {
    forall k {:trigger bs[k]} :: 0 <= k < |bs| ==>
      bs[k].hash !in Run(c, bs[..k]).tree.blocks && bs[k].prev in Run(c, bs[..k]).tree.blocks
  }

  lemma AllStoredPrefix(c: Chain, bs: seq<Block>)
    requires c.top in c.tree.blocks && bs != [] && AllStored(c, bs)
    ensures AllStored(c, bs[..|bs| - 1])
    ensures Run(c, bs).tree == Run(c, bs[..|bs| - 1]).tree.Add(bs[|bs| - 1])
    ensures bs[|bs| - 1].hash !in Run(c, bs[..|bs| - 1]).tree.blocks
  {
    var init := bs[..|bs| - 1];
    forall k {:trigger init[k]} | 0 <= k < |init|
      ensures init[k].hash !in Run(c, init[..k]).tree.blocks && init[k].prev in Run(c, init[..k]).tree.blocks
    {
      assert init[..k] == bs[..k] && init[k] == bs[k];
    }
    assert bs[|bs| - 1] in bs;
  }

  /** The run holds h exactly when the start did or a block of the run is named so, and it holds that block. */
  lemma {:induction false} StoredBlocks(c: Chain, bs: seq<Block>, h: Bytes)
    requires c.top in c.tree.blocks && AllStored(c, bs)
    ensures h in Run(c, bs).tree.blocks ==>
              if h in c.tree.blocks then Run(c, bs).tree.blocks[h] == c.tree.blocks[h]
              else Run(c, bs).tree.blocks[h] in bs && Run(c, bs).tree.blocks[h].hash == h
    ensures h in c.tree.blocks ==> h in Run(c, bs).tree.blocks
    decreases |bs|
  {
    if bs != [] {
      AllStoredPrefix(c, bs);
      StoredBlocks(c, bs[..|bs| - 1], h);
    }
  }

  /** Every block of the run is held under its hash. */
  lemma {:induction false} BlocksHeld(c: Chain, bs: seq<Block>, b: Block)
    requires c.top in c.tree.blocks && AllStored(c, bs) && b in bs
    ensures b.hash in Run(c, bs).tree.blocks && Run(c, bs).tree.blocks[b.hash] == b
    decreases |bs|
  {
    var init, last := bs[..|bs| - 1], bs[|bs| - 1];
    AllStoredPrefix(c, bs);
    InitLast(bs);
    if b != last {
      BlocksHeld(c, init, b);
    }
  }

  ghost predicate UniqueHighest(t: Tree, h: Bytes) {
    && h in t.blocks
    && forall k :: k in t.blocks && k != h ==> t.blocks[k].height < t.blocks[h].height
  }

  /**
   Two nodes that start from one chain and store the same blocks, each in its own order, hold
   the same tree; with one highest block they have the same top, main chain and chain bucket.
   */
  lemma Convergence(c: Chain, bs: seq<Block>, cs: seq<Block>, highest: Bytes, x: map<Bytes, Bytes>, y: map<Bytes, Bytes>)
    requires c.Valid() && TopIsHighest(c)
    requires RunAcceptable(c, bs) && RunAcceptable(c, cs) && AllStored(c, bs) && AllStored(c, cs)
    requires forall b :: b in bs <==> b in cs
    requires UniqueHighest(Run(c, bs).tree, highest)
    requires Run(c, bs).Valid() ==> IsIndex(x, Run(c, bs).Main())
    requires Run(c, cs).Valid() ==> IsIndex(y, Run(c, cs).Main())
    ensures Run(c, bs) == Run(c, cs) && Run(c, bs).top == highest && x == y
  {
    RunKeepsTopHighest(c, bs);
    RunKeepsTopHighest(c, cs);
    var t, u := Run(c, bs).tree, Run(c, cs).tree;
    forall h ensures h in t.blocks <==> h in u.blocks
             ensures h in t.blocks ==> t.blocks[h] == u.blocks[h]
    {
      StoredBlocks(c, bs, h);
      StoredBlocks(c, cs, h);
      if h in t.blocks && h !in c.tree.blocks {
        BlocksHeld(c, cs, t.blocks[h]);
      }
      if h in u.blocks && h !in c.tree.blocks {
        BlocksHeld(c, bs, u.blocks[h]);
      }
    }
    assert t.blocks == u.blocks;
    IndexUnique(x, y, Run(c, bs).Main());
  }

  /** Without a unique highest block the order decides: of two children of the top the first one wins. */
  lemma TiesDependOnOrder(c: Chain, a: Block, b: Block)
    requires c.Valid() && a.hash != b.hash && a.prev == c.top && b.prev == c.top
    requires c.tree.Fits(a) && c.tree.Fits(b)
    ensures Run(c, [a, b]).tree == Run(c, [b, a]).tree
    ensures Run(c, [a, b]).top == a.hash && Run(c, [b, a]).top == b.hash
  {
    assert [a, b][..1] == [a] && [b, a][..1] == [b] && [a][..0] == [] && [b][..0] == [];
    assert Run(c, [a]) == c.Add(a) && Run(c, [b]) == c.Add(b);
    assert c.tree.blocks[a.hash := a][b.hash := b] == c.tree.blocks[b.hash := b][a.hash := a];
  }

  /** Nothing is built on a highest block. */
  lemma TopHasNoChild(c: Chain)
    requires c.Valid() && TopIsHighest(c)
    ensures !HasChild(c.tree, c.top)
  {
    assert c.tree.Link(c.top);
    forall b | b in c.tree.blocks ensures c.tree.blocks[b].prev != c.top {
      assert c.tree.Link(b);
    }
  }

  /**
   Deleting a highest top above genesis leaves a valid chain; its new top is a highest block
   exactly when no other block was as high as the deleted one.
   */
  lemma DeletedTop(c: Chain)
    requires c.Valid() && TopIsHighest(c) && c.top != c.tree.genesis
    ensures var d := Chain(c.tree.Remove(c.top), c.tree.blocks[c.top].prev);
            && d.Valid() && d.Main() == c.Main()[1..]
            && (TopIsHighest(d) <==> UniqueHighest(c.tree, c.top))
  {
    TopHasNoChild(c);
    TopRemoved(c);
    assert c.tree.Link(c.top);
    var d := Chain(c.tree.Remove(c.top), c.tree.blocks[c.top].prev);
    if !UniqueHighest(c.tree, c.top) {
      var k :| k in c.tree.blocks && k != c.top && c.tree.blocks[k].height >= c.tree.blocks[c.top].height;
      assert k in d.tree.blocks;
    }
  }
}

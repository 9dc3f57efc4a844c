/**
 The block chain manager and its backward iterator (node/blockchain/manager.go,
 node/blockchain/iterator.go).
 */
module Blockchain {
  import opened Structures
  import opened BlockTree
  import opened ChainDB

  datatype AddState = AddedToTop | AddedToParallelTop | AddedToParallel | NotAddedNoPrev | NotAddedExists

  datatype BlockShort = BlockShort(prev: Bytes, hash: Bytes, height: int)

  function ShortCopy(b: Block): BlockShort {
    BlockShort(b.prev, b.hash, b.height)
  }

  const MAX_NEXT_BLOCKS: nat := 1000

  /** The tree of stored blocks with the top of its main chain. */
  datatype Chain = Chain(tree: Tree, top: Bytes) {

    ghost predicate Valid() {
      tree.Valid() && top in tree.blocks
    }

    ghost function Main(): seq<Bytes>
      requires Valid()
    {
      tree.Path(top)
    }

    /** What storing b makes of the chain: first seen wins among blocks of one height. */
    function Add(b: Block): Chain
      requires top in tree.blocks
    {
      if b.hash in tree.blocks || b.prev !in tree.blocks then this
      else Chain(tree.Add(b), if b.height > tree.blocks[top].height then b.hash else top)
    }

    function AddStateOf(b: Block): AddState
      requires top in tree.blocks
    {
      if b.hash in tree.blocks then NotAddedExists
      else if b.prev !in tree.blocks then NotAddedNoPrev
      else if b.height <= tree.blocks[top].height then AddedToParallel
      else if b.prev == top then AddedToTop
      else AddedToParallelTop
    }

    /** A block that is going to be stored sits one above its parent. */
    ghost predicate HeightFits(b: Block) {
      b.hash !in tree.blocks && b.prev in tree.blocks ==> b.height == tree.blocks[b.prev].height + 1
    }

    /** The header assumptions on an incoming block: a real hash, and a height one above its parent. */
    ghost predicate Acceptable(b: Block) {
      IsHash(b.hash) && HeightFits(b)
    }

    /** The walk back from the top once b is stored, whatever height b claims. */
    ghost function MainAfter(b: Block): seq<Bytes>
      requires Valid()
    {
      if b.hash in tree.blocks || b.prev !in tree.blocks || b.height <= tree.blocks[top].height then Main()
      else [b.hash] + tree.Path(b.prev)
    }
  }

  lemma AddKeepsValid(c: Chain, b: Block)
    requires c.Valid() && c.Acceptable(b)
    ensures c.Add(b).Valid()
  {
    if b.hash !in c.tree.blocks && b.prev in c.tree.blocks {
      AddValid(c.tree, b);
    }
  }

  /** The stored tree stays valid if and only if the block claims the height above its parent. */
  lemma AddValidIff(c: Chain, b: Block)
    requires c.Valid() && IsHash(b.hash)
    ensures c.Add(b).Valid() <==> c.HeightFits(b)
    ensures c.HeightFits(b) ==> c.Add(b).Main() == c.MainAfter(b)
  {
    if c.HeightFits(b) {
      if b.hash !in c.tree.blocks && b.prev in c.tree.blocks {
        AddValid(c.tree, b);
      }
    } else {
      assert !c.Add(b).tree.Link(b.hash);
    }
  }

  /** A walk back along stored blocks, written out: each block is under its hash and names the next as its parent. */
  ghost predicate Linked(blocks: map<Bytes, Block>, p: seq<Bytes>) {
    p != [] && HashPath(p) && forall i {:trigger LinkedAt(blocks, p, i)} :: 0 <= i < |p| ==> LinkedAt(blocks, p, i)
  }

  ghost predicate LinkedAt(blocks: map<Bytes, Block>, p: seq<Bytes>, i: int)
    requires 0 <= i < |p|
  {
    && p[i] in blocks && blocks[p[i]].hash == p[i] && |p[i]| == HASH_SIZE
    && blocks[p[i]].prev == if i + 1 < |p| then p[i + 1] else []
  }

  lemma PathIsLinked(t: Tree, h: Bytes)
    requires t.Valid() && h in t.blocks
    ensures Linked(t.blocks, t.Path(h))
  {
    PathDistinct(t, h);
    PathStored(t, h);
    forall i {:trigger LinkedAt(t.blocks, t.Path(h), i)} | 0 <= i < |t.Path(h)| ensures LinkedAt(t.blocks, t.Path(h), i) {
      PathStep(t, h, i);
    }
  }

  /** A new block on top of a stored path is a walk too, whatever its height. */
  lemma NewBlockLinked(t: Tree, b: Block)
    requires t.Valid() && b.prev in t.blocks && b.hash !in t.blocks && IsHash(b.hash)
    ensures Linked(t.blocks[b.hash := b], [b.hash] + t.Path(b.prev))
  {
    var blocks, q := t.blocks[b.hash := b], t.Path(b.prev);
    var p := [b.hash] + q;
    PathIsLinked(t, b.prev);
    forall i {:trigger LinkedAt(blocks, p, i)} | 0 <= i < |p| ensures LinkedAt(blocks, p, i) {
      assert i > 0 ==> LinkedAt(t.blocks, q, i - 1);
    }
  }

  /** The first m hashes of a walk are off the indexed one, and from place m on they are its rest from place n on. */
  ghost predicate Meets(p: seq<Bytes>, q: seq<Bytes>, m: nat, n: nat) {
    && m < |p| && n < |q| && p[m..] == q[n..]
    && forall i :: 0 <= i < m ==> p[i] !in q
  }

  lemma NewBlockMeets(t: Tree, b: Block, top: Bytes) returns (m: nat, n: nat)
    requires t.Valid() && b.prev in t.blocks && b.hash !in t.blocks && top in t.blocks
    ensures Meets([b.hash] + t.Path(b.prev), t.Path(top), m, n)
  {
    m, n := Merge(t, b.prev, top) + 1, Merge(t, top, b.prev);
    MergeHighest(t, b.prev, top);
    PathAt(t, b.prev, m - 1);
    PathAt(t, top, n);
    var p := [b.hash] + t.Path(b.prev);
    forall i | 0 <= i < m ensures p[i] !in t.Path(top) {
      assert i > 0 ==> p[i] == t.Path(b.prev)[i - 1];
    }
  }

  ghost function BlocksOf(t: Tree, hs: seq<Bytes>): (bs: seq<Block>)
    requires forall h :: h in hs ==> h in t.blocks
    ensures |bs| == |hs| && forall i :: 0 <= i < |hs| ==> bs[i] == t.blocks[hs[i]]
  {
    seq(|hs|, i requires 0 <= i < |hs| => t.blocks[hs[i]])
  }

  lemma BlocksOfNext(t: Tree, p: seq<Bytes>, k: nat)
    requires k < |p| && forall h :: h in p ==> h in t.blocks
    ensures p[k] in t.blocks
    ensures BlocksOf(t, p[..k + 1]) == BlocksOf(t, p[..k]) + [t.blocks[p[k]]]
  {
    assert p[..k + 1] == p[..k] + [p[k]];
  }

  ghost function ShortsOf(t: Tree, hs: seq<Bytes>): (bs: seq<BlockShort>)
    requires forall h :: h in hs ==> h in t.blocks
    ensures |bs| == |hs| && forall i :: 0 <= i < |hs| ==> bs[i] == ShortCopy(t.blocks[hs[i]])
  {
    seq(|hs|, i requires 0 <= i < |hs| => ShortCopy(t.blocks[hs[i]]))
  }

  lemma SuffixStep<T>(p: seq<T>, k: nat)
    requires k < |p| && Distinct(p)
    ensures [p[k]] + p[k + 1..] == p[k..] && p[k] !in p[k + 1..] && p[k] in p
  {
  }

  /** Taking off the end of an indexed path leaves the index of the rest. */
  lemma EndRemoved(chain: map<Bytes, Bytes>, path: seq<Bytes>, j: nat)
    requires j + 1 < |path| && IsIndex(chain, path[j..]) && HashPath(path[j..])
    ensures |path[j]| == HASH_SIZE && path[j] in chain && |chain[path[j]]| == HASH_SIZE * 2
    ensures chain[path[j]][..HASH_SIZE] == path[j + 1] != Zeros(HASH_SIZE)
    ensures chain[path[j]][HASH_SIZE..HASH_SIZE * 2] == Zeros(HASH_SIZE)
    ensures path[j + 1] in chain && |chain[path[j + 1]]| == HASH_SIZE * 2
    ensures IsIndex(Truncated(chain, path[j]), path[j + 1..]) && HashPath(path[j + 1..])
  {
    var p := path[j..];
    assert p[0] == path[j] && p[1] == path[j + 1] && p[1..] == path[j + 1..];
    EndRecord(chain, p);
    PlaceReads(chain, p, 0);
    SecondRecord(chain, p);
    TruncatedIndex(chain, p);
  }

  /** The forward walk: from place i of a path up to its top, at most max blocks but never none. */
  ghost function Forward(p: seq<Bytes>, i: nat, max: int): (f: seq<Bytes>)
    requires i < |p|
  {
    var n := if max < 1 then 1 else if max < i + 1 then max else i + 1;
    Reversed(p[..i + 1])[..n]
  }

  /** A path of stored blocks under their hashes. */
  ghost predicate StoredPath(t: Tree, p: seq<Bytes>) {
    Distinct(p) && forall i {:trigger p[i]} :: 0 <= i < |p| ==> p[i] in t.blocks && |p[i]| == HASH_SIZE
  }

  lemma PathIsStored(t: Tree, top: Bytes)
    requires t.Valid() && top in t.blocks
    ensures StoredPath(t, t.Path(top))
  {
    PathDistinct(t, top);
    forall i {:trigger t.Path(top)[i]} | 0 <= i < |t.Path(top)| ensures t.Path(top)[i] in t.blocks && |t.Path(top)[i]| == HASH_SIZE {
      PathStep(t, top, i);
    }
  }

  /** The walk up from place first of the path: the blocks gone through, and the one it is at. */
  ghost predicate GoneUp(t: Tree, p: seq<Bytes>, first: nat, hash: Bytes, blocks: seq<Block>)
    requires first < |p| && StoredPath(t, p)
  {
    && |blocks| <= first && hash == p[first - |blocks|]
    && forall i :: 0 <= i < |blocks| ==> blocks[i] == t.blocks[p[first - i]]
  }

  /** What the forward walk sees: the block it is at and its place. */
  lemma UpHere(t: Tree, p: seq<Bytes>, first: nat, hash: Bytes, blocks: seq<Block>)
    requires first < |p| && StoredPath(t, p) && GoneUp(t, p, first, hash, blocks)
    ensures hash in p && hash in t.blocks && |hash| > 0
    ensures Place(p, hash) == first - |blocks|
    ensures |blocks| < first ==> |p[first - |blocks| - 1]| > 0
                                 && GoneUp(t, p, first, p[first - |blocks| - 1], blocks + [t.blocks[hash]])
  {
    assert p[Place(p, hash)] == p[first - |blocks|];
  }

  /** Where the walk ends, it has gone through the blocks it should. */
  lemma UpDone(t: Tree, p: seq<Bytes>, first: nat, hash: Bytes, blocks: seq<Block>, max: int)
    requires first < |p| && StoredPath(t, p) && GoneUp(t, p, first, hash, blocks)
    requires (|blocks| == 0 || |blocks| < max) && (|blocks| == first || |blocks| + 1 >= max)
    ensures hash in t.blocks
    ensures |Forward(p, first, max)| == |blocks| + 1
    ensures forall i :: 0 <= i <= |blocks| ==>
              Forward(p, first, max)[i] in t.blocks && (blocks + [t.blocks[hash]])[i] == t.blocks[Forward(p, first, max)[i]]
  {
    ForwardAt(p, first, max, |blocks| + 1);
  }

  lemma BlocksAre(t: Tree, hs: seq<Bytes>, bs: seq<Block>)
    requires |bs| == |hs| && forall i :: 0 <= i < |bs| ==> hs[i] in t.blocks && bs[i] == t.blocks[hs[i]]
    ensures forall h :: h in hs ==> h in t.blocks
    ensures bs == BlocksOf(t, hs)
  {
  }

  /** The forward walk goes down the places of the path. */
  lemma ForwardAt(p: seq<Bytes>, i: nat, max: int, n: nat)
    requires i < |p| && 0 < n <= i + 1 && (n == 1 || n - 1 < max) && (n >= max || n == i + 1)
    ensures |Forward(p, i, max)| == n && forall j :: 0 <= j < n ==> Forward(p, i, max)[j] == p[i - j]
  {
    assert Forward(p, i, max) == Reversed(p[..i + 1])[..n];
  }

  /** The number of blocks from one up to the top, cut at a maximum of at least one. */
  function WalkLength(up: int, max: int): int {
    if max < 1 then 1 else if max < up + 1 then max else up + 1
  }

  /** One step of a walk up the path of top: each block lies on the one before and is one higher. */
  ghost predicate StepsUp(t: Tree, top: Bytes, start: Bytes, hs: seq<Bytes>, k: nat)
    requires t.Valid() && top in t.blocks && start in t.blocks && k < |hs|
  {
    && hs[k] in t.Path(top) && hs[k] in t.blocks && t.blocks[hs[k]].hash == hs[k]
    && t.blocks[hs[k]].height == t.blocks[start].height + k
    && if k == 0 then hs[0] == start else t.blocks[hs[k]].prev == hs[k - 1]
  }

  /** The hashes of a walk from start up the path of top, at most max of them. */
  ghost predicate WalksUp(t: Tree, top: Bytes, start: Bytes, max: int, hs: seq<Bytes>)
    requires t.Valid() && top in t.blocks && start in t.blocks
  {
    && |hs| == WalkLength(t.blocks[top].height - t.blocks[start].height, max)
    && forall k {:trigger hs[k]} {:trigger StepsUp(t, top, start, hs, k)} :: 0 <= k < |hs| ==> StepsUp(t, top, start, hs, k)
  }

  /** What a forward walk goes through, said of the stored blocks alone. */
  lemma ForwardWalks(c: Chain, start: Bytes, max: int)
    requires c.Valid() && start in c.Main()
    ensures start in c.tree.blocks && WalksUp(c.tree, c.top, start, max, Forward(c.Main(), Place(c.Main(), start), max))
  {
    var p, i := c.Main(), Place(c.Main(), start);
    OnPath(c.tree, c.top, start);
    PathAt(c.tree, c.top, i);
    var n := WalkLength(c.tree.blocks[c.top].height - c.tree.blocks[start].height, max);
    ForwardAt(p, i, max, n);
    forall k: nat | k < n ensures StepsUp(c.tree, c.top, start, Forward(p, i, max), k) {
      PathStep(c.tree, c.top, i - k);
      PathAt(c.tree, c.top, i - k);
    }
  }

  /** The short blocks of a walk up: hash, parent and height of each stored block. */
  ghost predicate ShortsUp(t: Tree, top: Bytes, start: Bytes, max: int, shorts: seq<BlockShort>)
    requires t.Valid() && top in t.blocks && start in t.blocks
  {
    && |shorts| == WalkLength(t.blocks[top].height - t.blocks[start].height, max)
    && shorts != [] && shorts[0] == BlockShort(t.blocks[start].prev, start, t.blocks[start].height)
    && forall k {:trigger shorts[k]} :: 0 < k < |shorts| ==>
         && shorts[k].hash in t.Path(top)
         && shorts[k].prev == shorts[k - 1].hash
         && shorts[k].height == shorts[k - 1].height + 1
  }

  lemma ShortsGoUp(c: Chain, start: Bytes, max: int)
    requires c.Valid() && start in c.Main()
    ensures start in c.tree.blocks && forall h :: h in Forward(c.Main(), Place(c.Main(), start), max) ==> h in c.tree.blocks
    ensures ShortsUp(c.tree, c.top, start, max, ShortsOf(c.tree, Forward(c.Main(), Place(c.Main(), start), max)))
  {
    ForwardWalks(c, start, max);
    var hs := Forward(c.Main(), Place(c.Main(), start), max);
    forall k: nat | k < |hs| ensures hs[k] in c.tree.blocks {
      assert StepsUp(c.tree, c.top, start, hs, k);
    }
    forall k {:trigger ShortsOf(c.tree, hs)[k]} | 0 < k < |hs|
      ensures var shorts := ShortsOf(c.tree, hs);
              shorts[k].hash in c.Main() && shorts[k].prev == shorts[k - 1].hash && shorts[k].height == shorts[k - 1].height + 1
    {
      assert StepsUp(c.tree, c.top, start, hs, k) && StepsUp(c.tree, c.top, start, hs, k - 1);
    }
    assert StepsUp(c.tree, c.top, start, hs, 0);
  }

  /** The blocks of a walk up. */
  ghost predicate BlocksUp(t: Tree, top: Bytes, start: Bytes, max: int, blocks: seq<Block>)
    requires t.Valid() && top in t.blocks && start in t.blocks
  {
    && |blocks| == WalkLength(t.blocks[top].height - t.blocks[start].height, max)
    && blocks != [] && blocks[0] == t.blocks[start]
    && forall k {:trigger blocks[k]} :: 0 < k < |blocks| ==>
         && blocks[k].hash in t.Path(top) && blocks[k].hash in t.blocks && blocks[k] == t.blocks[blocks[k].hash]
         && blocks[k].prev == blocks[k - 1].hash
         && blocks[k].height == blocks[k - 1].height + 1
  }

  lemma BlocksGoUp(c: Chain, start: Bytes, max: int)
    requires c.Valid() && start in c.Main()
    ensures start in c.tree.blocks && forall h :: h in Forward(c.Main(), Place(c.Main(), start), max) ==> h in c.tree.blocks
    ensures BlocksUp(c.tree, c.top, start, max, BlocksOf(c.tree, Forward(c.Main(), Place(c.Main(), start), max)))
  {
    ForwardWalks(c, start, max);
    var hs := Forward(c.Main(), Place(c.Main(), start), max);
    forall k: nat | k < |hs| ensures hs[k] in c.tree.blocks {
      assert StepsUp(c.tree, c.top, start, hs, k);
    }
    forall k {:trigger BlocksOf(c.tree, hs)[k]} | 0 < k < |hs|
      ensures var blocks := BlocksOf(c.tree, hs);
              && blocks[k].hash in c.Main() && blocks[k].hash in c.tree.blocks && blocks[k] == c.tree.blocks[blocks[k].hash]
              && blocks[k].prev == blocks[k - 1].hash && blocks[k].height == blocks[k - 1].height + 1
    {
      assert StepsUp(c.tree, c.top, start, hs, k) && StepsUp(c.tree, c.top, start, hs, k - 1);
    }
    assert StepsUp(c.tree, c.top, start, hs, 0);
  }

  /** The block lies on the path of tip, not below bottom. */
  ghost predicate OnSegment(t: Tree, hash: Bytes, bottom: Bytes, tip: Bytes)
    requires t.Valid() && hash in t.blocks && bottom in t.blocks && tip in t.blocks
  {
    hash in t.Path(tip) && t.blocks[bottom].height <= t.blocks[hash].height
  }

  /** A block off the path of tip whose height alone puts it between bottom and the main chain. */
  ghost predicate Stray(c: Chain, hash: Bytes, bottom: Bytes, tip: Bytes)
    requires c.Valid() && hash in c.tree.blocks && bottom in c.tree.blocks && tip in c.tree.blocks
  {
    var merge := c.tree.blocks[MergeBlock(c.tree, tip, c.top)].height;
    && hash !in c.tree.Path(tip)
    && c.tree.blocks[bottom].height <= c.tree.blocks[hash].height <= merge
    && (tip in c.Main() || c.tree.blocks[bottom].height < merge)
  }

  /** What the walk down from a tip beside the main chain looks at. */
  ghost function Walked(c: Chain, tip: Bytes): seq<Bytes>
    requires c.Valid() && tip in c.tree.blocks
  {
    if tip in c.Main() then [] else c.tree.Path(tip)[..Merge(c.tree, tip, c.top) + 1]
  }

  /** The walk settles a question of range in favour of the block unless it has passed the bottom first. */
  ghost predicate AheadOf(c: Chain, hash: Bytes, bottom: Bytes, tip: Bytes)
    requires c.Valid() && tip in c.tree.blocks
  {
    && hash in Walked(c, tip) && hash in c.tree.blocks
    && (bottom in Walked(c, tip) && bottom in c.tree.blocks ==> c.tree.blocks[bottom].height <= c.tree.blocks[hash].height)
  }

  /** The tree without its top block, seen from the parent of that block. */
  lemma TopRemoved(c: Chain)
    requires c.Valid()
    ensures var b := c.tree.blocks[c.top];
            && b.hash == c.top && IsHash(c.top) && HashPath(c.Main()) && c.Main()[0] == c.top
            && (c.top == c.tree.genesis ==> c.Main() == [c.top] && b.prev == [] && !c.tree.Remove(c.top).Valid())
            && (c.top != c.tree.genesis ==>
                  && |c.Main()| > 1 && b.prev in c.tree.Remove(c.top).blocks
                  && (c.tree.Remove(c.top).Valid() <==> !HasChild(c.tree, c.top))
                  && (c.tree.Remove(c.top).Valid() ==> c.tree.Remove(c.top).Path(b.prev) == c.Main()[1..]))
  {
    PathDistinct(c.tree, c.top);
    PathStored(c.tree, c.top);
    PathStep(c.tree, c.top, 0);
    assert c.tree.Link(c.top);
    if c.top != c.tree.genesis {
      RemoveValid(c.tree, c.top);
      var prev := c.tree.blocks[c.top].prev;
      assert c.tree.Link(prev);
      PathAt(c.tree, c.top, 1);
      if !HasChild(c.tree, c.top) {
        RemoveKeepsPaths(c.tree, c.top, prev);
      }
    }
  }

  /** The side branch top first, the main branch lowest first, and the block they part at. */
  ghost function Branches(t: Tree, side: Bytes, tip: Bytes): (seq<Block>, seq<Block>, Block)
    requires t.Valid() && side in t.blocks && tip in t.blocks
  {
    (BlocksOf(t, t.Path(side)[..Merge(t, side, tip)]),
     Reversed(BlocksOf(t, t.Path(tip)[..Merge(t, tip, side)])),
     t.blocks[MergeBlock(t, side, tip)])
  }

  function HashesOf(bs: seq<Block>): (hs: seq<Bytes>)
    ensures |hs| == |bs| && forall i :: 0 <= i < |bs| ==> hs[i] == bs[i].hash
  {
    seq(|bs|, i requires 0 <= i < |bs| => bs[i].hash)
  }

  /**
   Undoing one list and redoing the other turns the path of the side block into that of the tip:
   each path is its own branch, top first, on the path of the common block, the highest there is.
   */
  lemma BranchesSwap(t: Tree, side: Bytes, tip: Bytes)
    requires t.Valid() && side in t.blocks && tip in t.blocks
    ensures var (s, m, base) := Branches(t, side, tip);
            && base.hash in t.blocks && t.blocks[base.hash] == base
            && t.Path(side) == HashesOf(s) + t.Path(base.hash)
            && t.Path(tip) == Reversed(HashesOf(m)) + t.Path(base.hash)
            && (forall a :: a in t.Path(side) && a in t.Path(tip) ==> t.blocks[a].height <= base.height)
  {
    var i, j := Merge(t, side, tip), Merge(t, tip, side);
    MergeHighest(t, side, tip);
    PathAt(t, side, i);
    PathAt(t, tip, j);
    assert t.Link(t.Path(side)[i]);
    BranchHashes(t, side, i);
    BranchHashes(t, tip, j);
    HashesReversed(BlocksOf(t, t.Path(tip)[..j]));
  }

  lemma HashesReversed(bs: seq<Block>)
    ensures Reversed(HashesOf(Reversed(bs))) == HashesOf(bs)
  {
  }

  lemma BranchHashes(t: Tree, h: Bytes, n: nat)
    requires t.Valid() && h in t.blocks && n < |t.Path(h)|
    ensures t.Path(h) == HashesOf(BlocksOf(t, t.Path(h)[..n])) + t.Path(h)[n..]
  {
    var hs := HashesOf(BlocksOf(t, t.Path(h)[..n]));
    forall k | 0 <= k < n ensures hs[k] == t.Path(h)[k] {
      PathStep(t, h, k);
    }
    SameStart(hs, t.Path(h), n);
  }

  lemma SameStart<T>(a: seq<T>, p: seq<T>, n: nat)
    requires |a| == n <= |p| && forall k :: 0 <= k < n ==> a[k] == p[k]
    ensures p == a + p[n..]
  {
  }

  /** On one path, coming before a block means being higher. */
  lemma PlaceOf(t: Tree, h: Bytes, m: nat, x: Bytes)
    requires t.Valid() && h in t.blocks && m < |t.Path(h)|
    ensures t.Path(h)[m] in t.blocks
    ensures x in t.Path(h) ==>
              && x in t.blocks
              && (x in t.Path(h)[..m + 1] <==> t.blocks[x].height >= t.blocks[t.Path(h)[m]].height)
              && (x in t.Path(h)[..m] <==> t.blocks[x].height > t.blocks[t.Path(h)[m]].height)
  {
    PathAt(t, h, m);
    if x in t.Path(h) {
      OnPath(t, h, x);
      var i := t.blocks[h].height - t.blocks[x].height;
      PathDistinct(t, h);
      assert i <= m ==> t.Path(h)[..m + 1][i] == x;
      assert i < m ==> t.Path(h)[..m][i] == x;
    }
  }

  /** Of two blocks the walk reached x first: y lies under it, or not on the walk at all. */
  lemma FirstReached(t: Tree, tip: Bytes, top: Bytes, k: nat, x: Bytes, y: Bytes)
    requires t.Valid() && tip in t.blocks && top in t.blocks && k <= Merge(t, tip, top)
    requires x == t.Path(tip)[k] && y !in t.Path(tip)[..k]
    ensures var walk := t.Path(tip)[..Merge(t, tip, top) + 1];
            && x in walk && x in t.blocks
            && (y in walk ==> y in t.blocks && t.blocks[y].height <= t.blocks[x].height
                              && (y != x ==> t.blocks[y].height < t.blocks[x].height))
  {
    var p, m := t.Path(tip), Merge(t, tip, top);
    assert p[..m + 1][k] == x;
    PathAt(t, tip, k);
    if y in p[..m + 1] {
      PlaceOf(t, tip, k, y);
      var i :| 0 <= i <= m && p[i] == y;
      PathAt(t, tip, i);
    }
  }

  /** What a walk from h sees at step k, up to the block where it meets the path of other. */
  lemma WalkFacts(t: Tree, h: Bytes, other: Bytes, k: nat)
    requires t.Valid() && h in t.blocks && other in t.blocks && k <= Merge(t, h, other)
    ensures var p, m := t.Path(h), Merge(t, h, other);
            && p[k] in t.blocks && t.blocks[p[k]].hash == p[k] && |p[k]| == HASH_SIZE
            && (k < m ==> p[k] !in t.Path(other) && t.blocks[p[k]].prev == p[k + 1] && |p[k + 1]| == HASH_SIZE)
            && (k == m ==> p[k] in t.Path(other))
            && p[..k + 1] == p[..k] + [p[k]]
            && BlocksOf(t, p[..k + 1]) == BlocksOf(t, p[..k]) + [t.blocks[p[k]]]
  {
    PathStep(t, h, k);
    BlocksOfNext(t, t.Path(h), k);
  }

  /** Two walks at one distance from where the paths meet are at one block only there. */
  lemma WalkBoth(t: Tree, h: Bytes, g: Bytes, i: nat, j: nat)
    requires t.Valid() && h in t.blocks && g in t.blocks && MergeBlock(t, g, h) == MergeBlock(t, h, g)
    requires i <= Merge(t, h, g) && j <= Merge(t, g, h) && Merge(t, h, g) - i == Merge(t, g, h) - j
    ensures var p, q := t.Path(h), t.Path(g);
            && p[i] in t.blocks && t.blocks[p[i]].hash == p[i] && q[j] in t.blocks && t.blocks[q[j]].hash == q[j]
            && (p[i] == q[j] <==> i == Merge(t, h, g))
            && (i < Merge(t, h, g) ==> t.blocks[p[i]].prev == p[i + 1] && |p[i + 1]| > 0 && t.blocks[q[j]].prev == q[j + 1] && |q[j + 1]| > 0)
            && BlocksOf(t, p[..i + 1]) == BlocksOf(t, p[..i]) + [t.blocks[p[i]]]
            && BlocksOf(t, q[..j + 1]) == BlocksOf(t, q[..j]) + [t.blocks[q[j]]]
  {
    WalkFacts(t, h, g, i);
    WalkFacts(t, g, h, j);
    assert t.Path(g)[j] in t.Path(g);
  }

  /** Both walks end at one block, so they differ in length as the two blocks differ in height. */
  lemma MergeDistance(t: Tree, h: Bytes, other: Bytes)
    requires t.Valid() && h in t.blocks && other in t.blocks
    ensures Merge(t, h, other) - Merge(t, other, h) == t.blocks[h].height - t.blocks[other].height
  {
    MergeHighest(t, h, other);
    PathAt(t, h, Merge(t, h, other));
    PathAt(t, other, Merge(t, other, h));
  }

  /** A block is under h when the walk from h to the main chain meets it, or it is lower on the main chain. */
  lemma UnderTip(c: Chain, h: Bytes, x: Bytes)
    requires c.Valid() && h in c.tree.blocks
    ensures var m := Merge(c.tree, h, c.top);
            var base := c.tree.Path(h)[m];
            && base in c.tree.blocks
            && (x in c.tree.Path(h) <==>
                  x in c.tree.Path(h)[..m + 1]
                  || (x in c.Main() && c.tree.blocks[x].height < c.tree.blocks[base].height))
  {
    var m := Merge(c.tree, h, c.top);
    PlaceOf(c.tree, h, m, x);
    PathsMeet(c.tree, h, c.top, c.tree.Path(h)[m]);
  }

  /** When the walk from h meets the block or the bottom, no stray is let in. */
  lemma RangeOnSide(c: Chain, h: Bytes, hash: Bytes, bottom: Bytes)
    requires c.Valid() && h in c.tree.blocks && hash in c.tree.blocks && bottom in c.tree.Path(h) && h !in c.Main()
    requires var m := Merge(c.tree, h, c.top);
             hash in c.tree.Path(h)[..m + 1] || bottom in c.tree.Path(h)[..m + 1]
    ensures !Stray(c, hash, bottom, h)
    ensures AheadOf(c, hash, bottom, h) <==> OnSegment(c.tree, hash, bottom, h)
  {
    PlaceOf(c.tree, h, Merge(c.tree, h, c.top), bottom);
    PlaceOf(c.tree, h, Merge(c.tree, h, c.top), hash);
  }

  /** When it meets neither, or there is no walk, the heights decide as the segment and the strays do. */
  lemma RangeByHeight(c: Chain, h: Bytes, hash: Bytes, bottom: Bytes)
    requires c.Valid() && h in c.tree.blocks && hash in c.tree.blocks && bottom in c.tree.Path(h)
    requires var m := Merge(c.tree, h, c.top);
             h in c.Main() || (hash !in c.tree.Path(h)[..m + 1] && bottom !in c.tree.Path(h)[..m + 1])
    ensures var merge := c.tree.blocks[MergeBlock(c.tree, h, c.top)].height;
            c.tree.blocks[bottom].height <= c.tree.blocks[hash].height <= merge
            <==> OnSegment(c.tree, hash, bottom, h) || Stray(c, hash, bottom, h)
  {
    var m := Merge(c.tree, h, c.top);
    PlaceOf(c.tree, h, m, bottom);
    PlaceOf(c.tree, h, m, hash);
    if h in c.Main() {
      assert c.tree.Path(h)[0] == h && m == 0;
      if hash in c.tree.Path(h) {
        OnPath(c.tree, h, hash);
      }
    }
  }

  class BlockchainIterator {
    var currentHash: Bytes
    const db: BlockchainDB

    constructor (db: BlockchainDB, startHash: Bytes)
      ensures this.db == db && currentHash == startHash
    {
      this.db := db;
      currentHash := startHash;
    }

    /** Returns the block under the cursor and moves the cursor to its parent. */
    method Next() returns (r: Result<Block>)
      modifies this`currentHash
      ensures old(currentHash) in db.blocks ==>
                r == Ok(db.blocks[old(currentHash)]) && currentHash == db.blocks[old(currentHash)].prev
      ensures old(currentHash) !in db.blocks ==> r == Err(BlockNotFound) && currentHash == old(currentHash)
    {
      var encoded := db.GetBlock(currentHash);
      if encoded.None? {
        return Err(BlockNotFound);
      }
      currentHash := encoded.value.prev;
      return Ok(encoded.value);
    }
  }

  class BlockchainManager {
    const db: BlockchainDB

    constructor (db: BlockchainDB)
      ensures this.db == db
    {
      this.db := db;
    }

    ghost function State(): Chain
      reads db
    {
      Chain(db.Stored(), db.topHash)
    }

    /** Main hash path as the chain bucket must hold it. */
    lemma IndexFacts()
      requires db.Valid()
      ensures State().Valid()
      ensures forall h :: h in db.chain <==> h in State().Main()
      ensures forall h :: h in db.chain ==> |db.chain[h]| == |h| * 2
      ensures HashPath(State().Main())
      ensures |db.topHash| == HASH_SIZE
    {
      PathDistinct(db.Stored(), db.topHash);
      PathStored(db.Stored(), db.topHash);
      IndexReads(db.chain, State().Main());
      assert db.Stored().Link(db.topHash);
    }

    method GetBlock(hash: Bytes) returns (r: Result<Block>)
      ensures r == if hash in db.blocks then Ok(db.blocks[hash]) else Err(BlockNotFound)
    {
      var b := db.GetBlock(hash);
      if b.None? {
        return Err(BlockNotFound);
      }
      return Ok(b.value);
    }

    /**
     Stores a block; the chain bucket follows the new top and no chain error arises, whatever
     height the block claims. The database stays valid exactly when the height fits.
     */
    method AddBlock(block: Block) returns (state: AddState)
      requires db.Valid() && IsHash(block.hash)
      modifies db
      ensures State() == old(State()).Add(block)
      ensures state == old(State()).AddStateOf(block)
      ensures IsIndex(db.chain, old(State()).MainAfter(block))
      ensures db.Valid() <==> old(State()).HeightFits(block)
    {
      ghost var before := State();
      IndexFacts();
      AddValidIff(before, block);
      var blockInDb := db.GetBlock(block.hash);
      if blockInDb.Some? {
        return NotAddedExists;
      }
      var prevBlockData := db.GetBlock(block.prev);
      if prevBlockData.None? {
        return NotAddedNoPrev;
      }
      db.PutBlock(block.hash, block);
      var lastHash := db.GetTopHash();
      var lastBlock := db.GetBlock(lastHash.value);
      if block.height > lastBlock.value.height {
        db.SaveTopHash(block.hash);
        assert State() == before.Add(block);
        if lastHash.value != block.prev {
          NewBlockLinked(before.tree, block);
          ghost var m, n := NewBlockMeets(before.tree, block, before.top);
          var err := UpdateChainOnNewBranch(lastHash.value, before.MainAfter(block), before.Main(), m, n);
          assert err.None?;
          return AddedToParallelTop;
        } else {
          AppendedIndex(db.chain, before.Main(), block.hash);
          var err := db.AddToChain(block.hash, block.prev);
          assert err.None?;
          return AddedToTop;
        }
      }
      return AddedToParallel;
    }

    /** Rewrites the chain bucket from the walk of the previous top to the walk of the top; the two meet at places m and n. */
    method UpdateChainOnNewBranch(prevTopHash: Bytes, ghost newPath: seq<Bytes>, ghost oldPath: seq<Bytes>, ghost m: nat, ghost n: nat)
      returns (err: Option<Error>)
      requires Linked(db.blocks, newPath) && newPath[0] == db.topHash
      requires IsIndex(db.chain, oldPath) && HashPath(oldPath) && oldPath != [] && oldPath[0] == prevTopHash
      requires Meets(newPath, oldPath, m, n)
      modifies db`chain
      ensures err.None?
      ensures IsIndex(db.chain, newPath)
    {
      assert newPath[m] == newPath[m..][0] == oldPath[n];
      var newBlocks, mergePointHash := LoadNewBranch(newPath, oldPath, m);
      err := RemoveOldBranch(prevTopHash, mergePointHash, oldPath, n);
      if err.Some? {
        return;
      }
      var shorts := new BlockShort[|newBlocks|](i requires 0 <= i < |newBlocks| => newBlocks[i]);
      assert shorts[..] == newBlocks;
      ReverseSlice(shorts);
      err := AppendNewBranch(shorts[..], mergePointHash, newPath);
    }

    /** First loop: the blocks of the new walk that are off the chain, top first, and the block where it meets the chain. */
    method LoadNewBranch(ghost newPath: seq<Bytes>, ghost oldPath: seq<Bytes>, ghost m: nat)
      returns (newBlocks: seq<BlockShort>, mergePointHash: Bytes)
      requires Linked(db.blocks, newPath) && newPath[0] == db.topHash
      requires IsIndex(db.chain, oldPath) && HashPath(oldPath)
      requires m < |newPath| && newPath[m] in oldPath && forall i :: 0 <= i < m ==> newPath[i] !in oldPath
      ensures |newBlocks| == m && forall i :: 0 <= i < m ==> newBlocks[i].hash == newPath[i]
      ensures mergePointHash == newPath[m]
    {
      IndexReads(db.chain, oldPath);
      newBlocks, mergePointHash := [], [];
      var bci := new BlockchainIterator(db, db.topHash);
      while true
        invariant |newBlocks| <= m && bci.db == db
        invariant forall i :: 0 <= i < |newBlocks| ==> newBlocks[i].hash == newPath[i]
        invariant bci.currentHash == newPath[|newBlocks|]
        decreases m - |newBlocks|
      {
        assert LinkedAt(db.blocks, newPath, |newBlocks|);
        var block := bci.Next();
        var exists_ := db.BlockInChain(block.value.hash);
        if exists_.value {
          return newBlocks, block.value.hash;
        }
        assert newPath[|newBlocks| + 1] in newPath;
        newBlocks := newBlocks + [ShortCopy(block.value)];
        if |block.value.prev| == 0 {
          assert false;
          break;
        }
      }
    }

    /** Second loop: takes the indexed walk off the chain, down to the merge point at place n. */
    method RemoveOldBranch(prevTopHash: Bytes, mergePointHash: Bytes, ghost oldPath: seq<Bytes>, ghost n: nat) returns (err: Option<Error>)
      requires IsIndex(db.chain, oldPath) && HashPath(oldPath) && n < |oldPath|
      requires oldPath[0] == prevTopHash && oldPath[n] == mergePointHash
      modifies db`chain
      ensures err.None?
      ensures IsIndex(db.chain, oldPath[n..])
    {
      var remHash := prevTopHash;
      ghost var j := 0;
      assert oldPath[0..] == oldPath;
      while true
        invariant 0 <= j <= n && remHash == oldPath[j]
        invariant IsIndex(db.chain, oldPath[j..]) && HashPath(oldPath[j..])
        decreases n - j
      {
        if remHash == mergePointHash {
          break;
        }
        EndRemoved(db.chain, oldPath, j);
        var _, _, prevHash, _ := db.GetLocationInChain(remHash);
        err := db.RemoveFromChain(remHash);
        if err.Some? {
          return;
        }
        remHash := prevHash;
        j := j + 1;
      }
      return None;
    }

    /** Third loop: puts the new branch on the chain, lowest block first. */
    method AppendNewBranch(newBlocks: seq<BlockShort>, mergePoint: Bytes, ghost newPath: seq<Bytes>) returns (err: Option<Error>)
      requires HashPath(newPath) && |newBlocks| < |newPath| && mergePoint == newPath[|newBlocks|]
      requires forall i :: 0 <= i < |newBlocks| ==> newBlocks[i].hash == newPath[|newBlocks| - 1 - i]
      requires IsIndex(db.chain, newPath[|newBlocks|..])
      modifies db`chain
      ensures err.None?
      ensures IsIndex(db.chain, newPath)
    {
      ghost var m := |newBlocks|;
      var mergePointHash := mergePoint;
      for i := 0 to |newBlocks|
        invariant mergePointHash == newPath[m - i]
        invariant IsIndex(db.chain, newPath[m - i..]) && HashPath(newPath[m - i..])
      {
        ghost var h := newPath[m - i - 1];
        SuffixStep(newPath, m - i - 1);
        AppendedIndex(db.chain, newPath[m - i..], h);
        err := db.AddToChain(newBlocks[i].hash, mergePointHash);
        if err.Some? {
          return;
        }
        mergePointHash := newBlocks[i].hash;
      }
      assert newPath[0..] == newPath;
      return None;
    }

    /**
     Deletes the top block. Above genesis the chain bucket becomes the path of the parent;
     the database is valid again exactly when nothing stored is built on the deleted block.
     */
    method DeleteBlock() returns (r: Result<Block>)
      requires db.Valid()
      modifies db
      ensures r == Ok(old(db.blocks[db.topHash]))
      ensures db.blocks == old(db.blocks) - {old(db.topHash)} && db.firstHash == old(db.firstHash)
      ensures db.topHash == old(db.blocks[db.topHash].prev)
      ensures old(db.topHash != db.firstHash) ==>
                && IsIndex(db.chain, old(db.Stored().Path(db.topHash))[1..])
                && (db.Valid() <==> !HasChild(old(db.Stored()), old(db.topHash)))
      ensures old(db.topHash == db.firstHash) ==> db.chain == map[] && !db.Valid()
    {
      ghost var c := State();
      IndexFacts();
      TopRemoved(c);
      EndRecord(db.chain, c.Main());
      if |c.Main()| > 1 {
        SecondRecord(db.chain, c.Main());
      }
      TruncatedIndex(db.chain, c.Main());
      var topHash := db.GetTopHash();
      var blockInDb := db.GetBlock(topHash.value);
      var block := blockInDb.value;
      db.SaveTopHash(block.prev);
      db.DeleteBlock(block.hash);
      var err := db.RemoveFromChain(block.hash);
      assert err.None?;
      return Ok(block);
    }

    method GetTransactionFromBlock(txID: Bytes, blockHash: Bytes) returns (r: Result<Transaction>)
      ensures blockHash !in db.blocks ==> r == Err(BlockNotFound)
      ensures blockHash in db.blocks ==>
                var txs := db.blocks[blockHash].txs;
                && (r.Ok? ==> exists i :: 0 <= i < |txs| && txs[i] == r.value && txs[i].id == txID
                                          && forall j :: 0 <= j < i ==> txs[j].id != txID)
                && (r.Err? ==> r == Err(TransactionNotFound) && forall i :: 0 <= i < |txs| ==> txs[i].id != txID)
    {
      var block := GetBlock(blockHash);
      if block.Err? {
        return Err(block.error);
      }
      for i := 0 to |block.value.txs|
        invariant forall j :: 0 <= j < i ==> block.value.txs[j].id != txID
      {
        if block.value.txs[i].id == txID {
          return Ok(block.value.txs[i]);
        }
      }
      return Err(TransactionNotFound);
    }

    /** Hash and height of the top block. */
    method GetState() returns (r: Result<(Bytes, int)>)
      ensures |db.topHash| == 0 ==> r == Err(TopNotFound)
      ensures |db.topHash| > 0 && db.topHash !in db.blocks ==> r == Err(BlockNotFound)
      ensures |db.topHash| > 0 && db.topHash in db.blocks ==> r == Ok((db.blocks[db.topHash].hash, db.blocks[db.topHash].height))
      ensures db.Valid() ==> r == Ok((db.topHash, db.blocks[db.topHash].height))
    {
      if db.Valid() {
        assert db.Stored().Link(db.topHash);
      }
      var topHash := db.GetTopHash();
      if topHash.Err? {
        return Err(topHash.error);
      }
      var top := GetBlock(topHash.value);
      if top.Err? {
        return Err(top.error);
      }
      return Ok((top.value.hash, top.value.height));
    }

    /** The walk along next links that GetNextBlocks and GetFirstBlocks share. */
    method WalkForward(startfrom: Bytes, maxcount: int) returns (r: Result<seq<Block>>)
      requires db.Valid()
      ensures |startfrom| == 0 ==> r == Err(HashEmpty)
      ensures |startfrom| > 0 && startfrom !in db.blocks ==> r == Err(BlockNotFound)
      ensures startfrom in db.blocks && startfrom !in State().Main() ==> r == Ok([db.blocks[startfrom]])
      ensures startfrom in State().Main() ==>
                r == Ok(BlocksOf(db.Stored(), Forward(State().Main(), Place(State().Main(), startfrom), maxcount)))
    {
      ghost var t, p, onChain := db.Stored(), State().Main(), startfrom in State().Main();
      ghost var first := if onChain then Place(p, startfrom) else 0;
      if startfrom in db.blocks {
        assert t.Link(startfrom);
      }
      PathIsStored(t, db.topHash);
      var blocks: seq<Block> := [];
      var hash := startfrom;
      while true
        invariant |blocks| <= first && (|blocks| == 0 || |blocks| < maxcount)
        invariant !onChain ==> |blocks| == 0 && hash == startfrom
        invariant onChain ==> GoneUp(t, p, first, hash, blocks)
        decreases first - |blocks|
      {
        if onChain {
          UpHere(t, p, first, hash, blocks);
        }
        var err, _, _, nextHash := db.GetLocationInChain(hash);
        if err.Some? {
          return Err(err.value);
        }
        var block := GetBlock(hash);
        if block.Err? {
          return Err(block.error);
        }
        if onChain && (|blocks| == first || |blocks| + 1 >= maxcount) {
          UpDone(t, p, first, hash, blocks, maxcount);
          BlocksAre(t, Forward(p, first, maxcount), blocks + [block.value]);
        }
        blocks := blocks + [block.value];
        assert !onChain ==> blocks == [db.blocks[startfrom]];
        if |blocks| >= maxcount {
          break;
        }
        if |nextHash| == 0 {
          break;
        }
        hash := nextHash;
      }
      return Ok(blocks);
    }

    /** The blocks from startfrom up the main chain, lowest first. */
    method GetNextBlocks(startfrom: Bytes) returns (r: Result<seq<BlockShort>>)
      requires db.Valid()
      ensures |startfrom| == 0 ==> r == Err(HashEmpty)
      ensures |startfrom| > 0 && startfrom !in db.blocks ==> r == Err(BlockNotFound)
      ensures startfrom in db.blocks && startfrom !in State().Main() ==>
                r == Ok([BlockShort(db.blocks[startfrom].prev, startfrom, db.blocks[startfrom].height)])
      ensures startfrom in State().Main() ==>
                startfrom in db.blocks && r.Ok? && ShortsUp(db.Stored(), db.topHash, startfrom, 1000, r.value)
    {
      var blocks := WalkForward(startfrom, MAX_NEXT_BLOCKS);
      if blocks.Err? {
        return Err(blocks.error);
      }
      var shorts: seq<BlockShort> := [];
      for k := 0 to |blocks.value|
        invariant |shorts| == k && forall i :: 0 <= i < k ==> shorts[i] == ShortCopy(blocks.value[i])
      {
        shorts := shorts + [ShortCopy(blocks.value[k])];
      }
      if startfrom in db.blocks && startfrom !in State().Main() {
        assert db.Stored().Link(startfrom);
        assert shorts == [ShortCopy(db.blocks[startfrom])];
      }
      if startfrom in State().Main() {
        ghost var up := Forward(State().Main(), Place(State().Main(), startfrom), MAX_NEXT_BLOCKS);
        ShortsGoUp(State(), startfrom, MAX_NEXT_BLOCKS);
        assert shorts == ShortsOf(db.Stored(), up);
      }
      return Ok(shorts);
    }

    /** The first blocks of the main chain from genesis up, and the height of the top. */
    method GetFirstBlocks(maxcount: int) returns (r: Result<(seq<Block>, int)>)
      requires db.Valid()
      ensures r.Ok? && BlocksUp(db.Stored(), db.topHash, db.firstHash, maxcount, r.value.0)
      ensures r.Ok? ==> r.value.1 == db.blocks[db.topHash].height
    {
      PathStored(db.Stored(), db.topHash);
      PathDistinct(db.Stored(), db.topHash);
      assert db.Stored().Link(db.firstHash);
      var state := GetState();
      var blocks := WalkForward(db.firstHash, maxcount);
      BlocksGoUp(State(), db.firstHash, maxcount);
      return Ok((blocks.value, state.value.1));
    }

    /**
     The two branches that part at the common block: the side blocks top first, the main
     blocks lowest first, and the common block.
     */
    method GetSideBranch(hash: Bytes, currentTip: Bytes) returns (r: Result<(seq<Block>, seq<Block>, Block)>)
      requires db.Stored().Valid()
      ensures hash !in db.blocks || currentTip !in db.blocks ==> r == Err(BlockNotFound)
      ensures hash in db.blocks && currentTip in db.blocks ==>
                r == if db.blocks[hash].height < 1 || db.blocks[currentTip].height < 1 then Err(GenesisNotAllowed)
                     else Ok(Branches(db.Stored(), hash, currentTip))
    {
      var side := GetBlock(hash);
      if side.Err? {
        return Err(side.error);
      }
      var top := GetBlock(currentTip);
      if top.Err? {
        return Err(top.error);
      }
      if side.value.height < 1 || top.value.height < 1 {
        return Err(GenesisNotAllowed);
      }
      assert db.Stored().Link(hash) && db.Stored().Link(currentTip);
      var sideBlocks, mainBlocks, sideStart, mainStart := LevelOut(side.value, top.value);
      MergeHighest(db.Stored(), hash, currentTip);
      var base;
      sideBlocks, mainBlocks, base := WalkTogether(hash, currentTip, sideBlocks, mainBlocks, sideStart, mainStart);
      var arr := new Block[|mainBlocks|](k requires 0 <= k < |mainBlocks| => mainBlocks[k]);
      assert arr[..] == mainBlocks;
      ReverseSlice(arr);
      return Ok((sideBlocks, arr[..], base));
    }

    /** Walks the higher of two blocks down to the height of the other. */
    method LevelOut(side: Block, top: Block)
      returns (sideBlocks: seq<Block>, mainBlocks: seq<Block>, sideStart: Bytes, mainStart: Bytes)
      requires db.Stored().Valid() && side.hash in db.blocks && top.hash in db.blocks
      requires db.blocks[side.hash] == side && db.blocks[top.hash] == top && side.height >= 0 && top.height >= 0
      ensures var t := db.Stored();
              && |sideBlocks| <= Merge(t, side.hash, top.hash) && |mainBlocks| <= Merge(t, top.hash, side.hash)
              && Merge(t, side.hash, top.hash) - |sideBlocks| == Merge(t, top.hash, side.hash) - |mainBlocks|
              && sideBlocks == BlocksOf(t, t.Path(side.hash)[..|sideBlocks|])
              && mainBlocks == BlocksOf(t, t.Path(top.hash)[..|mainBlocks|])
              && sideStart == t.Path(side.hash)[|sideBlocks|] && mainStart == t.Path(top.hash)[|mainBlocks|]
    {
      MergeDistance(db.Stored(), side.hash, top.hash);
      sideBlocks, mainBlocks := [], [];
      sideStart, mainStart := side.hash, top.hash;
      if side.height > top.height {
        var reached;
        sideBlocks, reached := WalkDown(side.hash, top.height);
        sideStart := reached.hash;
        PathStep(db.Stored(), side.hash, |sideBlocks|);
      } else if side.height < top.height {
        var reached;
        mainBlocks, reached := WalkDown(top.hash, side.height);
        mainStart := reached.hash;
        PathStep(db.Stored(), top.hash, |mainBlocks|);
      }
    }

    /** The last loop of GetSideBranch: both cursors step down together until they meet. */
    method WalkTogether(ghost hash: Bytes, ghost tip: Bytes, side: seq<Block>, main: seq<Block>, sideStart: Bytes, mainStart: Bytes)
      returns (sideBlocks: seq<Block>, mainBlocks: seq<Block>, base: Block)
      requires db.Stored().Valid() && hash in db.blocks && tip in db.blocks
      requires MergeBlock(db.Stored(), tip, hash) == MergeBlock(db.Stored(), hash, tip)
      requires |side| <= Merge(db.Stored(), hash, tip) && |main| <= Merge(db.Stored(), tip, hash)
      requires Merge(db.Stored(), hash, tip) - |side| == Merge(db.Stored(), tip, hash) - |main|
      requires side == BlocksOf(db.Stored(), db.Stored().Path(hash)[..|side|])
      requires main == BlocksOf(db.Stored(), db.Stored().Path(tip)[..|main|])
      requires sideStart == db.Stored().Path(hash)[|side|] && mainStart == db.Stored().Path(tip)[|main|]
      ensures sideBlocks == Branches(db.Stored(), hash, tip).0
      ensures mainBlocks == BlocksOf(db.Stored(), db.Stored().Path(tip)[..Merge(db.Stored(), tip, hash)])
      ensures base == Branches(db.Stored(), hash, tip).2
    {
      ghost var t, m, n := db.Stored(), Merge(db.Stored(), hash, tip), Merge(db.Stored(), tip, hash);
      sideBlocks, mainBlocks := side, main;
      var bcis := new BlockchainIterator(db, sideStart);
      var bcit := new BlockchainIterator(db, mainStart);
      while true
        invariant bcis.db == db && bcit.db == db && bcis != bcit
        invariant |sideBlocks| <= m && |mainBlocks| <= n && m - |sideBlocks| == n - |mainBlocks|
        invariant bcis.currentHash == t.Path(hash)[|sideBlocks|] && bcit.currentHash == t.Path(tip)[|mainBlocks|]
        invariant sideBlocks == BlocksOf(t, t.Path(hash)[..|sideBlocks|])
        invariant mainBlocks == BlocksOf(t, t.Path(tip)[..|mainBlocks|])
        decreases m - |sideBlocks|
      {
        WalkBoth(t, hash, tip, |sideBlocks|, |mainBlocks|);
        var s := bcis.Next();
        var u := bcit.Next();
        if s.value.hash == u.value.hash {
          return sideBlocks, mainBlocks, s.value;
        }
        sideBlocks := sideBlocks + [s.value];
        mainBlocks := mainBlocks + [u.value];
        if |s.value.prev| == 0 || |u.value.prev| == 0 {
          assert false;
          break;
        }
      }
    }

    /** Walks down from a stored block to a height at or below it; returns the blocks passed and the one reached. */
    method WalkDown(hash: Bytes, height: int) returns (passed: seq<Block>, reached: Block)
      requires db.Stored().Valid() && hash in db.blocks && 0 <= height <= db.blocks[hash].height
      ensures var t, d := db.Stored(), db.blocks[hash].height - height;
              passed == BlocksOf(t, t.Path(hash)[..d]) && t.Path(hash)[d] in t.blocks && reached == t.blocks[t.Path(hash)[d]]
    {
      ghost var t, d := db.Stored(), db.blocks[hash].height - height;
      var bci := new BlockchainIterator(db, hash);
      passed := [];
      while true
        invariant bci.db == db && |passed| <= d
        invariant bci.currentHash == t.Path(hash)[|passed|]
        invariant passed == BlocksOf(t, t.Path(hash)[..|passed|])
        decreases d - |passed|
      {
        PathStep(t, hash, |passed|);
        PathAt(t, hash, |passed|);
        var block := bci.Next();
        if block.value.height == height {
          return passed, block.value;
        }
        passed := passed + [block.value];
      }
    }

    /** The main and the side branch of GetSideBranch, or nothing when the side block is under the tip. */
    method GetBranchesReplacement(sideBranchHash: Bytes, tip: Bytes) returns (r: Result<Option<(seq<Block>, seq<Block>)>>)
      requires db.Stored().Valid()
      requires sideBranchHash in db.blocks && tip in db.blocks
      requires db.blocks[sideBranchHash].height >= 1 && db.blocks[tip].height >= 1
      ensures var b := Branches(db.Stored(), sideBranchHash, tip);
              r == Ok(if sideBranchHash in db.Stored().Path(tip) then None else Some((b.1, b.0)))
    {
      ghost var t := db.Stored();
      var b := GetSideBranch(sideBranchHash, tip);
      ghost var base := MergeBlock(t, sideBranchHash, tip);
      assert t.Link(base);
      if sideBranchHash in t.Path(tip) {
        assert t.Path(sideBranchHash)[0] == sideBranchHash;
        assert Merge(t, sideBranchHash, tip) == 0;
      }
      if b.value.2.hash == sideBranchHash {
        return Ok(None);
      }
      return Ok(Some((b.value.1, b.value.0)));
    }

    /** A listed hash that is the tip or an ancestor of it; an empty tip means the top. */
    method ChooseHashUnderTip(blockHashes: seq<Bytes>, tip: Bytes) returns (r: Result<Option<Bytes>>)
      requires db.Valid()
      ensures r.Err? ==> (|tip| > 0 && tip !in db.blocks) || [] in blockHashes
      ensures |tip| > 0 && tip !in db.blocks ==>
                r == if blockHashes == [] then Ok(None) else if tip in blockHashes then Ok(Some(tip)) else Err(BlockNotFound)
      ensures (|tip| == 0 || tip in db.blocks) && [] !in blockHashes ==>
                var t := if |tip| == 0 then db.topHash else tip;
                && r.Ok?
                && (r.value.Some? <==> exists h :: h in blockHashes && h in db.Stored().Path(t))
                && (r.value.Some? ==> r.value.value in blockHashes && r.value.value in db.Stored().Path(t))
    {
      if |blockHashes| == 0 {
        return Ok(None);
      }
      if |tip| == 0 {
        r := ChooseOnMain(blockHashes);
        return;
      }
      var isTip := Contains(blockHashes, tip);
      if isTip {
        return Ok(Some(tip));
      }
      var topBlock := GetBlock(tip);
      if topBlock.Err? {
        return Err(topBlock.error);
      }
      var exists_ := db.BlockInChain(tip);
      ghost var c, m := State(), Merge(db.Stored(), tip, db.topHash);
      forall x | x in blockHashes
        ensures x in c.tree.Path(tip) <==>
                x in c.tree.Path(tip)[..m + 1]
                || (x in c.Main() && c.tree.blocks[x].height < c.tree.blocks[c.tree.Path(tip)[m]].height)
      {
        UnderTip(c, tip, x);
      }
      var newTop := topBlock.value;
      if !exists_.value {
        var found, hash, base := SearchSide(blockHashes, tip);
        if found {
          return Ok(Some(hash));
        }
        newTop := base;
      } else {
        assert c.tree.Path(tip)[0] == tip && m == 0;
        assert c.tree.Path(tip)[..1] == [tip];
      }
      r := ChooseOnMainBelow(blockHashes, newTop.height);
    }

    method Contains(blockHashes: seq<Bytes>, hash: Bytes) returns (r: bool)
      ensures r <==> hash in blockHashes
    {
      for i := 0 to |blockHashes|
        invariant hash !in blockHashes[..i]
      {
        if blockHashes[i] == hash {
          return true;
        }
      }
      return false;
    }

    /** The first listed hash of the main chain. */
    method ChooseOnMain(blockHashes: seq<Bytes>) returns (r: Result<Option<Bytes>>)
      requires db.Valid()
      ensures r.Err? ==> [] in blockHashes
      ensures [] !in blockHashes ==>
                && r.Ok?
                && (r.value.Some? <==> exists h :: h in blockHashes && h in State().Main())
                && (r.value.Some? ==> r.value.value in blockHashes && r.value.value in State().Main())
    {
      for i := 0 to |blockHashes|
        invariant forall h :: h in blockHashes[..i] ==> h !in State().Main()
      {
        var exists_ := db.BlockInChain(blockHashes[i]);
        if exists_.Err? {
          return Err(exists_.error);
        }
        if exists_.value {
          assert blockHashes[i] in blockHashes;
          return Ok(Some(blockHashes[i]));
        }
      }
      return Ok(None);
    }

    /** The first listed hash of the main chain below a height. */
    method ChooseOnMainBelow(blockHashes: seq<Bytes>, height: int) returns (r: Result<Option<Bytes>>)
      requires db.Valid()
      ensures r.Err? ==> [] in blockHashes
      ensures [] !in blockHashes ==>
                && r.Ok?
                && (r.value.Some? <==> exists h :: h in blockHashes && h in State().Main() && db.blocks[h].height < height)
                && (r.value.Some? ==> r.value.value in blockHashes && r.value.value in State().Main()
                                      && db.blocks[r.value.value].height < height)
    {
      for i := 0 to |blockHashes|
        invariant forall h :: h in blockHashes[..i] ==> !(h in State().Main() && db.blocks[h].height < height)
      {
        var exists_ := db.BlockInChain(blockHashes[i]);
        if exists_.Err? {
          return Err(exists_.error);
        }
        if exists_.value {
          var block := GetBlock(blockHashes[i]);
          if block.value.height < height {
            return Ok(Some(blockHashes[i]));
          }
        }
      }
      return Ok(None);
    }

    /** Walks the side branch of tip down to the main chain, looking for a listed hash on the way. */
    method SearchSide(blockHashes: seq<Bytes>, tip: Bytes) returns (found: bool, hash: Bytes, base: Block)
      requires db.Valid() && tip in db.blocks
      ensures var t, m := db.Stored(), Merge(db.Stored(), tip, db.topHash);
              && (found ==> hash in blockHashes && hash in t.Path(tip))
              && (!found ==> (forall h :: h in blockHashes ==> h !in t.Path(tip)[..m + 1])
                             && base == t.blocks[t.Path(tip)[m]])
    {
      ghost var t, p, m := db.Stored(), db.Stored().Path(tip), Merge(db.Stored(), tip, db.topHash);
      found, hash := false, [];
      var bci := new BlockchainIterator(db, tip);
      ghost var k := 0;
      while true
        invariant 0 <= k <= m && bci.db == db && bci.currentHash == p[k]
        invariant forall h :: h in blockHashes ==> h !in p[..k]
        decreases m - k
      {
        WalkFacts(t, tip, db.topHash, k);
        var block := bci.Next();
        base := block.value;
        found := Contains(blockHashes, base.hash);
        if found {
          return true, base.hash, base;
        }
        var exists_ := db.BlockInChain(base.hash);
        if exists_.value {
          return;
        }
        if |base.prev| == 0 {
          assert false;
          return;
        }
        k := k + 1;
      }
    }

    /**
     Whether a block lies between bottom and the tip (an empty tip means the top). A walk beside
     the main chain may settle it, otherwise the heights do. When bottom is under the tip the
     answer is true for every block of that segment, and beyond those for strays only.
     */
    method CheckBlockIsInRange(blockHash: Bytes, bottomHash: Bytes, tip: Bytes) returns (r: Result<bool>)
      requires db.Valid()
      ensures |tip| > 0 && tip !in db.blocks ==> r == Err(BlockNotFound)
      ensures |tip| == 0 || tip in db.blocks ==>
                var t := if |tip| == 0 then db.topHash else tip;
                && (blockHash in db.blocks && bottomHash in db.Stored().Path(t) ==>
                      r == Ok(OnSegment(db.Stored(), blockHash, bottomHash, t) || Stray(State(), blockHash, bottomHash, t)))
                && (blockHash in Walked(State(), t) || bottomHash in Walked(State(), t) ==>
                      r == Ok(AheadOf(State(), blockHash, bottomHash, t)))
                && (blockHash !in Walked(State(), t) && bottomHash !in Walked(State(), t) ==>
                      r == if blockHash !in db.blocks || bottomHash !in db.blocks then Err(BlockNotFound)
                           else Ok(db.blocks[bottomHash].height <= db.blocks[blockHash].height
                                   <= db.blocks[MergeBlock(db.Stored(), t, db.topHash)].height))
    {
      ghost var c, h := State(), if |tip| == 0 then db.topHash else tip;
      assert c.tree.Link(db.topHash);
      var topHash := tip;
      if |topHash| > 0 {
        var exists_ := db.BlockInChain(topHash);
        if !exists_.value {
          var done, verdict, base := WalkRange(blockHash, bottomHash, topHash);
          if done {
            if verdict.Ok? && blockHash in db.blocks && bottomHash in c.tree.Path(h) {
              RangeOnSide(c, h, blockHash, bottomHash);
            }
            return verdict;
          }
          topHash := base;
        }
      } else {
        var top := db.GetTopHash();
        topHash := top.value;
      }
      assert h in c.Main() ==> Merge(c.tree, h, c.top) == 0 by { assert c.tree.Path(h)[0] == h; }
      assert topHash == MergeBlock(c.tree, h, c.top);
      var topBlock := GetBlock(topHash);
      var bottomBlock := GetBlock(bottomHash);
      if bottomBlock.Err? {
        return Err(bottomBlock.error);
      }
      var block := GetBlock(blockHash);
      if block.Err? {
        return Err(block.error);
      }
      if bottomHash in c.tree.Path(h) {
        RangeByHeight(c, h, blockHash, bottomHash);
      }
      return Ok(block.value.height >= bottomBlock.value.height && block.value.height <= topBlock.value.height);
    }

    /** The walk down a side branch: settles the question there, or hands over the block where it meets the main chain. */
    method WalkRange(blockHash: Bytes, bottomHash: Bytes, tip: Bytes) returns (done: bool, r: Result<bool>, base: Bytes)
      requires db.Valid() && |tip| > 0
      ensures tip !in db.blocks ==> done && r == Err(BlockNotFound)
      ensures tip in db.blocks ==>
                var t, m := db.Stored(), Merge(db.Stored(), tip, db.topHash);
                && (done <==> blockHash in t.Path(tip)[..m + 1] || bottomHash in t.Path(tip)[..m + 1])
                && (!done ==> base == t.Path(tip)[m])
                && (done ==> r == Ok(blockHash in t.Path(tip)[..m + 1] && !(bottomHash in t.Path(tip)[..m + 1]
                                       && t.blocks[bottomHash].height > t.blocks[blockHash].height)))
    {
      ghost var t, stored := db.Stored(), tip in db.blocks;
      ghost var p := if stored then t.Path(tip) else [];
      ghost var m := if stored then Merge(t, tip, db.topHash) else 0;
      var bci := new BlockchainIterator(db, tip);
      ghost var k := 0;
      while true
        invariant 0 <= k <= m && bci.db == db
        invariant stored ==> bci.currentHash == p[k] && blockHash !in p[..k] && bottomHash !in p[..k]
        invariant !stored ==> bci.currentHash == tip
        decreases m - k
      {
        var next := bci.Next();
        if next.Err? {
          return true, Err(next.error), tip;
        }
        WalkFacts(t, tip, db.topHash, k);
        var block := next.value;
        if blockHash == block.hash {
          FirstReached(t, tip, db.topHash, k, blockHash, bottomHash);
          return true, Ok(true), tip;
        }
        if bottomHash == block.hash {
          FirstReached(t, tip, db.topHash, k, bottomHash, blockHash);
          return true, Ok(false), tip;
        }
        var exists_ := db.BlockInChain(block.hash);
        if exists_.value {
          return false, Ok(false), block.hash;
        }
        if |block.prev| == 0 {
          assert false;
          return true, Ok(false), tip;
        }
        k := k + 1;
      }
    }
  }
}

/**
 The tree of stored blocks: every block except the genesis block names a stored parent
 one level below it. A path is the backward walk from a block to the genesis block.
 */
module BlockTree {
  import opened Structures

  datatype Tree = Tree(blocks: map<Bytes, Block>, genesis: Bytes) {

    ghost predicate Link(h: Bytes)
      requires h in blocks
    {
      && blocks[h].hash == h && IsHash(h) && blocks[h].height >= 0
      && if h == genesis then
           blocks[h].prev == [] && blocks[h].height == 0
         else
           blocks[h].prev in blocks && blocks[h].height == blocks[blocks[h].prev].height + 1
    }

    ghost predicate Valid() {
      && genesis in blocks
      && forall h {:trigger Link(h)} :: h in blocks ==> Link(h)
    }

    /** Hashes from h down to the genesis block. */
    ghost function Path(h: Bytes): (p: seq<Bytes>)
      requires Valid() && h in blocks
      ensures 0 < |p| == blocks[h].height + 1 && p[0] == h
      ensures forall a :: a in p ==> a in blocks
      decreases blocks[h].height
    {
      assert Link(h);
      if h == genesis then [h] else [h] + Path(blocks[h].prev)
    }

    /** Adding a block keeps the tree valid when its hash is new and it sits one above its parent. */
    ghost predicate Fits(b: Block) {
      && IsHash(b.hash) && b.hash !in blocks
      && b.prev in blocks && b.height == blocks[b.prev].height + 1
    }

    function Add(b: Block): Tree {
      Tree(blocks[b.hash := b], genesis)
    }

    function Remove(h: Bytes): Tree {
      Tree(blocks - {h}, genesis)
    }
  }

  lemma PathAt(t: Tree, h: Bytes, i: nat)
    requires t.Valid() && h in t.blocks && i < |t.Path(h)|
    ensures t.Path(h)[i] in t.blocks
    ensures t.blocks[t.Path(h)[i]].height == t.blocks[h].height - i
    ensures t.Path(t.Path(h)[i]) == t.Path(h)[i..]
    decreases i
  {
    assert t.Link(h);
    if i > 0 {
      PathAt(t, t.blocks[h].prev, i - 1);
    }
  }

  /** A block on a path is found at the place its height says, and its own path is the rest. */
  lemma OnPath(t: Tree, h: Bytes, a: Bytes)
    requires t.Valid() && h in t.blocks && a in t.Path(h)
    ensures a in t.blocks && 0 <= t.blocks[a].height <= t.blocks[h].height
    ensures t.Path(h)[t.blocks[h].height - t.blocks[a].height] == a
    ensures t.Path(a) == t.Path(h)[t.blocks[h].height - t.blocks[a].height..]
  {
    var i :| 0 <= i < |t.Path(h)| && t.Path(h)[i] == a;
    PathAt(t, h, i);
  }

  lemma PathDistinct(t: Tree, h: Bytes)
    requires t.Valid() && h in t.blocks
    ensures Distinct(t.Path(h))
  {
    forall i, j | 0 <= i < j < |t.Path(h)| ensures t.Path(h)[i] != t.Path(h)[j] {
      PathAt(t, h, i);
      PathAt(t, h, j);
    }
  }

  lemma PathStored(t: Tree, h: Bytes)
    requires t.Valid() && h in t.blocks
    ensures forall a :: a in t.Path(h) ==> a in t.blocks && IsHash(a)
    ensures t.Path(h)[|t.Path(h)| - 1] == t.genesis && t.genesis in t.Path(h)
  {
    forall a | a in t.Path(h) ensures a in t.blocks && IsHash(a) {
      OnPath(t, h, a);
      assert t.Link(a);
    }
    var last := t.Path(h)[|t.Path(h)| - 1];
    PathAt(t, h, |t.Path(h)| - 1);
    assert t.Link(last);
    assert t.Link(t.genesis);
  }

  /** The block below the i-th block of a path is the next one on it. */
  lemma PathStep(t: Tree, h: Bytes, i: nat)
    requires t.Valid() && h in t.blocks && i < |t.Path(h)|
    ensures t.Path(h)[i] in t.blocks
    ensures t.blocks[t.Path(h)[i]].hash == t.Path(h)[i] && |t.Path(h)[i]| == HASH_SIZE
    ensures i + 1 < |t.Path(h)| ==> t.blocks[t.Path(h)[i]].prev == t.Path(h)[i + 1] && |t.Path(h)[i + 1]| == HASH_SIZE
    ensures i + 1 == |t.Path(h)| ==> t.Path(h)[i] == t.genesis && t.blocks[t.genesis].prev == []
    ensures i + 1 < |t.Path(h)| ==> t.Path(h)[i] != t.genesis
  {
    PathAt(t, h, i);
    assert t.Link(t.Path(h)[i]);
    assert t.Link(t.genesis);
    if i + 1 < |t.Path(h)| {
      PathAt(t, h, i + 1);
      assert t.Link(t.Path(h)[i + 1]);
      assert t.Path(h)[i..][1] == t.Path(h)[i + 1];
    }
  }

  /** Two paths that meet agree from there on. */
  lemma PathsMeet(t: Tree, h: Bytes, k: Bytes, a: Bytes)
    requires t.Valid() && h in t.blocks && k in t.blocks && a in t.Path(h) && a in t.Path(k)
    ensures a in t.blocks
    ensures forall b :: b in t.blocks && t.blocks[b].height <= t.blocks[a].height ==>
              (b in t.Path(h) <==> b in t.Path(k))
  {
    OnPath(t, h, a);
    OnPath(t, k, a);
    forall b | b in t.blocks && t.blocks[b].height <= t.blocks[a].height
      ensures b in t.Path(h) <==> b in t.Path(k)
    {
      if b in t.Path(h) {
        OnPath(t, h, b);
        assert b == t.Path(a)[t.blocks[a].height - t.blocks[b].height];
      }
      if b in t.Path(k) {
        OnPath(t, k, b);
        assert b == t.Path(a)[t.blocks[a].height - t.blocks[b].height];
      }
    }
  }

  lemma AddValid(t: Tree, b: Block)
    requires t.Valid() && t.Fits(b)
    ensures t.Add(b).Valid()
    ensures forall h :: h in t.blocks ==> t.Add(b).Path(h) == t.Path(h)
    ensures t.Add(b).Path(b.hash) == [b.hash] + t.Path(b.prev)
  {
    var u := t.Add(b);
    forall h | h in u.blocks ensures u.Link(h) {
      if h != b.hash { assert t.Link(h); } else { assert t.Link(b.prev); }
    }
    assert u.Valid();
    forall h | h in t.blocks ensures u.Path(h) == t.Path(h) {
      PathFrame(t, u, h);
    }
    assert u.Link(b.hash) && t.Link(t.genesis);
  }

  /** A path depends only on the blocks it goes through. */
  lemma {:induction false} PathFrame(t: Tree, u: Tree, h: Bytes)
    requires t.Valid() && u.Valid() && t.genesis == u.genesis && h in t.blocks
    requires forall a :: a in t.Path(h) ==> a in u.blocks && u.blocks[a] == t.blocks[a]
    ensures h in u.blocks && u.Path(h) == t.Path(h)
    decreases t.blocks[h].height
  {
    assert t.Link(h) && h in t.Path(h);
    if h != t.genesis {
      assert t.Path(h) == [h] + t.Path(t.blocks[h].prev);
      PathFrame(t, u, t.blocks[h].prev);
    }
  }

  /** The stored blocks that name h as their parent. */
  ghost predicate HasChild(t: Tree, h: Bytes) {
    exists c :: c in t.blocks && t.blocks[c].prev == h
  }

  /** Taking a block above genesis out of the tree leaves a tree exactly when nothing is built on it. */
  lemma RemoveValid(t: Tree, h: Bytes)
    requires t.Valid() && h in t.blocks && h != t.genesis
    ensures t.Remove(h).Valid() <==> !HasChild(t, h)
  {
    var u := t.Remove(h);
    if HasChild(t, h) {
      var c :| c in t.blocks && t.blocks[c].prev == h;
      assert t.Link(c) && t.Link(h);
      assert c in u.blocks && (u.Valid() ==> u.Link(c));
    } else {
      forall a | a in u.blocks ensures u.Link(a) {
        assert t.Link(a);
      }
    }
  }

  lemma RemoveKeepsPaths(t: Tree, h: Bytes, a: Bytes)
    requires t.Valid() && h in t.blocks && h != t.genesis && !HasChild(t, h) && a in t.blocks && a != h
    ensures t.Remove(h).Valid() && t.Remove(h).Path(a) == t.Path(a)
  {
    RemoveValid(t, h);
    PathAvoids(t, h, a);
    PathFrame(t, t.Remove(h), a);
  }

  lemma {:induction false} PathAvoids(t: Tree, h: Bytes, a: Bytes)
    requires t.Valid() && a in t.blocks && a != h && !HasChild(t, h)
    ensures h !in t.Path(a)
    decreases t.blocks[a].height
  {
    assert t.Link(a);
    if a != t.genesis {
      PathAvoids(t, h, t.blocks[a].prev);
    }
  }

  /** Place on the path of h of the first block that also lies on the path of top. */
  ghost predicate IsMerge(t: Tree, h: Bytes, top: Bytes, m: nat)
    requires t.Valid() && h in t.blocks && top in t.blocks
  {
    && m < |t.Path(h)| && t.Path(h)[m] in t.Path(top)
    && forall i :: 0 <= i < m ==> t.Path(h)[i] !in t.Path(top)
  }

  ghost function Merge(t: Tree, h: Bytes, top: Bytes): (m: nat)
    requires t.Valid() && h in t.blocks && top in t.blocks
    ensures IsMerge(t, h, top, m)
  {
    PathStored(t, h);
    PathStored(t, top);
    MergeFrom(t, h, top, 0)
  }

  ghost function MergeFrom(t: Tree, h: Bytes, top: Bytes, k: nat): (m: nat)
    requires t.Valid() && h in t.blocks && top in t.blocks && k < |t.Path(h)|
    requires t.Path(h)[|t.Path(h)| - 1] in t.Path(top)
    ensures k <= m < |t.Path(h)| && t.Path(h)[m] in t.Path(top)
    ensures forall i :: k <= i < m ==> t.Path(h)[i] !in t.Path(top)
    decreases |t.Path(h)| - k
  {
    if t.Path(h)[k] in t.Path(top) then k else MergeFrom(t, h, top, k + 1)
  }

  /** The first common block of two paths. */
  ghost function MergeBlock(t: Tree, h: Bytes, top: Bytes): Bytes
    requires t.Valid() && h in t.blocks && top in t.blocks
  {
    t.Path(h)[Merge(t, h, top)]
  }

  /** The common block is the highest one both paths hold, from either side. */
  lemma MergeHighest(t: Tree, h: Bytes, top: Bytes)
    requires t.Valid() && h in t.blocks && top in t.blocks
    ensures var m := MergeBlock(t, h, top);
            && m in t.Path(h) && m in t.Path(top)
            && (forall a :: a in t.Path(h) && a in t.Path(top) ==> t.blocks[a].height <= t.blocks[m].height)
            && MergeBlock(t, top, h) == m
  {
    var i := Merge(t, h, top);
    var m := t.Path(h)[i];
    PathAt(t, h, i);
    forall a | a in t.Path(h) && a in t.Path(top) ensures a in t.blocks && t.blocks[a].height <= t.blocks[m].height {
      OnPath(t, h, a);
    }
    var j := Merge(t, top, h);
    PathAt(t, top, j);
    OnPath(t, h, t.Path(top)[j]);
    OnPath(t, top, m);
    OnPath(t, h, m);
  }
}

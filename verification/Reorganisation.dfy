/**
 Replacing one branch of the main chain by another: what it makes of the unspent outputs and
 of the pool (node/nodemanager/node.go:397-425, node/transactions/pending.go:533-549).
 */
module Reorganisation {
  import opened Structures
  import opened BlockTree
  import opened Blockchain
  import opened Ledger
  import opened Soundness
  import opened Cancellation

  ghost function CancelAll(c: Chain, u: Utxo, bs: seq<Block>): Utxo
    requires c.Valid() && forall b :: b in bs ==> b.prev in c.tree.blocks
  {
    if bs == [] then u else Cancelled(c, CancelAll(c, u, bs[..|bs| - 1]), bs[|bs| - 1])
  }

  ghost function AddAll(u: Utxo, bs: seq<Block>): Utxo {
    if bs == [] then u else ApplyAll(AddAll(u, bs[..|bs| - 1]), Tag(bs[|bs| - 1]))
  }

  /** Every stored path is sound. */
  ghost predicate AllSound(t: Tree)
    requires t.Valid()
  {
    forall h :: h in t.blocks ==> Sound(Entries(t, h))
  }

  /** Cancelling the block is exact: the input loops reach what they must, and no stray block interferes. */
  ghost predicate CleanCancel(c: Chain, b: Block)
    requires c.Valid() && b.prev in c.tree.blocks
  {
    AllReached(b, Entries(c.tree, b.prev)) && NoStraySpends(c, b)
  }

  lemma EntriesAbove(t: Tree, h: Bytes, i: nat)
    requires t.Valid() && h in t.blocks && i + 1 < |t.Path(h)|
    ensures var p := t.Path(h);
            && p[i] in t.blocks && p[i + 1] in t.blocks && t.blocks[p[i]].prev == p[i + 1]
            && Entries(t, p[i]) == Entries(t, p[i + 1]) + Tag(t.blocks[p[i]])
  {
    PathStep(t, h, i);
    assert t.Link(t.Path(h)[i]);
  }

  /** The entries of a block lower on the path come first. */
  lemma {:induction false} EntriesBelow(t: Tree, h: Bytes, i: nat)
    requires t.Valid() && h in t.blocks && i < |t.Path(h)|
    ensures t.Path(h)[i] in t.blocks && Entries(t, t.Path(h)[i]) <= Entries(t, h)
    decreases i
  {
    if i > 0 {
      EntriesBelow(t, h, i - 1);
      EntriesAbove(t, h, i - 1);
    }
  }

  /** Cancelling a branch from its end down brings back the unspent outputs of the block below it. */
  lemma {:induction false} CancelDown(c: Chain, h: Bytes, n: nat)
    requires c.Valid() && h in c.tree.blocks && n < |c.tree.Path(h)| && AllSound(c.tree)
    requires forall b :: b in BlocksOf(c.tree, c.tree.Path(h)[..n]) ==> b.prev in c.tree.blocks && CleanCancel(c, b)
    ensures c.tree.Path(h)[n] in c.tree.blocks
    ensures CancelAll(c, Unspent(Entries(c.tree, h)), BlocksOf(c.tree, c.tree.Path(h)[..n])) ==
            Unspent(Entries(c.tree, c.tree.Path(h)[n]))
    decreases n
  {
    if n > 0 {
      var p := c.tree.Path(h);
      BlocksOfNext(c.tree, p, n - 1);
      CancelDown(c, h, n - 1);
      EntriesAbove(c.tree, h, n - 1);
      var b := c.tree.blocks[p[n - 1]];
      var bs := BlocksOf(c.tree, p[..n]);
      assert bs[..|bs| - 1] == BlocksOf(c.tree, p[..n - 1]) && bs[|bs| - 1] == b;
      CancelUndoesAdd(c, b);
    }
  }

  /** Adding a branch from its start up gives the unspent outputs of its end. */
  lemma {:induction false} AddUp(t: Tree, h: Bytes, n: nat)
    requires t.Valid() && h in t.blocks && n < |t.Path(h)|
    ensures t.Path(h)[n] in t.blocks
    ensures AddAll(Unspent(Entries(t, t.Path(h)[n])), Reversed(BlocksOf(t, t.Path(h)[..n]))) == Unspent(Entries(t, h))
    decreases n
  {
    if n > 0 {
      var prev := t.Path(h)[1];
      EntriesAbove(t, h, 0);
      PathAt(t, h, 1);
      AddUp(t, prev, n - 1);
      var bs, cs := Reversed(BlocksOf(t, t.Path(h)[..n])), Reversed(BlocksOf(t, t.Path(prev)[..n - 1]));
      assert t.Path(prev) == t.Path(h)[1..];
      assert bs[..|bs| - 1] == cs && bs[|bs| - 1] == t.blocks[h];
      ApplyAllAppend(map[], Entries(t, prev), Tag(t.blocks[h]));
    }
  }

  lemma SideHasParents(t: Tree, side: Bytes, tip: Bytes)
    requires t.Valid() && side in t.blocks && tip in t.blocks
    ensures forall b :: b in Branches(t, side, tip).0 ==> b.prev in t.blocks && b.hash in t.blocks && t.blocks[b.hash] == b && |b.prev| > 0
  {
    var m := Merge(t, side, tip);
    forall b | b in Branches(t, side, tip).0 ensures b.prev in t.blocks && b.hash in t.blocks && t.blocks[b.hash] == b && |b.prev| > 0 {
      var i :| 0 <= i < m && Branches(t, side, tip).0[i] == b;
      PathStep(t, side, i);
    }
  }

  /** The unspent outputs after the branch of old is replaced by the branch of the top. */
  ghost function Reorganised(c: Chain, u: Utxo, old_: Bytes): Utxo
    requires c.Valid() && old_ in c.tree.blocks
  {
    SideHasParents(c.tree, old_, c.top);
    AddAll(CancelAll(c, u, Branches(c.tree, old_, c.top).0), Branches(c.tree, old_, c.top).1)
  }

  /** Every block of the old branch cancels exactly. */
  ghost predicate CleanBranch(c: Chain, old_: Bytes)
    requires c.Valid() && old_ in c.tree.blocks
  {
    forall b :: b in Branches(c.tree, old_, c.top).0 ==> b.prev in c.tree.blocks && CleanCancel(c, b)
  }

  /**
   After a branch replacement the incremental unspent outputs are those of the new main chain,
   when every block of the old branch cancels exactly.
   */
  lemma ReorganisationExact(c: Chain, old_: Bytes)
    requires c.Valid() && old_ in c.tree.blocks && AllSound(c.tree) && CleanBranch(c, old_)
    ensures Reorganised(c, Unspent(Entries(c.tree, old_)), old_) == Unspent(Entries(c.tree, c.top))
  {
    var t, m, n := c.tree, Merge(c.tree, old_, c.top), Merge(c.tree, c.top, old_);
    MergeHighest(t, old_, c.top);
    var side, main := BlocksOf(t, t.Path(old_)[..m]), Reversed(BlocksOf(t, t.Path(c.top)[..n]));
    assert Branches(t, old_, c.top).0 == side && Branches(t, old_, c.top).1 == main;
    CancelDown(c, old_, m);
    AddUp(t, c.top, n);
    assert t.Path(old_)[m] == t.Path(c.top)[n];
  }

  // ----- Conditions a caller can check

  /** Each transaction names its transactions of the chain below before those of its own block. */
  ghost predicate InputsOrdered(b: Block, below: seq<Entry>) {
    forall k, x, y :: 0 <= k < |b.txs| && !b.txs[k].IsCoinbase() && 0 <= x < y < |b.txs[k].vin| ==>
      HasId(below, b.txs[k].vin[y].txid) ==> HasId(below, b.txs[k].vin[x].txid)
  }

  lemma OrderedReached(b: Block, below: seq<Entry>)
    requires InputsOrdered(b, below)
    ensures AllReached(b, below)
  {
    forall k, x {:trigger b.txs[k].vin[x]} | 0 <= k < |b.txs| && !b.txs[k].IsCoinbase() && 0 <= x < |b.txs[k].vin|
                                             && HasId(below, b.txs[k].vin[x].txid)
      ensures b.txs[k].vin[x].txid in Reached(b, below)
    {
      assert ReachesInput(b.txs[k], below, x);
      assert b.txs[k].vin[x].txid in ReachedBy(b.txs[k], below);
      assert b.txs[k] in b.txs;
    }
  }

  /** Below the block where the two branches part only the main chain is stored. */
  ghost predicate TwoBranches(c: Chain, old_: Bytes)
    requires c.Valid() && old_ in c.tree.blocks
  {
    forall h :: h in c.tree.blocks && c.tree.blocks[h].height <= c.tree.blocks[MergeBlock(c.tree, old_, c.top)].height
      ==> h in c.Main()
  }

  /** With two branches nothing strays under a block of the old one. */
  lemma TwoBranchesNoStray(c: Chain, old_: Bytes, tip: Bytes, hash: Bytes, bottom: Bytes)
    requires c.Valid() && old_ in c.tree.blocks && TwoBranches(c, old_) && tip in c.tree.Path(old_)
    requires c.tree.blocks[MergeBlock(c.tree, old_, c.top)].height <= c.tree.blocks[tip].height
    requires hash in c.tree.blocks && bottom in c.tree.blocks
    ensures !Stray(c, hash, bottom, tip)
  {
    var t := c.tree;
    var merge, here := MergeBlock(t, old_, c.top), MergeBlock(t, tip, c.top);
    MergeHighest(t, old_, c.top);
    MergeHighest(t, tip, c.top);
    PathsMeet(t, old_, tip, tip) by { assert t.Path(tip)[0] == tip; }
    assert merge in t.Path(tip) && here in t.Path(old_) by {
      OnPath(t, tip, here);
      OnPath(t, old_, merge);
    }
    PathsMeet(t, tip, c.top, here);
  }

  /** Ordered inputs and two branches make every cancellation of the old branch exact. */
  lemma TwoBranchesClean(c: Chain, old_: Bytes, b: Block)
    requires c.Valid() && old_ in c.tree.blocks && TwoBranches(c, old_) && b in Branches(c.tree, old_, c.top).0
    requires b.prev in c.tree.blocks && InputsOrdered(b, Entries(c.tree, b.prev))
    ensures CleanCancel(c, b)
  {
    var t := c.tree;
    OrderedReached(b, Entries(t, b.prev));
    var m := Merge(t, old_, c.top);
    var i :| 0 <= i < m && Branches(t, old_, c.top).0[i] == b;
    PathStep(t, old_, i);
    PathAt(t, old_, i + 1);
    PathAt(t, old_, m);
    forall op | op in Unspent(Entries(t, b.prev)) && Unspent(Entries(t, b.prev))[op].block in t.blocks
      ensures !StraySpend(c, op, Unspent(Entries(t, b.prev))[op].block, b.prev)
    {
      forall h | h in t.blocks ensures !Stray(c, h, Unspent(Entries(t, b.prev))[op].block, b.prev) {
        TwoBranchesNoStray(c, old_, b.prev, h, Unspent(Entries(t, b.prev))[op].block);
      }
    }
  }
}

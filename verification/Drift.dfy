/**
 How far the incremental unspent outputs can be from those of the full chain when branches
 replace each other: nothing is ever invented, and what is lost is exactly what the lowest
 cancelled block that names its transaction fails to give back
 (node/transactions/unspent.go:546-634, node/nodemanager/node.go:397-425).
 */
module Drift {
  import opened Structures
  import opened BlockTree
  import opened Blockchain
  import opened Ledger
  import opened Soundness
  import opened TransactionIndex
  import opened Cancellation
  import opened Reorganisation

  /** Every output of u is one of v, with the same coin. */
  ghost predicate Within(u: Utxo, v: Utxo) {
    forall op {:trigger op in u} :: op in u ==> op in v && u[op] == v[op]
  }

  // ----- Nothing is invented

  lemma ApplyWithin(u: Utxo, v: Utxo, e: Entry)
    requires Within(u, v)
    ensures Within(Apply(u, e), Apply(v, e))
  {
  }

  lemma {:induction false} ApplyAllWithin(u: Utxo, v: Utxo, es: seq<Entry>)
    requires Within(u, v)
    ensures Within(ApplyAll(u, es), ApplyAll(v, es))
    decreases |es|
  {
    if es != [] {
      ApplyAllWithin(u, v, es[..|es| - 1]);
      ApplyWithin(ApplyAll(u, es[..|es| - 1]), ApplyAll(v, es[..|es| - 1]), es[|es| - 1]);
    }
  }

  /** What cancelling leaves of an output, whatever the cache held before, as long as it held only real outputs. */
  lemma CancelledFrom(c: Chain, u: Utxo, b: Block, op: Outpoint)
    requires c.Valid() && b.prev in c.tree.blocks && Sound(Entries(c.tree, b.prev) + Tag(b))
    requires Within(u, Unspent(Entries(c.tree, b.prev) + Tag(b)))
    ensures var below := Entries(c.tree, b.prev);
            var after := Cancelled(c, u, b);
            && (op in after ==> op in Unspent(below) && after[op] == Unspent(below)[op])
            && (op in Unspent(below) ==>
                  (op in after <==> if op.txid in Reached(b, below) then !Strays(c, op, Unspent(below)[op].block, b.prev) else op in u))
  {
    var below := Entries(c.tree, b.prev);
    var reached := Reached(b, below);
    assert (below + Tag(b))[..|below|] == below;
    SoundPrefix(below + Tag(b), |below|);
    if op.txid in IdsOf(b) {
      CancelledOwn(c, b, op);
    } else if op.txid in reached {
      CancelledRebuilt(c, b, op);
      SameRebuilt(c, u, Unspent(below + Tag(b)), b, op);
    } else {
      BelowAfterBlock(below, b, op);
    }
  }

  /** A stored block off the path is counted as a spender. */
  ghost predicate Strays(c: Chain, op: Outpoint, bottom: Bytes, tip: Bytes)
    requires c.Valid() && tip in c.tree.blocks
  {
    bottom in c.tree.blocks && StraySpend(c, op, bottom, tip)
  }

  /** Rebuilt records do not depend on what was there. */
  lemma SameRebuilt(c: Chain, u: Utxo, v: Utxo, b: Block, op: Outpoint)
    requires c.Valid() && b.prev in c.tree.blocks && op.txid in Reached(b, Entries(c.tree, b.prev))
    ensures op in Cancelled(c, u, b) <==> op in Cancelled(c, v, b)
    ensures op in Cancelled(c, u, b) ==> Cancelled(c, u, b)[op] == Cancelled(c, v, b)[op]
  {
  }

  // ----- What is given back

  /**
   Cancelling the blocks, top first, leaves the output in the cache u: the lowest block whose
   input loops reach its transaction rebuilds it with no stray spend and no block below that one
   spends it; or none reaches it, none spends it and it was there.
   */
  ghost predicate GivenBack(c: Chain, u: Utxo, bs: seq<Block>, op: Outpoint, origin: Bytes)
    requires c.Valid() && forall b :: b in bs ==> b.prev in c.tree.blocks
  {
    if bs == [] then op in u
    else
      var b := bs[|bs| - 1];
      if op.txid in Reached(b, Entries(c.tree, b.prev)) then !Strays(c, op, origin, b.prev)
      else !SpendsOutput(b.txs, op) && GivenBack(c, u, bs[..|bs| - 1], op, origin)
  }

  /** The top n blocks of the path of h, top first. */
  ghost function TopBlocks(t: Tree, h: Bytes, n: nat): (bs: seq<Block>)
    requires t.Valid() && h in t.blocks && n < |t.Path(h)|
    ensures |bs| == n && forall b :: b in bs ==> b.prev in t.blocks
  {
    var bs := BlocksOf(t, t.Path(h)[..n]);
    assert forall b :: b in bs ==> b.prev in t.blocks by {
      forall i | 0 <= i < n ensures bs[i].prev in t.blocks {
        PathStep(t, h, i);
      }
    }
    bs
  }

  lemma TopBlocksStep(t: Tree, h: Bytes, n: nat)
    requires t.Valid() && h in t.blocks && 0 < n < |t.Path(h)|
    ensures var p, bs := t.Path(h), TopBlocks(t, h, n);
            && p[n] in t.blocks && p[n - 1] in t.blocks
            && bs[..n - 1] == TopBlocks(t, h, n - 1) && bs[n - 1] == t.blocks[p[n - 1]] && bs[n - 1].prev == p[n]
            && Entries(t, p[n - 1]) == Entries(t, p[n]) + Tag(bs[n - 1])
  {
    BlocksOfNext(t, t.Path(h), n - 1);
    EntriesAbove(t, h, n - 1);
  }

  /** After the top n blocks of a path are cancelled exactly the outputs given back are left, as they were. */
  ghost predicate LeftAfter(c: Chain, u: Utxo, h: Bytes, n: nat, op: Outpoint)
    requires c.Valid() && h in c.tree.blocks && n < |c.tree.Path(h)|
  {
    && c.tree.Path(h)[n] in c.tree.blocks
    && var below, after := Unspent(Entries(c.tree, c.tree.Path(h)[n])), CancelAll(c, u, TopBlocks(c.tree, h, n));
       && (op in after ==> op in below && after[op] == below[op])
       && (op in below ==> (op in after <==> GivenBack(c, u, TopBlocks(c.tree, h, n), op, below[op].block)))
  }

  /** After the top n blocks of a path are cancelled only real outputs of the block below are left. */
  ghost predicate RealAfter(c: Chain, u: Utxo, h: Bytes, n: nat)
    requires c.Valid() && h in c.tree.blocks && n < |c.tree.Path(h)|
  {
    && c.tree.Path(h)[n] in c.tree.blocks
    && Within(CancelAll(c, u, TopBlocks(c.tree, h, n)), Unspent(Entries(c.tree, c.tree.Path(h)[n])))
  }

  ghost predicate LeftAll(c: Chain, u: Utxo, h: Bytes, n: nat)
    requires c.Valid() && h in c.tree.blocks && n < |c.tree.Path(h)|
  {
    forall op {:trigger LeftAfter(c, u, h, n, op)} :: LeftAfter(c, u, h, n, op)
  }

  lemma {:induction false} CancelDownAll(c: Chain, u: Utxo, h: Bytes, n: nat)
    requires c.Valid() && h in c.tree.blocks && n < |c.tree.Path(h)| && AllSound(c.tree)
    requires Within(u, Unspent(Entries(c.tree, h)))
    ensures LeftAll(c, u, h, n)
    decreases n
  {
    if n > 0 {
      CancelDownAll(c, u, h, n - 1);
      LeftIsReal(c, u, h, n - 1);
    }
    forall op {:trigger LeftAfter(c, u, h, n, op)} ensures LeftAfter(c, u, h, n, op) {
      CancelDownStep(c, u, h, n, op);
    }
  }

  lemma CancelDownStep(c: Chain, u: Utxo, h: Bytes, n: nat, op: Outpoint)
    requires c.Valid() && h in c.tree.blocks && n < |c.tree.Path(h)| && AllSound(c.tree)
    requires Within(u, Unspent(Entries(c.tree, h)))
    requires n > 0 ==> RealAfter(c, u, h, n - 1) && LeftAll(c, u, h, n - 1)
    ensures LeftAfter(c, u, h, n, op)
  {
    if n > 0 {
      CancelDownNext(c, u, h, n, op);
    } else {
      CancelDownNone(c, u, h, op);
    }
  }

  lemma LeftIsReal(c: Chain, u: Utxo, h: Bytes, n: nat)
    requires c.Valid() && h in c.tree.blocks && n < |c.tree.Path(h)| && LeftAll(c, u, h, n)
    ensures RealAfter(c, u, h, n)
  {
    assert LeftAfter(c, u, h, n, Outpoint([], 0));
    var v := CancelAll(c, u, TopBlocks(c.tree, h, n));
    forall q {:trigger q in v} | q in v
      ensures q in Unspent(Entries(c.tree, c.tree.Path(h)[n])) && v[q] == Unspent(Entries(c.tree, c.tree.Path(h)[n]))[q]
    {
      assert LeftAfter(c, u, h, n, q);
    }
  }

  /** Cancelling a branch from its end down leaves real outputs of the block below, exactly those given back. */
  lemma CancelDownAt(c: Chain, u: Utxo, h: Bytes, n: nat, op: Outpoint)
    requires c.Valid() && h in c.tree.blocks && n < |c.tree.Path(h)| && AllSound(c.tree)
    requires Within(u, Unspent(Entries(c.tree, h)))
    ensures LeftAfter(c, u, h, n, op) && RealAfter(c, u, h, n)
  {
    CancelDownAll(c, u, h, n);
    LeftIsReal(c, u, h, n);
  }

  lemma CancelDownNone(c: Chain, u: Utxo, h: Bytes, op: Outpoint)
    requires c.Valid() && h in c.tree.blocks && Within(u, Unspent(Entries(c.tree, h)))
    ensures LeftAfter(c, u, h, 0, op)
  {
    assert c.tree.Path(h)[0] == h && TopBlocks(c.tree, h, 0) == [];
  }

  lemma CancelDownNext(c: Chain, u: Utxo, h: Bytes, n: nat, op: Outpoint)
    requires c.Valid() && h in c.tree.blocks && 0 < n < |c.tree.Path(h)| && AllSound(c.tree)
    requires LeftAll(c, u, h, n - 1) && RealAfter(c, u, h, n - 1)
    ensures LeftAfter(c, u, h, n, op)
  {
    var bs := TopBlocks(c.tree, h, n);
    assert LeftAfter(c, u, h, n - 1, op);
    TopBlocksStep(c.tree, h, n);
    CancelStep(c, u, bs);
    CancelNext(c, u, CancelAll(c, u, bs[..n - 1]), bs, op);
  }

  lemma CancelStep(c: Chain, u: Utxo, bs: seq<Block>)
    requires c.Valid() && bs != [] && forall b :: b in bs ==> b.prev in c.tree.blocks
    ensures CancelAll(c, u, bs) == Cancelled(c, CancelAll(c, u, bs[..|bs| - 1]), bs[|bs| - 1])
  {
  }

  /** The last block to be cancelled, given what the ones above it leave. */
  lemma CancelNext(c: Chain, u: Utxo, v: Utxo, bs: seq<Block>, op: Outpoint)
    requires c.Valid() && bs != [] && forall b :: b in bs ==> b.prev in c.tree.blocks
    requires var b := bs[|bs| - 1];
             var above := Unspent(Entries(c.tree, b.prev) + Tag(b));
             && Sound(Entries(c.tree, b.prev) + Tag(b)) && Within(v, above)
             && (op in above ==> (op in v <==> GivenBack(c, u, bs[..|bs| - 1], op, above[op].block)))
    ensures var b := bs[|bs| - 1];
            var below, after := Unspent(Entries(c.tree, b.prev)), Cancelled(c, v, b);
            && (op in after ==> op in below && after[op] == below[op])
            && (op in below ==> (op in after <==> GivenBack(c, u, bs, op, below[op].block)))
  {
    CancelledFrom(c, v, bs[|bs| - 1], op);
    if op in Unspent(Entries(c.tree, bs[|bs| - 1].prev)) {
      OutputAbove(c, bs[|bs| - 1], op);
    }
  }

  lemma OutputAbove(c: Chain, b: Block, op: Outpoint)
    requires c.Valid() && b.prev in c.tree.blocks && Sound(Entries(c.tree, b.prev) + Tag(b))
    requires op in Unspent(Entries(c.tree, b.prev))
    ensures var above := Unspent(Entries(c.tree, b.prev) + Tag(b));
            && (op in above <==> !SpendsOutput(b.txs, op))
            && (op in above ==> above[op] == Unspent(Entries(c.tree, b.prev))[op])
  {
    var below := Entries(c.tree, b.prev);
    if op.txid in IdsOf(b) {
      CancelledOwn(c, b, op);
    }
    BelowAfterBlock(below, b, op);
  }

  // ----- What stays lost

  /** Entries added on both sides neither restore what is missing nor lose more. */
  lemma {:induction false} MissingStays(es: seq<Entry>, fs: seq<Entry>, u: Utxo, op: Outpoint)
    requires UniqueIds(es + fs) && Within(u, Unspent(es))
    ensures op in ApplyAll(u, fs) <==> op in Unspent(es + fs) && (op in Unspent(es) ==> op in u)
    decreases |fs|
  {
    if fs == [] {
      assert es + fs == es;
    } else {
      var init, last := fs[..|fs| - 1], fs[|fs| - 1];
      assert init + [last] == fs;
      FirstEntries(es, init, last);
      MissingStays(es, init, u, op);
      ApplyAllWithin(u, Unspent(es), init);
      ApplyAllAppend(map[], es, init);
      if op in Unspent(es) {
        UnspentHasOlderId(es, es + fs, op);
      }
      MissingApplied(ApplyAll(u, init), Unspent(es + init), last, op, op in Unspent(es), op in u);
    }
  }

  lemma FirstEntries(es: seq<Entry>, init: seq<Entry>, last: Entry)
    requires UniqueIds(es + (init + [last]))
    ensures es + (init + [last]) == es + init + [last] && UniqueIds(es + init)
  {
    assert es + (init + [last]) == es + init + [last];
    assert forall i :: 0 <= i < |es + init| ==> (es + init)[i] == (es + init + [last])[i];
  }

  lemma MissingApplied(u: Utxo, v: Utxo, e: Entry, op: Outpoint, was: bool, is_: bool)
    requires Within(u, v) && (op in u <==> op in v && (was ==> is_)) && (was ==> op.txid != e.tx.id)
    ensures op in Apply(u, e) <==> op in Apply(v, e) && (was ==> is_)
  {
  }

  /** An unspent output of a part of the chain belongs to none of the later transactions. */
  lemma UnspentHasOlderId(es: seq<Entry>, all: seq<Entry>, op: Outpoint)
    requires es <= all && |es| < |all| && UniqueIds(all) && op in Unspent(es)
    ensures op.txid != all[|all| - 1].tx.id
  {
    assert UniqueIds(es);
    UnspentMeaning(es, op);
    var i :| 0 <= i < |es| && es[i].tx.id == op.txid;
    assert all[i] == es[i];
  }

  /** Adding a branch from its start up adds its entries. */
  lemma {:induction false} AddAllIs(t: Tree, h: Bytes, n: nat, u: Utxo)
    requires t.Valid() && h in t.blocks && n < |t.Path(h)|
    ensures t.Path(h)[n] in t.blocks && Entries(t, t.Path(h)[n]) <= Entries(t, h)
    ensures AddAll(u, Reversed(TopBlocks(t, h, n))) == ApplyAll(u, Entries(t, h)[|Entries(t, t.Path(h)[n])|..])
    decreases n
  {
    if n > 0 {
      TopBlocksBelow(t, h, n);
      var prev := t.Path(h)[1];
      AddAllIs(t, prev, n - 1, u);
      LastAdded(u, Reversed(TopBlocks(t, prev, n - 1)), t.blocks[h], Entries(t, t.Path(h)[n]), Entries(t, prev));
    }
  }

  lemma TopBlocksBelow(t: Tree, h: Bytes, n: nat)
    requires t.Valid() && h in t.blocks && 0 < n < |t.Path(h)|
    ensures var prev := t.Path(h)[1];
            && prev in t.blocks && n - 1 < |t.Path(prev)| && t.Path(prev)[n - 1] == t.Path(h)[n]
            && Reversed(TopBlocks(t, h, n)) == Reversed(TopBlocks(t, prev, n - 1)) + [t.blocks[h]]
            && Entries(t, h) == Entries(t, prev) + Tag(t.blocks[h])
  {
    var prev := t.Path(h)[1];
    EntriesAbove(t, h, 0);
    PathAt(t, h, 1);
    assert t.Path(prev) == t.Path(h)[1..];
    var bs, cs := TopBlocks(t, h, n), TopBlocks(t, prev, n - 1);
    forall i | 0 <= i < n - 1 ensures bs[i + 1] == cs[i] {
      assert t.Path(prev)[i] == t.Path(h)[i + 1];
    }
    FirstApart(bs, cs, t.blocks[h]);
  }

  lemma FirstApart<T>(s: seq<T>, rest: seq<T>, x: T)
    requires |s| == |rest| + 1 && s[0] == x && forall i :: 0 <= i < |rest| ==> s[i + 1] == rest[i]
    ensures Reversed(s) == Reversed(rest) + [x]
  {
  }

  lemma FromAppend<T>(a: seq<T>, b: seq<T>, n: nat)
    requires n <= |a|
    ensures (a + b)[n..] == a[n..] + b
  {
  }

  lemma LastAdded(u: Utxo, bs: seq<Block>, b: Block, below: seq<Entry>, mid: seq<Entry>)
    requires below <= mid && AddAll(u, bs) == ApplyAll(u, mid[|below|..])
    ensures AddAll(u, bs + [b]) == ApplyAll(u, (mid + Tag(b))[|below|..])
  {
    FromAppend(mid, Tag(b), |below|);
    ApplyAllAppend(u, mid[|below|..], Tag(b));
    assert (bs + [b])[..|bs|] == bs;
  }

  /** Adding the blocks from place n of the path of h up to h: what is missing below stays missing. */
  lemma AddedUp(t: Tree, h: Bytes, n: nat, u: Utxo, op: Outpoint)
    requires t.Valid() && h in t.blocks && n < |t.Path(h)| && t.Path(h)[n] in t.blocks
    requires Sound(Entries(t, h)) && Within(u, Unspent(Entries(t, t.Path(h)[n])))
    ensures var after, exact := AddAll(u, Reversed(TopBlocks(t, h, n))), Unspent(Entries(t, h));
            && (op in after <==> op in exact && (op in Unspent(Entries(t, t.Path(h)[n])) ==> op in u))
            && (op in after ==> after[op] == exact[op])
  {
    AddAllIs(t, h, n, u);
    AddedEntries(Entries(t, t.Path(h)[n]), Entries(t, h), u, op);
  }

  lemma AddedEntries(below: seq<Entry>, all: seq<Entry>, u: Utxo, op: Outpoint)
    requires below <= all && UniqueIds(all) && Within(u, Unspent(below))
    ensures var after := ApplyAll(u, all[|below|..]);
            && (op in after <==> op in Unspent(all) && (op in Unspent(below) ==> op in u))
            && (op in after ==> after[op] == Unspent(all)[op])
  {
    var rest := all[|below|..];
    assert all == below + rest;
    MissingStays(below, rest, u, op);
    ApplyAllWithin(u, Unspent(below), rest);
    ApplyAllAppend(map[], below, rest);
  }

  // ----- A whole replacement

  /** The two branches of a replacement meet in one block. */
  lemma BranchesAre(c: Chain, old_: Bytes)
    requires c.Valid() && old_ in c.tree.blocks
    ensures var t, m, n := c.tree, Merge(c.tree, old_, c.top), Merge(c.tree, c.top, old_);
            && t.Path(old_)[m] == t.Path(c.top)[n] == MergeBlock(t, old_, c.top) && t.Path(old_)[m] in t.blocks
            && Branches(t, old_, c.top).0 == TopBlocks(t, old_, m)
            && Branches(t, old_, c.top).1 == Reversed(TopBlocks(t, c.top, n))
  {
    MergeHighest(c.tree, old_, c.top);
  }

  /** The output is unspent below the old branch and on the new one, but the cancelled blocks do not give it back. */
  ghost predicate Lost(c: Chain, u: Utxo, old_: Bytes, op: Outpoint)
    requires c.Valid() && old_ in c.tree.blocks
  {
    BranchesAre(c, old_);
    LostFrom(c, u, op, Entries(c.tree, MergeBlock(c.tree, old_, c.top)), TopBlocks(c.tree, old_, Merge(c.tree, old_, c.top)))
  }

  ghost predicate AllGivenBack(c: Chain, u: Utxo, old_: Bytes)
    requires c.Valid() && old_ in c.tree.blocks
  {
    forall op :: !Lost(c, u, old_, op)
  }

  ghost predicate LostFrom(c: Chain, u: Utxo, op: Outpoint, below: seq<Entry>, bs: seq<Block>)
    requires c.Valid() && forall b :: b in bs ==> b.prev in c.tree.blocks
  {
    && op in Unspent(below) && op in Unspent(Entries(c.tree, c.top))
    && !GivenBack(c, u, bs, op, Unspent(below)[op].block)
  }

  lemma ReorganisedIs(c: Chain, u: Utxo, old_: Bytes)
    requires c.Valid() && old_ in c.tree.blocks
    ensures var t, m, n := c.tree, Merge(c.tree, old_, c.top), Merge(c.tree, c.top, old_);
            Reorganised(c, u, old_) == AddAll(CancelAll(c, u, TopBlocks(t, old_, m)), Reversed(TopBlocks(t, c.top, n)))
  {
    BranchesAre(c, old_);
  }

  /**
   A branch replacement that starts from real unspent outputs of the old chain ends with real
   ones of the new chain, and lacks exactly the lost ones.
   */
  lemma ReorganisedAt(c: Chain, u: Utxo, old_: Bytes, op: Outpoint)
    requires c.Valid() && old_ in c.tree.blocks && AllSound(c.tree) && Within(u, Unspent(Entries(c.tree, old_)))
    ensures var after, exact := Reorganised(c, u, old_), Unspent(Entries(c.tree, c.top));
            && (op in after <==> op in exact && !Lost(c, u, old_, op))
            && (op in after ==> after[op] == exact[op])
  {
    var m, n := Merge(c.tree, old_, c.top), Merge(c.tree, c.top, old_);
    BranchesAre(c, old_);
    ReorganisedIs(c, u, old_);
    assert Lost(c, u, old_, op) == LostFrom(c, u, op, Entries(c.tree, c.tree.Path(old_)[m]), TopBlocks(c.tree, old_, m));
    SwappedAt(c, u, old_, m, n, op);
  }

  lemma SwappedAt(c: Chain, u: Utxo, old_: Bytes, m: nat, n: nat, op: Outpoint)
    requires c.Valid() && old_ in c.tree.blocks && AllSound(c.tree) && Within(u, Unspent(Entries(c.tree, old_)))
    requires m < |c.tree.Path(old_)| && n < |c.tree.Path(c.top)|
    requires c.tree.Path(old_)[m] == c.tree.Path(c.top)[n] && c.tree.Path(c.top)[n] in c.tree.blocks
    ensures var exact := Unspent(Entries(c.tree, c.top));
            var after := AddAll(CancelAll(c, u, TopBlocks(c.tree, old_, m)), Reversed(TopBlocks(c.tree, c.top, n)));
            && (op in after <==> op in exact && !LostFrom(c, u, op, Entries(c.tree, c.tree.Path(old_)[m]), TopBlocks(c.tree, old_, m)))
            && (op in after ==> after[op] == exact[op])
  {
    CancelDownAt(c, u, old_, m, op);
    AddedUp(c.tree, c.top, n, CancelAll(c, u, TopBlocks(c.tree, old_, m)), op);
  }

  /** So it invents nothing, and is exact if and only if nothing is lost. */
  lemma ReorganisedIff(c: Chain, u: Utxo, old_: Bytes)
    requires c.Valid() && old_ in c.tree.blocks && AllSound(c.tree) && Within(u, Unspent(Entries(c.tree, old_)))
    ensures Within(Reorganised(c, u, old_), Unspent(Entries(c.tree, c.top)))
    ensures Reorganised(c, u, old_) == Unspent(Entries(c.tree, c.top)) <==> AllGivenBack(c, u, old_)
  {
    var after, exact := Reorganised(c, u, old_), Unspent(Entries(c.tree, c.top));
    forall op ensures Lost(c, u, old_, op) <==> op in exact && op !in after
              ensures op in after ==> op in exact && after[op] == exact[op]
    {
      ReorganisedAt(c, u, old_, op);
    }
    SameIff(after, exact);
  }

  lemma SameIff(u: Utxo, v: Utxo)
    requires Within(u, v)
    ensures u == v <==> forall op :: op in v ==> op in u
  {
  }

  /** When every block of the old branch cancels exactly, nothing is lost. */
  lemma CleanLosesNothing(c: Chain, old_: Bytes)
    requires c.Valid() && old_ in c.tree.blocks && AllSound(c.tree) && CleanBranch(c, old_)
    ensures AllGivenBack(c, Unspent(Entries(c.tree, old_)), old_)
  {
    ReorganisationExact(c, old_);
    ReorganisedIff(c, Unspent(Entries(c.tree, old_)), old_);
  }
}

/**
 When nodes that are sent the same valid blocks agree: a block is stored exactly when no stray
 block interferes on its arrival, so the order of arrival can matter
 (node/nodemanager/blockchain.go:95-127, node/blockchain/manager.go:119-155).
 */
module Agreement {
  import opened Structures
  import opened BlockTree
  import opened ChainDB
  import opened Blockchain
  import opened ForkChoice
  import opened Ledger
  import opened Validity
  import opened NodeRuns

  // ----- Histories

  /** The states of a node, which is in order at first, while the blocks arrive one by one. */
  ghost predicate History(crypto: Crypto, rs: seq<NodeState>, bs: seq<Block>) {
    && |rs| == |bs| + 1 && NodeInv(crypto, rs[0])
    && forall k {:trigger Moves(crypto, rs, bs, k)} :: 0 <= k < |bs| ==> Moves(crypto, rs, bs, k)
  }

  ghost predicate Moves(crypto: Crypto, rs: seq<NodeState>, bs: seq<Block>, k: nat)
    requires |rs| == |bs| + 1 && k < |bs|
  {
    rs[k].chain.Valid() && Incoming(rs[k], bs[k]) && rs[k + 1] == Step(crypto, rs[k], bs[k])
  }

  lemma {:induction false} HistoryInv(crypto: Crypto, rs: seq<NodeState>, bs: seq<Block>, k: nat)
    requires History(crypto, rs, bs) && k <= |bs|
    ensures NodeInv(crypto, rs[k])
    decreases k
  {
    if k > 0 {
      HistoryInv(crypto, rs, bs, k - 1);
      assert Moves(crypto, rs, bs, k - 1);
      MoveKeepsInv(crypto, rs[k - 1], bs[k - 1], rs[k]);
    }
  }

  lemma MoveKeepsInv(crypto: Crypto, s: NodeState, b: Block, r: NodeState)
    requires NodeInv(crypto, s) && Incoming(s, b) && r == Step(crypto, s, b)
    ensures NodeInv(crypto, r)
  {
    StepKeepsInv(crypto, s, b);
  }

  /** The blocks arrive one by one. */
  function Arrivals(bs: seq<Block>): (es: seq<Event>)
    ensures |es| == |bs| && forall i :: 0 <= i < |bs| ==> es[i] == BlockArrives(bs[i])
  {
    seq(|bs|, i requires 0 <= i < |bs| => BlockArrives(bs[i]))
  }

  /** Every run of blocks has a history that ends where the run ends. */
  lemma {:induction false} RunHasHistory(crypto: Crypto, s: NodeState, bs: seq<Block>) returns (rs: seq<NodeState>)
    requires NodeInv(crypto, s) && RunFit(crypto, s, Arrivals(bs))
    ensures History(crypto, rs, bs) && rs[0] == s && rs[|bs|] == After(crypto, s, Arrivals(bs))
    decreases |bs|
  {
    if bs == [] {
      assert Arrivals(bs) == [];
      rs := HistoryStart(crypto, s);
    } else {
      var init, last := bs[..|bs| - 1], bs[|bs| - 1];
      var r := LastArrives(crypto, s, bs, init, last);
      var part := RunHasHistory(crypto, s, init);
      rs := HistoryNext(crypto, part, init, last, bs);
    }
  }

  lemma HistoryStart(crypto: Crypto, s: NodeState) returns (rs: seq<NodeState>)
    requires NodeInv(crypto, s)
    ensures rs == [s] && History(crypto, rs, []) && After(crypto, s, []) == s
  {
    rs := [s];
  }

  lemma LastArrives(crypto: Crypto, s: NodeState, bs: seq<Block>, init: seq<Block>, b: Block) returns (r: NodeState)
    requires NodeInv(crypto, s) && |bs| == |init| + 1 && init == bs[..|bs| - 1] && b == bs[|bs| - 1] && RunFit(crypto, s, Arrivals(bs))
    ensures RunFit(crypto, s, Arrivals(init)) && r == After(crypto, s, Arrivals(init)) && NodeInv(crypto, r) && Incoming(r, b)
    ensures After(crypto, s, Arrivals(bs)) == Step(crypto, r, b)
  {
    assert Arrivals(init) == Arrivals(bs)[..|bs| - 1];
    AfterStep(crypto, s, Arrivals(bs));
    RunKeepsInv(crypto, s, Arrivals(init));
    r := After(crypto, s, Arrivals(init));
  }

  lemma HistoryNext(crypto: Crypto, part: seq<NodeState>, init: seq<Block>, b: Block, bs: seq<Block>) returns (rs: seq<NodeState>)
    requires History(crypto, part, init) && NodeInv(crypto, part[|init|]) && Incoming(part[|init|], b)
    requires |bs| == |init| + 1 && init == bs[..|bs| - 1] && b == bs[|bs| - 1]
    ensures History(crypto, rs, bs) && rs[0] == part[0] && rs[|bs|] == Step(crypto, part[|init|], b)
  {
    rs := part + [Step(crypto, part[|init|], b)];
    forall k {:trigger Moves(crypto, rs, bs, k)} | 0 <= k < |bs| ensures Moves(crypto, rs, bs, k) {
      if k < |init| {
        assert Moves(crypto, part, init, k);
        SameMoves(crypto, part, init, rs, bs, k);
      }
    }
  }

  lemma SameMoves(crypto: Crypto, part: seq<NodeState>, init: seq<Block>, rs: seq<NodeState>, bs: seq<Block>, k: nat)
    requires |part| == |init| + 1 && |rs| == |bs| + 1 && part <= rs && init <= bs && k < |init|
    ensures Moves(crypto, rs, bs, k) <==> Moves(crypto, part, init, k)
  {
    assert part[k] == rs[k] && part[k + 1] == rs[k + 1] && init[k] == bs[k];
  }

  // ----- What is to be stored

  ghost predicate HashIn(bs: seq<Block>, h: Bytes) {
    exists i :: 0 <= i < |bs| && bs[i].hash == h
  }

  ghost predicate ApartHashes(bs: seq<Block>) {
    forall i, j :: 0 <= i < j < |bs| ==> bs[i].hash != bs[j].hash
  }

  /** The listed blocks are what tree t holds beyond tree s, each once and after its parent. */
  ghost predicate Delivers(s: Tree, bs: seq<Block>, t: Tree) {
    && t.Valid() && t.genesis == s.genesis
    && (forall h :: h in t.blocks <==> h in s.blocks || HashIn(bs, h))
    && (forall h :: h in s.blocks ==> h in t.blocks && t.blocks[h] == s.blocks[h] && !HashIn(bs, h))
    && (forall i {:trigger bs[i]} :: 0 <= i < |bs| ==> bs[i].hash in t.blocks && t.blocks[bs[i].hash] == bs[i])
    && ApartHashes(bs)
    && (forall i {:trigger ParentFirst(s, bs, i)} :: 0 <= i < |bs| ==> ParentFirst(s, bs, i))
  }

  ghost predicate ParentFirst(s: Tree, bs: seq<Block>, i: nat)
    requires i < |bs|
  {
    bs[i].prev in s.blocks || HashIn(bs[..i], bs[i].prev)
  }

  /** The block is valid where it stands: proof of work, numbers, reward, and a proper path. */
  ghost predicate ValidThere(crypto: Crypto, b: Block, t: Tree)
    requires t.Valid()
  {
    b.prev in t.blocks && crypto.powValid(b) && ProperBlock(t, crypto, b)
  }

  ghost predicate AllValid(crypto: Crypto, bs: seq<Block>, t: Tree)
    requires t.Valid()
  {
    forall i {:trigger ValidThere(crypto, bs[i], t)} :: 0 <= i < |bs| ==> ValidThere(crypto, bs[i], t)
  }

  /** The blocks lead from one tree to the other, are valid in it, and these are the states while they arrive. */
  ghost predicate Sent(crypto: Crypto, rs: seq<NodeState>, bs: seq<Block>, t: Tree) {
    History(crypto, rs, bs) && Delivers(rs[0].chain.tree, bs, t) && AllValid(crypto, bs, t)
  }

  /** When block k arrives no stray block counts as spending one of its inputs. */
  ghost predicate Unimpeded(r: NodeState, b: Block) {
    r.chain.Valid() && b.prev in r.chain.tree.blocks && NoStrays(r.chain, b)
  }

  ghost predicate AllUnimpeded(rs: seq<NodeState>, bs: seq<Block>, n: nat)
    requires |rs| == |bs| + 1 && n <= |bs|
  {
    forall k {:trigger Unimpeded(rs[k], bs[k])} :: 0 <= k < n ==> Unimpeded(rs[k], bs[k])
  }

  /** The tree is s with the first k blocks. */
  ghost predicate HasPart(r: Tree, s: Tree, bs: seq<Block>, k: nat, t: Tree)
    requires k <= |bs|
  {
    r.genesis == t.genesis && forall h {:trigger PartAt(r, s, bs, k, t, h)} :: PartAt(r, s, bs, k, t, h)
  }

  /** After k blocks of a history the tree is the first one with those k. */
  ghost predicate Part(rs: seq<NodeState>, bs: seq<Block>, k: nat, t: Tree)
    requires |rs| == |bs| + 1 && k <= |bs|
  {
    HasPart(rs[k].chain.tree, rs[0].chain.tree, bs, k, t)
  }

  ghost predicate PartAt(r: Tree, s: Tree, bs: seq<Block>, k: nat, t: Tree, h: Bytes)
    requires k <= |bs|
  {
    && (h in r.blocks <==> h in s.blocks || HashIn(bs[..k], h))
    && (h in r.blocks ==> h in t.blocks && r.blocks[h] == t.blocks[h])
  }

  lemma PartHolds(r: Tree, s: Tree, bs: seq<Block>, k: nat, t: Tree)
    requires k <= |bs| && HasPart(r, s, bs, k, t)
    ensures forall h :: h in r.blocks <==> h in s.blocks || HashIn(bs[..k], h)
    ensures forall h :: h in r.blocks ==> h in t.blocks && r.blocks[h] == t.blocks[h]
  {
    forall h ensures h in r.blocks <==> h in s.blocks || HashIn(bs[..k], h)
             ensures h in r.blocks ==> h in t.blocks && r.blocks[h] == t.blocks[h]
    {
      assert PartAt(r, s, bs, k, t, h);
    }
  }

  /** A valid block whose parent is stored is admitted, in a part of the tree, if and only if nothing strays. */
  lemma AdmittedIff(crypto: Crypto, r: NodeState, b: Block, t: Tree)
    requires NodeInv(crypto, r) && Incoming(r, b) && b.prev in r.chain.tree.blocks && b.hash !in r.chain.tree.blocks
    requires t.Valid() && t.genesis == r.chain.tree.genesis && b.prev in t.blocks && crypto.powValid(b) && ProperBlock(t, crypto, b)
    requires forall h :: h in r.chain.tree.blocks ==> h in t.blocks && r.chain.tree.blocks[h] == t.blocks[h]
    ensures Admitted(crypto, r.chain, b) <==> NoStrays(r.chain, b)
  {
    var u := r.chain.tree;
    EntriesFrame(u, t, b.prev);
    assert ProperAt(crypto, u, b.prev);
    assert ProperBlock(u, crypto, b);
    BlockAcceptedIff(r.chain, crypto, b);
  }

  lemma PartAfter(crypto: Crypto, r: NodeState, s: Tree, bs: seq<Block>, k: nat, t: Tree)
    requires NodeInv(crypto, r) && k < |bs| && Incoming(r, bs[k])
    requires Delivers(s, bs, t) && AllValid(crypto, bs, t) && HasPart(r.chain.tree, s, bs, k, t)
    ensures bs[k].prev in r.chain.tree.blocks
    ensures if NoStrays(r.chain, bs[k]) then HasPart(Step(crypto, r, bs[k]).chain.tree, s, bs, k + 1, t)
            else bs[k].hash !in Step(crypto, r, bs[k]).chain.tree.blocks
  {
    NotYet(bs, k);
    PartHolds(r.chain.tree, s, bs, k, t);
    assert bs[k].hash !in s.blocks && ParentFirst(s, bs, k) && ValidThere(crypto, bs[k], t);
    AdmittedIff(crypto, r, bs[k], t);
    StepChain(crypto, r, bs[k]);
    if NoStrays(r.chain, bs[k]) {
      PartAdded(r.chain.tree, s, bs, k, t);
    }
  }

  lemma PartAdded(r: Tree, s: Tree, bs: seq<Block>, k: nat, t: Tree)
    requires k < |bs| && HasPart(r, s, bs, k, t) && bs[k].hash in t.blocks && t.blocks[bs[k].hash] == bs[k]
    ensures HasPart(r.Add(bs[k]), s, bs, k + 1, t)
  {
    HashInNext(bs, k);
    PartHolds(r, s, bs, k, t);
  }

  lemma NotYet(bs: seq<Block>, k: nat)
    requires k < |bs| && ApartHashes(bs)
    ensures !HashIn(bs[..k], bs[k].hash) && HashIn(bs, bs[k].hash)
  {
  }

  lemma HashInNext(bs: seq<Block>, k: nat)
    requires k < |bs|
    ensures forall h :: HashIn(bs[..k + 1], h) <==> HashIn(bs[..k], h) || h == bs[k].hash
  {
    forall h ensures HashIn(bs[..k + 1], h) <==> HashIn(bs[..k], h) || h == bs[k].hash {
      if HashIn(bs[..k], h) {
        var i :| 0 <= i < k && bs[..k][i].hash == h;
        assert bs[..k + 1][i].hash == h;
      }
      assert bs[..k + 1][k] == bs[k];
    }
  }

  /** A block refused on its only arrival is never stored. */
  lemma {:induction false} StaysOut(crypto: Crypto, rs: seq<NodeState>, bs: seq<Block>, k: nat, n: nat)
    requires History(crypto, rs, bs) && k < n <= |bs| && ApartHashes(bs) && bs[k].hash !in rs[k + 1].chain.tree.blocks
    ensures bs[k].hash !in rs[n].chain.tree.blocks
    decreases n
  {
    if n > k + 1 {
      StaysOut(crypto, rs, bs, k, n - 1);
      OutMoved(crypto, rs, bs, n - 1, bs[k].hash);
    }
  }

  lemma OutMoved(crypto: Crypto, rs: seq<NodeState>, bs: seq<Block>, n: nat, h: Bytes)
    requires History(crypto, rs, bs) && n < |bs| && h != bs[n].hash && h !in rs[n].chain.tree.blocks
    ensures h !in rs[n + 1].chain.tree.blocks
  {
    assert Moves(crypto, rs, bs, n);
    OutAfter(crypto, rs[n], bs[n], h);
  }

  lemma OutAfter(crypto: Crypto, r: NodeState, b: Block, h: Bytes)
    requires r.chain.Valid() && r.chain.Acceptable(b) && h !in r.chain.tree.blocks && h != b.hash
    ensures h !in Step(crypto, r, b).chain.tree.blocks
  {
    StepChain(crypto, r, b);
  }

  lemma {:induction false} PartsStored(crypto: Crypto, rs: seq<NodeState>, bs: seq<Block>, k: nat, t: Tree)
    requires Sent(crypto, rs, bs, t) && k <= |bs| && AllUnimpeded(rs, bs, k)
    ensures Part(rs, bs, k, t)
    decreases k
  {
    if k == 0 {
      StartPart(rs, bs, k, t);
    } else {
      FewerUnimpeded(rs, bs, k - 1, k);
      PartsStored(crypto, rs, bs, k - 1, t);
      MovePart(crypto, rs, bs, k - 1, k, t);
    }
  }

  lemma FewerUnimpeded(rs: seq<NodeState>, bs: seq<Block>, k: nat, n: nat)
    requires |rs| == |bs| + 1 && n == k + 1 <= |bs| && AllUnimpeded(rs, bs, n)
    ensures AllUnimpeded(rs, bs, k) && Unimpeded(rs[k], bs[k])
  {
  }

  lemma StartPart(rs: seq<NodeState>, bs: seq<Block>, k: nat, t: Tree)
    requires |rs| == |bs| + 1 && k == 0 && Delivers(rs[0].chain.tree, bs, t)
    ensures Part(rs, bs, k, t)
  {
    assert forall h :: !HashIn(bs[..0], h);
  }

  lemma MovePart(crypto: Crypto, rs: seq<NodeState>, bs: seq<Block>, k: nat, n: nat, t: Tree)
    requires Sent(crypto, rs, bs, t) && n == k + 1 <= |bs| && Part(rs, bs, k, t)
    ensures Unimpeded(rs[k], bs[k]) ==> Part(rs, bs, n, t)
    ensures !Unimpeded(rs[k], bs[k]) ==> bs[k].hash !in rs[n].chain.tree.blocks
  {
    assert Moves(crypto, rs, bs, k);
    HistoryInv(crypto, rs, bs, k);
    PartAfter(crypto, rs[k], rs[0].chain.tree, bs, k, t);
  }

  /** A node that is sent valid blocks, parents first, stores them all if and only if none is impeded by a stray one. */
  lemma DeliveredIff(crypto: Crypto, rs: seq<NodeState>, bs: seq<Block>, t: Tree)
    requires Sent(crypto, rs, bs, t)
    ensures rs[|bs|].chain.tree == t <==> AllUnimpeded(rs, bs, |bs|)
  {
    if AllUnimpeded(rs, bs, |bs|) {
      PartsStored(crypto, rs, bs, |bs|, t);
      WholePart(rs[|bs|].chain.tree, rs[0].chain.tree, bs, t);
    } else {
      var k := FirstImpeded(rs, bs, |bs|);
      PartsStored(crypto, rs, bs, k, t);
      MovePart(crypto, rs, bs, k, k + 1, t);
      StaysOut(crypto, rs, bs, k, |bs|);
      assert bs[k].hash in t.blocks;
    }
  }

  lemma WholePart(r: Tree, s: Tree, bs: seq<Block>, t: Tree)
    requires Delivers(s, bs, t) && HasPart(r, s, bs, |bs|, t)
    ensures r == t
  {
    assert bs[..|bs|] == bs;
    PartHolds(r, s, bs, |bs|, t);
    assert r.blocks == t.blocks;
  }

  lemma {:induction false} FirstImpeded(rs: seq<NodeState>, bs: seq<Block>, n: nat) returns (k: nat)
    requires |rs| == |bs| + 1 && n <= |bs| && !AllUnimpeded(rs, bs, n)
    ensures k < n && !Unimpeded(rs[k], bs[k]) && AllUnimpeded(rs, bs, k)
    decreases n
  {
    if AllUnimpeded(rs, bs, n - 1) {
      k := n - 1;
    } else {
      k := FirstImpeded(rs, bs, n - 1);
    }
  }

  /**
   Two nodes that are sent the same valid blocks, each in its own order, end with the whole tree
   both if and only if neither is ever impeded by a stray block; with a unique highest block they
   then have the same top, main chain and chain bucket, and the same unspent outputs if exact.
   */
  lemma NodesAgree(crypto: Crypto, rs: seq<NodeState>, bs: seq<Block>, qs: seq<NodeState>, cs: seq<Block>, t: Tree, highest: Bytes,
                   x: map<Bytes, Bytes>, y: map<Bytes, Bytes>)
    requires Sent(crypto, rs, bs, t) && Sent(crypto, qs, cs, t) && UniqueHighest(t, highest)
    ensures var p, q := rs[|bs|], qs[|cs|];
            && (p.chain.tree == t && q.chain.tree == t <==> AllUnimpeded(rs, bs, |bs|) && AllUnimpeded(qs, cs, |cs|))
            && (AllUnimpeded(rs, bs, |bs|) && AllUnimpeded(qs, cs, |cs|) ==>
                  && p.chain == q.chain == Chain(t, highest)
                  && (IsIndex(x, p.chain.Main()) && IsIndex(y, p.chain.Main()) ==> x == y)
                  && (UtxoExact(p) && UtxoExact(q) ==> p.utxo == q.utxo))
  {
    DeliveredIff(crypto, rs, bs, t);
    DeliveredIff(crypto, qs, cs, t);
    HistoryInv(crypto, rs, bs, |bs|);
    HistoryInv(crypto, qs, cs, |cs|);
    if AllUnimpeded(rs, bs, |bs|) && AllUnimpeded(qs, cs, |cs|) {
      SameTree(crypto, rs[|bs|], qs[|cs|], highest, x, y);
    }
  }

  lemma SameTree(crypto: Crypto, p: NodeState, q: NodeState, highest: Bytes, x: map<Bytes, Bytes>, y: map<Bytes, Bytes>)
    requires NodeInv(crypto, p) && NodeInv(crypto, q) && p.chain.tree == q.chain.tree && UniqueHighest(p.chain.tree, highest)
    ensures p.chain == q.chain == Chain(p.chain.tree, highest)
    ensures IsIndex(x, p.chain.Main()) && IsIndex(y, p.chain.Main()) ==> x == y
    ensures UtxoExact(p) && UtxoExact(q) ==> p.utxo == q.utxo
  {
    TopIs(p.chain, highest);
    TopIs(q.chain, highest);
    if IsIndex(x, p.chain.Main()) && IsIndex(y, p.chain.Main()) {
      IndexUnique(x, y, p.chain.Main());
    }
  }

  lemma TopIs(c: Chain, highest: Bytes)
    requires c.Valid() && TopIsHighest(c) && UniqueHighest(c.tree, highest)
    ensures c.top == highest
  {
  }
}

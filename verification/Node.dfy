/**
 The node: the gate a block passes before it is stored, and the caches that follow the chain
 (node/nodemanager/blockchain.go, node/nodemanager/node.go).
 */
module Node {
  import opened Structures
  import opened BlockTree
  import opened ChainDB
  import opened Blockchain
  import opened ForkChoice
  import opened Ledger
  import opened Soundness
  import opened TransactionIndex
  import opened Cancellation
  import opened Pool
  import opened Acceptance
  import opened OutputRecords
  import opened TransactionsManager
  import opened Consensus
  import opened Reorganisation
  import opened PoolReorganisation
  import opened NodeRuns
  import opened Payment

  datatype BlockState = CanAdd | Exists | NotExistAndPrevNotExist

  /** The answer for a block that is not stored: it is known, it lacks its parent, or it fails verification, which is an error. */
  ghost predicate RefusedFor(crypto: Crypto, c: Chain, b: Block, r: Result<AddState>)
    requires c.Valid()
  {
    && (b.hash in c.tree.blocks ==> r == Ok(NotAddedExists))
    && (b.hash !in c.tree.blocks && b.prev !in c.tree.blocks ==> r == Ok(NotAddedNoPrev))
    && (b.hash !in c.tree.blocks && b.prev in c.tree.blocks && !BlockAccepted(c, crypto, b) ==> r.Err?)
  }

  class NodeBlockchain {
    const bcMan: BlockchainManager
    const maker: NodeBlockMaker

    constructor (bcMan: BlockchainManager, maker: NodeBlockMaker)
      ensures this.bcMan == bcMan && this.maker == maker
    {
      this.bcMan, this.maker := bcMan, maker;
    }

    method CheckBlockExists(hash: Bytes) returns (r: bool)
      ensures r <==> hash in bcMan.db.blocks
    {
      var b := bcMan.GetBlock(hash);
      return b.Ok?;
    }

    method CheckBlockState(hash: Bytes, prevhash: Bytes) returns (r: BlockState)
      ensures r == if hash in bcMan.db.blocks then Exists else if prevhash in bcMan.db.blocks then CanAdd else NotExistAndPrevNotExist
    {
      var exists_ := CheckBlockExists(hash);
      if exists_ {
        return Exists;
      }
      exists_ := CheckBlockExists(prevhash);
      if exists_ {
        return CanAdd;
      }
      return NotExistAndPrevNotExist;
    }

    /** Stores a block that is new, has its parent stored and verifies on its branch; its height is not looked at. */
    method AddBlock(block: Block) returns (r: Result<AddState>)
      requires maker.txMan.index.bcMan == bcMan && maker.txMan.crypto == maker.crypto
      requires bcMan.db.Valid() && maker.txMan.index.Exact() && IsHash(block.hash)
      requires block.prev in bcMan.db.blocks ==> Sound(Entries(bcMan.db.Stored(), block.prev))
      modifies bcMan.db
      ensures bcMan.db.Valid() <==> (old(Admitted(maker.crypto, bcMan.State(), block)) ==> old(bcMan.State()).HeightFits(block))
      ensures old(Admitted(maker.crypto, bcMan.State(), block)) ==> IsIndex(bcMan.db.chain, old(bcMan.State()).MainAfter(block))
      ensures old(Admitted(maker.crypto, bcMan.State(), block)) ==>
                r == Ok(old(bcMan.State()).AddStateOf(block)) && bcMan.State() == old(bcMan.State()).Add(block)
      ensures !old(Admitted(maker.crypto, bcMan.State(), block)) ==>
                bcMan.State() == old(bcMan.State()) && bcMan.db.chain == old(bcMan.db.chain)
      ensures RefusedFor(maker.crypto, old(bcMan.State()), block, r)
    {
      var blockstate := CheckBlockState(block.hash, block.prev);
      if blockstate == Exists {
        return Ok(NotAddedExists);
      }
      if blockstate == NotExistAndPrevNotExist {
        return Ok(NotAddedNoPrev);
      }
      assert bcMan.db.Stored().Link(block.prev);
      var err := maker.VerifyBlock(block);
      if err.Some? {
        return Err(err.value);
      }
      var state := bcMan.AddBlock(block);
      return Ok(state);
    }

    /** The two branches that replaced each other, the main one first; an empty tip means the top. */
    method GetBranchesReplacement(sideBranchHash: Bytes, tip: Bytes) returns (r: Result<Option<(seq<Block>, seq<Block>)>>)
      requires bcMan.db.Valid() && sideBranchHash in bcMan.db.blocks && (|tip| == 0 || tip in bcMan.db.blocks)
      requires var t := if |tip| == 0 then bcMan.db.topHash else tip;
               bcMan.db.blocks[sideBranchHash].height >= 1 && bcMan.db.blocks[t].height >= 1
      ensures var t := if |tip| == 0 then bcMan.db.topHash else tip;
              var b := Branches(bcMan.db.Stored(), sideBranchHash, t);
              r == Ok(if sideBranchHash in bcMan.db.Stored().Path(t) then None else Some((b.1, b.0)))
    {
      var t := tip;
      if |tip| == 0 {
        var state := bcMan.GetState();
        t := state.value.0;
        assert bcMan.db.Stored().Link(bcMan.db.topHash);
      }
      r := bcMan.GetBranchesReplacement(sideBranchHash, t);
    }
  }

  class Node {
    const nodeBC: NodeBlockchain
    const txMan: TXManager
    const crypto: Crypto

    constructor (nodeBC: NodeBlockchain, txMan: TXManager, crypto: Crypto)
      ensures this.nodeBC == nodeBC && this.txMan == txMan && this.crypto == crypto
    {
      this.nodeBC, this.txMan, this.crypto := nodeBC, txMan, crypto;
    }

    /** The parts belong together: one database, one index, one set of keys. */
    ghost predicate Wired()
    {
      && nodeBC.maker.txMan == txMan && nodeBC.bcMan == txMan.index.bcMan && txMan.unspent.index == txMan.index
      && nodeBC.maker.crypto == crypto && txMan.crypto == crypto
    }

    ghost function State(): NodeState
      reads nodeBC.bcMan.db, txMan.unspent.uodb, txMan.pool.utdb
    {
      NodeState(nodeBC.bcMan.State(), View(txMan.unspent.uodb.data), txMan.pool.utdb.txs)
    }

    ghost predicate Valid()
      reads nodeBC.bcMan.db, txMan.unspent.uodb, txMan.pool.utdb, txMan.index.txdb, txMan.index.bcMan.db
    {
      Wired() && nodeBC.bcMan.db.Valid() && txMan.index.Exact() && Tidy(txMan.unspent.uodb.data) && NodeInv(crypto, State())
    }

    /** Starts a chain in an empty database: the genesis block is first and top, and the caches take it. */
    method AddFirstBlock(genesis: Block)
      requires Wired() && IsGenesis(genesis)
      requires nodeBC.bcMan.db.blocks == map[] && nodeBC.bcMan.db.chain == map[]
      requires txMan.index.txdb.blockHashes == map[] && txMan.index.txdb.spentOutputs == map[]
      requires txMan.unspent.uodb.data == map[] && txMan.pool.utdb.txs == map[]
      modifies nodeBC.bcMan.db, txMan.index.txdb, txMan.unspent.uodb, txMan.pool.utdb
      ensures Valid() && State() == Genesis(genesis) && UtxoExact(State())
      ensures nodeBC.bcMan.db.blocks == map[genesis.hash := genesis] && nodeBC.bcMan.db.topHash == genesis.hash
    {
      FirstFacts(crypto, genesis);
      StoreFirst(genesis);
      CachesFollow(genesis, true, Tree(map[], genesis.hash));
      FirstState(crypto, genesis, State());
    }

    /** The part of AddFirstBlock that fills the blocks database. */
    method StoreFirst(genesis: Block)
      requires IsGenesis(genesis) && nodeBC.bcMan.db.blocks == map[] && nodeBC.bcMan.db.chain == map[]
      modifies nodeBC.bcMan.db
      ensures nodeBC.bcMan.State() == Genesis(genesis).chain && nodeBC.bcMan.db.Valid()
    {
      GenesisEntries(genesis);
      nodeBC.bcMan.db.PutBlock(genesis.hash, genesis);
      nodeBC.bcMan.db.SaveTopHash(genesis.hash);
      nodeBC.bcMan.db.SaveFirstHash(genesis.hash);
      AppendedIndex(map[], [], genesis.hash);
      var err := nodeBC.bcMan.db.AddToChain(genesis.hash, []);
      assert err.None? && nodeBC.bcMan.State() == Genesis(genesis).chain;
      assert Genesis(genesis).chain.Main() == [genesis.hash] + [];
    }

    /** A valid node can prepare payments: its cache holds real outputs of its main chain, and its pool none of its transactions. */
    lemma ValidIsSynced()
      requires Valid()
      ensures Synced(nodeBC.bcMan.db.Stored(), nodeBC.bcMan.db.topHash, txMan.unspent.uodb.data, txMan.pool.utdb.txs)
    {
      var t, top := nodeBC.bcMan.db.Stored(), nodeBC.bcMan.db.topHash;
      assert ProperAt(crypto, t, top);
      ProperIsSound(crypto, Entries(t, top));
    }

    /**
     Adds a block. The caches follow: on top of the chain the block is applied; when its branch
     replaces the main one, the old branch is cancelled top down and the new one applied bottom up.
     The node stays valid when what it takes for granted of the block holds.
     */
    method AddBlock(block: Block) returns (r: Result<AddState>)
      requires Valid() && State().chain.Acceptable(block)
      modifies nodeBC.bcMan.db, txMan.index.txdb, txMan.unspent.uodb, txMan.pool.utdb
      ensures old(Incoming(State(), block)) ==> Valid()
      ensures State() == Step(crypto, old(State()), block)
      ensures old(Admitted(crypto, State().chain, block)) ==> r == Ok(old(State()).chain.AddStateOf(block))
      ensures RefusedFor(crypto, old(State().chain), block, r)
    {
      ghost var s := State();
      if Incoming(s, block) {
        StepKeepsInv(crypto, s, block);
      }
      ProperIsAllSound(crypto, s.chain.tree);
      r := StoreAndFollow(block);
    }

    /** The body of AddBlock, on what it needs of the invariant. */
    method StoreAndFollow(block: Block) returns (r: Result<AddState>)
      requires Wired() && nodeBC.bcMan.db.Valid() && txMan.index.Exact()
      requires TopIsHighest(State().chain) && AllSound(State().chain.tree) && State().chain.Acceptable(block)
      modifies nodeBC.bcMan.db, txMan.index.txdb, txMan.unspent.uodb, txMan.pool.utdb
      ensures nodeBC.bcMan.db.Valid() && txMan.index.Exact()
      ensures old(Tidy(txMan.unspent.uodb.data)) ==> Tidy(txMan.unspent.uodb.data)
      ensures State() == Step(crypto, old(State()), block)
      ensures old(Admitted(crypto, State().chain, block)) ==> r == Ok(old(State()).chain.AddStateOf(block))
      ensures RefusedFor(crypto, old(State().chain), block, r)
    {
      ghost var s := State();
      var state := nodeBC.bcMan.GetState();
      var curLastHash := state.value.0;
      r := nodeBC.AddBlock(block);
      if r.Err? || r.value == NotAddedExists || r.value == NotAddedNoPrev {
        StepRefused(crypto, s, block);
        return;
      }
      AddKeepsValid(s.chain, block);
      if r.value == AddedToParallelTop {
        ReplacementFacts(s.chain, block);
      }
      FollowStored(block, r.value, curLastHash, s.chain.tree);
      StepIs(crypto, s, block, State());
    }

    /** The part of AddBlock after the block was stored. */
    method FollowStored(block: Block, addstate: AddState, curLastHash: Bytes, ghost t: Tree)
      requires Wired() && nodeBC.bcMan.db.Valid() && nodeBC.bcMan.db.Stored() == t.Add(block) && block.hash !in t.blocks
      requires IndexExact(t, txMan.index.txdb.blockHashes, txMan.index.txdb.spentOutputs)
      requires addstate == AddedToParallelTop ==> Replaced(nodeBC.bcMan.State(), curLastHash)
      modifies txMan.index.txdb, txMan.unspent.uodb, txMan.pool.utdb
      ensures txMan.index.Exact()
      ensures old(Tidy(txMan.unspent.uodb.data)) ==> Tidy(txMan.unspent.uodb.data)
      ensures addstate == AddedToTop ==>
                && View(txMan.unspent.uodb.data) == ApplyAll(old(View(txMan.unspent.uodb.data)), Tag(block))
                && txMan.pool.utdb.txs == old(txMan.pool.utdb.txs) - OrdinaryIds(block.txs)
      ensures addstate == AddedToParallelTop ==>
                Moved(nodeBC.bcMan.State(), curLastHash, old(View(txMan.unspent.uodb.data)), old(txMan.pool.utdb.txs),
                      View(txMan.unspent.uodb.data), txMan.pool.utdb.txs)
      ensures addstate != AddedToTop && addstate != AddedToParallelTop ==>
                View(txMan.unspent.uodb.data) == old(View(txMan.unspent.uodb.data)) && txMan.pool.utdb.txs == old(txMan.pool.utdb.txs)
    {
      CachesFollow(block, addstate == AddedToTop, t);
      if addstate == AddedToParallelTop {
        ReplaceBranch(curLastHash);
      }
    }

    /** The hook for a stored block: the index takes it, and on top of the chain it is applied. */
    method CachesFollow(block: Block, ontop: bool, ghost t: Tree)
      requires Wired() && nodeBC.bcMan.db.Stored() == t.Add(block) && block.hash !in t.blocks
      requires IndexExact(t, txMan.index.txdb.blockHashes, txMan.index.txdb.spentOutputs)
      modifies txMan.index.txdb, txMan.unspent.uodb, txMan.pool.utdb
      ensures txMan.index.Exact()
      ensures old(Tidy(txMan.unspent.uodb.data)) ==> Tidy(txMan.unspent.uodb.data)
      ensures txMan.pool.utdb.txs == if ontop then old(txMan.pool.utdb.txs) - OrdinaryIds(block.txs) else old(txMan.pool.utdb.txs)
      ensures View(txMan.unspent.uodb.data) ==
              if ontop then ApplyAll(old(View(txMan.unspent.uodb.data)), Tag(block)) else old(View(txMan.unspent.uodb.data))
    {
      ghost var links, spent := txMan.index.txdb.blockHashes, txMan.index.txdb.spentOutputs;
      txMan.BlockAdded(block, ontop);
      AddKeepsExact(t, block, links, spent, txMan.index.txdb.blockHashes, txMan.index.txdb.spentOutputs);
    }

    /** Fetches the two branches that replaced each other and moves the caches from one to the other. */
    method ReplaceBranch(curLastHash: Bytes)
      requires Wired() && nodeBC.bcMan.db.Valid() && txMan.index.Exact() && Replaced(nodeBC.bcMan.State(), curLastHash)
      modifies txMan.unspent.uodb, txMan.pool.utdb
      ensures old(Tidy(txMan.unspent.uodb.data)) ==> Tidy(txMan.unspent.uodb.data)
      ensures Moved(nodeBC.bcMan.State(), curLastHash, old(View(txMan.unspent.uodb.data)), old(txMan.pool.utdb.txs),
                    View(txMan.unspent.uodb.data), txMan.pool.utdb.txs)
    {
      SideHasParents(nodeBC.bcMan.db.Stored(), curLastHash, nodeBC.bcMan.db.topHash);
      SideSound(nodeBC.bcMan.db.Stored(), curLastHash, nodeBC.bcMan.db.topHash);
      var branches := nodeBC.GetBranchesReplacement(curLastHash, []);
      if branches.value.Some? {
        var (newChain, oldChain) := branches.value.value;
        RemoveBranch(oldChain);
        AddBranch(newChain);
      }
    }

    /** The first loop of a branch replacement. */
    method RemoveBranch(oldChain: seq<Block>)
      requires Wired() && nodeBC.bcMan.db.Valid() && txMan.index.Exact()
      requires forall b :: b in oldChain ==> b.prev in nodeBC.bcMan.db.blocks && |b.prev| > 0
                                             && Sound(Entries(nodeBC.bcMan.db.Stored(), b.prev) + Tag(b))
      modifies txMan.unspent.uodb, txMan.pool.utdb
      ensures View(txMan.unspent.uodb.data) == CancelAll(nodeBC.bcMan.State(), old(View(txMan.unspent.uodb.data)), oldChain)
      ensures old(Tidy(txMan.unspent.uodb.data)) ==> Tidy(txMan.unspent.uodb.data)
      ensures txMan.pool.utdb.txs == ReturnAll(old(txMan.pool.utdb.txs), oldChain)
    {
      ghost var c, u, p := nodeBC.bcMan.State(), View(txMan.unspent.uodb.data), txMan.pool.utdb.txs;
      assert oldChain[..0] == [];
      for i := 0 to |oldChain|
        invariant View(txMan.unspent.uodb.data) == CancelAll(c, u, oldChain[..i])
        invariant old(Tidy(txMan.unspent.uodb.data)) ==> Tidy(txMan.unspent.uodb.data)
        invariant txMan.pool.utdb.txs == ReturnAll(p, oldChain[..i])
      {
        RemovedNext(c, u, p, oldChain, i);
        txMan.BlockRemovedFromPrimaryChain(oldChain[i]);
      }
      assert oldChain[..|oldChain|] == oldChain;
    }

    /** The second loop of a branch replacement. */
    method AddBranch(newChain: seq<Block>)
      modifies txMan.unspent.uodb, txMan.pool.utdb
      ensures View(txMan.unspent.uodb.data) == AddAll(old(View(txMan.unspent.uodb.data)), newChain)
      ensures old(Tidy(txMan.unspent.uodb.data)) ==> Tidy(txMan.unspent.uodb.data)
      ensures txMan.pool.utdb.txs == DeleteAll(old(txMan.pool.utdb.txs), newChain)
    {
      ghost var u, p := View(txMan.unspent.uodb.data), txMan.pool.utdb.txs;
      assert newChain[..0] == [];
      for i := 0 to |newChain|
        invariant View(txMan.unspent.uodb.data) == AddAll(u, newChain[..i])
        invariant old(Tidy(txMan.unspent.uodb.data)) ==> Tidy(txMan.unspent.uodb.data)
        invariant txMan.pool.utdb.txs == DeleteAll(p, newChain[..i])
      {
        assert newChain[..i + 1][..i] == newChain[..i];
        txMan.BlockAddedToPrimaryChain(newChain[i]);
      }
      assert newChain[..|newChain|] == newChain;
    }
  }

  lemma RemovedNext(c: Chain, u: Utxo, p: PoolMap, bs: seq<Block>, i: nat)
    requires c.Valid() && i < |bs| && forall b :: b in bs ==> b.prev in c.tree.blocks
    ensures bs[i] in bs && CancelAll(c, u, bs[..i + 1]) == Cancelled(c, CancelAll(c, u, bs[..i]), bs[i])
    ensures ReturnAll(p, bs[..i + 1]) == Returned(ReturnAll(p, bs[..i]), bs[i].txs)
  {
    assert bs[..i + 1][..i] == bs[..i];
  }

  lemma FirstFacts(crypto: Crypto, b: Block)
    requires IsGenesis(b)
    ensures Tree(map[], b.hash).Add(b) == Genesis(b).chain.tree && IndexExact(Tree(map[], b.hash), map[], map[])
    ensures View(map[]) == map[] && Tidy(map[])
  {
    GenesisEntries(b);
    ViewIs(map[], map[]);
  }

  lemma FirstState(crypto: Crypto, b: Block, s: NodeState)
    requires IsGenesis(b) && s.chain == Genesis(b).chain && s.utxo == ApplyAll(map[], Tag(b)) && s.pool == map[] - OrdinaryIds(b.txs)
    ensures s == Genesis(b) && NodeInv(crypto, s) && UtxoExact(s)
  {
    GenesisEntries(b);
    GenesisInv(crypto, b);
    assert Tag(b) == [Entry(b.txs[0], b.hash)];
  }

  lemma StepCases(crypto: Crypto, s: NodeState, b: Block)
    requires s.chain.Valid() && s.chain.Acceptable(b)
    ensures s.chain.Add(b).Valid()
    ensures !Admitted(crypto, s.chain, b) ==> Step(crypto, s, b) == s
    ensures Admitted(crypto, s.chain, b) ==>
              var c := s.chain.Add(b);
              match s.chain.AddStateOf(b)
              case AddedToTop => Step(crypto, s, b) == NodeState(c, ApplyAll(s.utxo, Tag(b)), s.pool - OrdinaryIds(b.txs))
              case AddedToParallelTop =>
                var moved := Branches(c.tree, s.chain.top, c.top);
                && (forall a :: a in moved.0 ==> a.prev in c.tree.blocks)
                && Step(crypto, s, b) == NodeState(c, Reorganised(c, s.utxo, s.chain.top), PoolMoved(s.pool, moved.0, moved.1))
              case _ => Step(crypto, s, b) == NodeState(c, s.utxo, s.pool)
  {
    AddKeepsValid(s.chain, b);
    SideHasParents(s.chain.Add(b).tree, s.chain.top, s.chain.Add(b).top);
  }

  /** The blocks of a branch continue sound chains when the path of its end is sound. */
  lemma SideSound(t: Tree, side: Bytes, tip: Bytes)
    requires t.Valid() && side in t.blocks && tip in t.blocks && Sound(Entries(t, side))
    ensures forall b :: b in Branches(t, side, tip).0 ==> b.prev in t.blocks && Sound(Entries(t, b.prev) + Tag(b))
  {
    forall b | b in Branches(t, side, tip).0 ensures b.prev in t.blocks && Sound(Entries(t, b.prev) + Tag(b)) {
      var i :| 0 <= i < Merge(t, side, tip) && Branches(t, side, tip).0[i] == b;
      SoundAt(t, side, i);
    }
  }

  lemma SoundAt(t: Tree, h: Bytes, i: nat)
    requires t.Valid() && h in t.blocks && i + 1 < |t.Path(h)| && Sound(Entries(t, h))
    ensures t.Path(h)[i] in t.blocks && t.blocks[t.Path(h)[i]].prev in t.blocks
    ensures Sound(Entries(t, t.blocks[t.Path(h)[i]].prev) + Tag(t.blocks[t.Path(h)[i]]))
  {
    EntriesAbove(t, h, i);
    EntriesBelow(t, h, i);
    SoundPart(Entries(t, t.Path(h)[i]), Entries(t, h));
  }

  lemma SoundPart(es: seq<Entry>, all: seq<Entry>)
    requires es <= all && Sound(all)
    ensures Sound(es)
  {
    assert all[..|es|] == es;
    SoundPrefix(all, |es|);
  }

  /** The caches moved from the branch of old to the main one: unspent outputs u and pool p became u' and p'. */
  ghost predicate Moved(c: Chain, old_: Bytes, u: Utxo, p: PoolMap, u': Utxo, p': PoolMap) {
    && c.Valid() && old_ in c.tree.blocks
    && (forall b :: b in Branches(c.tree, old_, c.top).0 ==> b.prev in c.tree.blocks)
    && u' == Reorganised(c, u, old_)
    && p' == PoolMoved(p, Branches(c.tree, old_, c.top).0, Branches(c.tree, old_, c.top).1)
  }

  /** The old top is off the main chain, neither top is the genesis block, and the path of the old one is sound. */
  ghost predicate Replaced(c: Chain, old_: Bytes) {
    && c.Valid()
    && old_ in c.tree.blocks && Sound(Entries(c.tree, old_)) && c.tree.blocks[old_].height >= 1 && c.tree.blocks[c.top].height >= 1
    && old_ !in c.Main()
  }

  lemma StepRefused(crypto: Crypto, s: NodeState, b: Block)
    requires s.chain.Valid() && s.chain.Acceptable(b) && !Admitted(crypto, s.chain, b)
    ensures Step(crypto, s, b) == s
  {
  }

  lemma StepIs(crypto: Crypto, s: NodeState, b: Block, r: NodeState)
    requires s.chain.Valid() && s.chain.Acceptable(b) && Admitted(crypto, s.chain, b) && r.chain == s.chain.Add(b)
    requires match s.chain.AddStateOf(b)
             case AddedToTop => r.utxo == ApplyAll(s.utxo, Tag(b)) && r.pool == s.pool - OrdinaryIds(b.txs)
             case AddedToParallelTop => Moved(r.chain, s.chain.top, s.utxo, s.pool, r.utxo, r.pool)
             case _ => r.utxo == s.utxo && r.pool == s.pool
    ensures r == Step(crypto, s, b)
  {
    StepCases(crypto, s, b);
  }

  lemma ReplacementFacts(c: Chain, b: Block)
    requires c.Valid() && TopIsHighest(c) && c.Acceptable(b) && c.AddStateOf(b) == AddedToParallelTop
    requires Sound(Entries(c.tree, c.top))
    ensures Replaced(c.Add(b), c.top)
  {
    AddValid(c.tree, b);
    EntriesAdded(c.tree, b, c.top);
    assert c.tree.Link(c.top) && c.tree.Link(b.prev);
    if c.top in c.tree.Path(b.prev) {
      OnPath(c.tree, b.prev, c.top);
    }
  }
}

/**
 The node as a state machine: the chain, the unspent outputs and the pool, changed block by
 block. What every run of AddBlock keeps (node/nodemanager/node.go:374-428).
 */
module NodeRuns {
  import opened Structures
  import opened BlockTree
  import opened Blockchain
  import opened ForkChoice
  import opened Ledger
  import opened Soundness
  import opened TransactionRules
  import opened Pool
  import opened Acceptance
  import opened Money
  import opened Reorganisation
  import opened Drift
  import opened PoolReorganisation
  import opened QuickCheck
  import opened Preparation

  datatype NodeState = NodeState(chain: Chain, utxo: Utxo, pool: PoolMap)

  /** The block is new, its parent is stored, and it passes verification on its own branch. */
  ghost predicate Admitted(crypto: Crypto, c: Chain, b: Block)
    requires c.Valid()
  {
    b.hash !in c.tree.blocks && b.prev in c.tree.blocks && BlockAccepted(c, crypto, b)
  }

  /** What AddBlock makes of the node. */
  ghost function Step(crypto: Crypto, s: NodeState, b: Block): NodeState
    requires s.chain.Valid() && s.chain.Acceptable(b)
  {
    if !Admitted(crypto, s.chain, b) then s
    else
      var c, old_ := s.chain.Add(b), s.chain.top;
      AddKeepsValid(s.chain, b);
      SideHasParents(c.tree, old_, c.top);
      match s.chain.AddStateOf(b)
      case AddedToTop => NodeState(c, ApplyAll(s.utxo, Tag(b)), s.pool - OrdinaryIds(b.txs))
      case AddedToParallelTop =>
        var moved := Branches(c.tree, old_, c.top);
        NodeState(c, Reorganised(c, s.utxo, old_), PoolMoved(s.pool, moved.0, moved.1))
      case _ => NodeState(c, s.utxo, s.pool)
  }

  /** The path of the block is proper and the block has one reward. */
  ghost predicate ProperAt(crypto: Crypto, t: Tree, h: Bytes)
    requires t.Valid() && h in t.blocks
  {
    Proper(crypto, Entries(t, h)) && OneCoinbase(t.blocks[h].txs)
  }

  /** Every stored path is built of accepted blocks with one reward each. */
  ghost predicate AllProper(crypto: Crypto, t: Tree)
    requires t.Valid()
  {
    forall h {:trigger ProperAt(crypto, t, h)} :: h in t.blocks ==> ProperAt(crypto, t, h)
  }

  ghost predicate PoolInv(s: NodeState)
    requires s.chain.Valid()
  {
    PoolOk(s.pool) && PoolAgrees(s.pool, s.chain.tree) && OffMain(s.pool, s.chain.tree, s.chain.top)
  }

  /** The unspent outputs kept are real ones of the main chain; some may be missing. */
  ghost predicate UtxoReal(s: NodeState)
    requires s.chain.Valid()
  {
    Within(s.utxo, Unspent(Entries(s.chain.tree, s.chain.top)))
  }

  ghost predicate NodeInv(crypto: Crypto, s: NodeState) {
    && s.chain.Valid() && TopIsHighest(s.chain)
    && AllProper(crypto, s.chain.tree) && IdsIdentify(s.chain.tree)
    && PoolInv(s) && UtxoReal(s)
  }

  /** What the node takes for granted of an incoming block: its header, and that IDs identify transactions. */
  ghost predicate Incoming(s: NodeState, b: Block)
    requires s.chain.Valid()
  {
    && s.chain.Acceptable(b) && BlockAssumptions(s.chain.tree, b)
    && forall u :: u in b.txs && u.id in s.pool ==> s.pool[u.id] == u
  }

  // ----- The stored blocks

  lemma EntriesAdded(t: Tree, b: Block, h: Bytes)
    requires t.Valid() && t.Fits(b) && h in t.Add(b).blocks
    ensures t.Add(b).Valid()
    ensures Entries(t.Add(b), h) == if h == b.hash then Entries(t, b.prev) + Tag(b) else Entries(t, h)
  {
    AddValid(t, b);
    var u := t.Add(b);
    assert u.Link(b.hash) && t.Link(t.genesis);
    var g := if h == b.hash then b.prev else h;
    PathStored(t, g);
    EntriesFrame(t, u, g);
  }

  lemma StepKeepsProper(crypto: Crypto, c: Chain, b: Block)
    requires c.Valid() && AllProper(crypto, c.tree) && c.Acceptable(b) && BlockAssumptions(c.tree, b)
    requires Admitted(crypto, c, b)
    ensures c.Add(b).Valid() && AllProper(crypto, c.Add(b).tree)
  {
    AddKeepsValid(c, b);
    var u := c.Add(b).tree;
    forall h {:trigger ProperAt(crypto, u, h)} | h in u.blocks ensures ProperAt(crypto, u, h) {
      EntriesAdded(c.tree, b, h);
      if h == b.hash {
        assert ProperAt(crypto, c.tree, b.prev);
        AcceptedBlock(c, crypto, b);
      } else {
        assert ProperAt(crypto, c.tree, h);
      }
    }
  }

  lemma StoredAndNew(t: Tree, b: Block, h: Bytes, u: Transaction, v: Transaction)
    requires BlockAssumptions(t, b) && h in t.blocks && u in t.blocks[h].txs && v in b.txs && u.id == v.id
    ensures u == v
  {
  }

  lemma BothNew(t: Tree, b: Block, u: Transaction, v: Transaction)
    requires BlockAssumptions(t, b) && u in b.txs && v in b.txs && u.id == v.id
    ensures u == v
  {
    var i :| 0 <= i < |b.txs| && b.txs[i] == u;
    var j :| 0 <= j < |b.txs| && b.txs[j] == v;
    assert i < j || j < i || i == j;
  }

  lemma StepKeepsIds(t: Tree, b: Block)
    requires IdsIdentify(t) && BlockAssumptions(t, b) && b.hash !in t.blocks
    ensures IdsIdentify(t.Add(b))
  {
    var u := t.Add(b);
    forall h, g, x, y | h in u.blocks && g in u.blocks && x in u.blocks[h].txs && y in u.blocks[g].txs && x.id == y.id
      ensures x == y
    {
      if h == b.hash {
        if g == b.hash {
          BothNew(t, b, x, y);
        } else {
          StoredAndNew(t, b, g, y, x);
        }
      } else if g == b.hash {
        StoredAndNew(t, b, h, x, y);
      }
    }
  }

  lemma ProperIsAllSound(crypto: Crypto, t: Tree)
    requires t.Valid() && AllProper(crypto, t)
    ensures AllSound(t)
  {
    forall h | h in t.blocks ensures Sound(Entries(t, h)) {
      assert ProperAt(crypto, t, h);
      ProperIsSound(crypto, Entries(t, h));
    }
  }

  // ----- The pool

  lemma PoolAgreesAdded(s: NodeState, b: Block)
    requires s.chain.Valid() && PoolAgrees(s.pool, s.chain.tree) && Incoming(s, b)
    ensures PoolAgrees(s.pool, s.chain.tree.Add(b))
  {
  }

  lemma HasIdSplit(es: seq<Entry>, fs: seq<Entry>, id: Bytes)
    ensures HasId(es + fs, id) <==> HasId(es, id) || HasId(fs, id)
  {
    var all := es + fs;
    if i :| 0 <= i < |es| && es[i].tx.id == id {
      assert all[i].tx.id == id;
    }
    if i :| 0 <= i < |fs| && fs[i].tx.id == id {
      assert all[|es| + i].tx.id == id;
    }
    if i :| 0 <= i < |all| && all[i].tx.id == id {
      assert i < |es| ==> es[i].tx.id == id;
      assert i >= |es| ==> fs[i - |es|].tx.id == id;
    }
  }

  /** A transaction of the pool that is in the block too is an ordinary one of it. */
  lemma PooledIsOrdinary(pool: PoolMap, b: Block, id: Bytes)
    requires PoolOk(pool) && id in pool && HasId(Tag(b), id)
    requires forall u :: u in b.txs && u.id in pool ==> pool[u.id] == u
    ensures id in OrdinaryIds(b.txs)
  {
    var i :| 0 <= i < |Tag(b)| && Tag(b)[i].tx.id == id;
    assert b.txs[i] in b.txs && pool[id] == b.txs[i];
  }

  lemma PoolOnTop(s: NodeState, b: Block)
    requires s.chain.Valid() && PoolInv(s) && Incoming(s, b)
    requires s.chain.tree.Fits(b) && b.prev == s.chain.top
    ensures s.chain.tree.Add(b).Valid()
    ensures PoolInv(NodeState(Chain(s.chain.tree.Add(b), b.hash), s.utxo, s.pool - OrdinaryIds(b.txs)))
  {
    var t, p := s.chain.tree, s.pool - OrdinaryIds(b.txs);
    PoolAgreesAdded(s, b);
    EntriesAdded(t, b, b.hash);
    forall id | id in p ensures !HasId(Entries(t.Add(b), b.hash), id) {
      HasIdSplit(Entries(t, b.prev), Tag(b), id);
      if HasId(Tag(b), id) {
        PooledIsOrdinary(s.pool, b, id);
      }
    }
  }

  lemma OffMainAdded(s: NodeState, b: Block)
    requires s.chain.Valid() && PoolInv(s) && s.chain.tree.Fits(b)
    ensures s.chain.tree.Add(b).Valid() && OffMain(s.pool, s.chain.tree.Add(b), s.chain.top)
  {
    EntriesAdded(s.chain.tree, b, s.chain.top);
  }

  lemma ReadyToMove(crypto: Crypto, s: NodeState, b: Block)
    requires NodeInv(crypto, s) && Incoming(s, b) && Admitted(crypto, s.chain, b)
    ensures s.chain.Add(b).Valid() && PoolReady(s.chain.Add(b), s.chain.top, s.pool)
  {
    StepKeepsProper(crypto, s.chain, b);
    ProperIsAllSound(crypto, s.chain.Add(b).tree);
    StepKeepsIds(s.chain.tree, b);
    PoolAgreesAdded(s, b);
    OffMainAdded(s, b);
  }

  lemma PoolMovedInv(crypto: Crypto, s: NodeState, b: Block)
    requires NodeInv(crypto, s) && Incoming(s, b) && Admitted(crypto, s.chain, b)
    ensures var c := s.chain.Add(b);
            && c.Valid()
            && forall u :: PoolInv(NodeState(c, u, PoolMoved(s.pool, Branches(c.tree, s.chain.top, c.top).0, Branches(c.tree, s.chain.top, c.top).1)))
  {
    ReadyToMove(crypto, s, b);
    PoolStaysReady(s.chain.Add(b), s.chain.top, s.pool);
  }

  lemma PoolBesides(s: NodeState, b: Block)
    requires s.chain.Valid() && PoolInv(s) && Incoming(s, b) && s.chain.tree.Fits(b)
    ensures s.chain.tree.Add(b).Valid() && PoolInv(NodeState(Chain(s.chain.tree.Add(b), s.chain.top), s.utxo, s.pool))
  {
    PoolAgreesAdded(s, b);
    OffMainAdded(s, b);
  }

  lemma StepOnTop(crypto: Crypto, s: NodeState, b: Block)
    requires s.chain.Valid() && s.chain.Acceptable(b) && Admitted(crypto, s.chain, b) && s.chain.AddStateOf(b) == AddedToTop
    ensures Step(crypto, s, b) == NodeState(Chain(s.chain.tree.Add(b), b.hash), ApplyAll(s.utxo, Tag(b)), s.pool - OrdinaryIds(b.txs))
    ensures s.chain.tree.Fits(b) && b.prev == s.chain.top
  {
  }

  lemma StepBesides(crypto: Crypto, s: NodeState, b: Block)
    requires s.chain.Valid() && s.chain.Acceptable(b) && Admitted(crypto, s.chain, b) && s.chain.AddStateOf(b) == AddedToParallel
    ensures Step(crypto, s, b) == NodeState(Chain(s.chain.tree.Add(b), s.chain.top), s.utxo, s.pool)
    ensures s.chain.tree.Fits(b)
  {
  }

  lemma StepKeepsPool(crypto: Crypto, s: NodeState, b: Block)
    requires NodeInv(crypto, s) && Incoming(s, b) && Admitted(crypto, s.chain, b)
    ensures Step(crypto, s, b).chain.Valid() && PoolInv(Step(crypto, s, b))
  {
    AddKeepsValid(s.chain, b);
    if s.chain.AddStateOf(b) == AddedToTop {
      StepOnTop(crypto, s, b);
      PoolOnTop(s, b);
    } else if s.chain.AddStateOf(b) == AddedToParallelTop {
      PoolMovedInv(crypto, s, b);
    } else {
      StepBesides(crypto, s, b);
      PoolBesides(s, b);
    }
  }

  lemma StepChain(crypto: Crypto, s: NodeState, b: Block)
    requires s.chain.Valid() && s.chain.Acceptable(b)
    ensures Step(crypto, s, b).chain == if Admitted(crypto, s.chain, b) then s.chain.Add(b) else s.chain
  {
  }

  lemma AddKeepsHighest(c: Chain, b: Block)
    requires c.Valid() && c.Acceptable(b) && TopIsHighest(c)
    ensures c.Add(b).Valid() && TopIsHighest(c.Add(b))
  {
    AddKeepsValid(c, b);
  }

  lemma ChainKeepsInv(crypto: Crypto, c: Chain, b: Block)
    requires c.Valid() && TopIsHighest(c) && AllProper(crypto, c.tree) && IdsIdentify(c.tree)
    requires c.Acceptable(b) && BlockAssumptions(c.tree, b) && Admitted(crypto, c, b)
    ensures c.Add(b).Valid() && TopIsHighest(c.Add(b)) && AllProper(crypto, c.Add(b).tree) && IdsIdentify(c.Add(b).tree)
  {
    StepKeepsProper(crypto, c, b);
    StepKeepsIds(c.tree, b);
    AddKeepsHighest(c, b);
  }

  /** One block keeps everything that holds of the node. */
  lemma StepKeepsInv(crypto: Crypto, s: NodeState, b: Block)
    requires NodeInv(crypto, s) && Incoming(s, b)
    ensures NodeInv(crypto, Step(crypto, s, b))
  {
    StepChain(crypto, s, b);
    StepKeepsReal(crypto, s, b);
    if Admitted(crypto, s.chain, b) {
      StepKeepsPool(crypto, s, b);
      ChainKeepsInv(crypto, s.chain, b);
    } else {
      assert Step(crypto, s, b) == s;
    }
  }

  // ----- The unspent outputs

  ghost predicate UtxoExact(s: NodeState)
    requires s.chain.Valid()
  {
    s.utxo == Unspent(Entries(s.chain.tree, s.chain.top))
  }

  /** If the block replaces the main branch, the cancelled blocks give back every output that is unspent on the new one. */
  ghost predicate StepClean(crypto: Crypto, s: NodeState, b: Block)
    requires s.chain.Valid() && s.chain.Acceptable(b)
  {
    AddKeepsValid(s.chain, b);
    Admitted(crypto, s.chain, b) && s.chain.AddStateOf(b) == AddedToParallelTop ==>
      AllGivenBack(s.chain.Add(b), s.utxo, s.chain.top)
  }

  lemma UtxoOnTop(s: NodeState, b: Block)
    requires s.chain.Valid() && UtxoReal(s) && s.chain.tree.Fits(b) && b.prev == s.chain.top
    ensures s.chain.tree.Add(b).Valid()
    ensures Within(ApplyAll(s.utxo, Tag(b)), Unspent(Entries(s.chain.tree.Add(b), b.hash)))
    ensures UtxoExact(s) ==> ApplyAll(s.utxo, Tag(b)) == Unspent(Entries(s.chain.tree.Add(b), b.hash))
  {
    EntriesAdded(s.chain.tree, b, b.hash);
    ApplyAllAppend(map[], Entries(s.chain.tree, b.prev), Tag(b));
    ApplyAllWithin(s.utxo, Unspent(Entries(s.chain.tree, b.prev)), Tag(b));
  }

  lemma UtxoMoved(crypto: Crypto, s: NodeState, b: Block)
    requires NodeInv(crypto, s) && Incoming(s, b) && Admitted(crypto, s.chain, b)
    ensures var c := s.chain.Add(b);
            && c.Valid() && AllSound(c.tree)
            && s.chain.top in c.tree.blocks && Entries(c.tree, s.chain.top) == Entries(s.chain.tree, s.chain.top)
            && Within(Reorganised(c, s.utxo, s.chain.top), Unspent(Entries(c.tree, c.top)))
            && (Reorganised(c, s.utxo, s.chain.top) == Unspent(Entries(c.tree, c.top)) <==> AllGivenBack(c, s.utxo, s.chain.top))
  {
    StepKeepsProper(crypto, s.chain, b);
    ProperIsAllSound(crypto, s.chain.Add(b).tree);
    EntriesAdded(s.chain.tree, b, s.chain.top);
    ReorganisedIff(s.chain.Add(b), s.utxo, s.chain.top);
  }

  /** Every step, clean or not, keeps the unspent outputs real: it never invents one. */
  lemma StepKeepsReal(crypto: Crypto, s: NodeState, b: Block)
    requires NodeInv(crypto, s) && Incoming(s, b)
    ensures Step(crypto, s, b).chain.Valid() && UtxoReal(Step(crypto, s, b))
  {
    AddKeepsValid(s.chain, b);
    if Admitted(crypto, s.chain, b) {
      match s.chain.AddStateOf(b)
      case AddedToTop => UtxoOnTop(s, b);
      case AddedToParallelTop => UtxoMoved(crypto, s, b);
      case _ => EntriesAdded(s.chain.tree, b, s.chain.top);
    } else {
      assert Step(crypto, s, b) == s;
    }
  }

  /** From exact unspent outputs a step leads to exact ones if and only if it is clean. */
  lemma StepKeepsUtxo(crypto: Crypto, s: NodeState, b: Block)
    requires NodeInv(crypto, s) && Incoming(s, b) && UtxoExact(s)
    ensures Step(crypto, s, b).chain.Valid()
    ensures UtxoExact(Step(crypto, s, b)) <==> StepClean(crypto, s, b)
  {
    AddKeepsValid(s.chain, b);
    if Admitted(crypto, s.chain, b) {
      match s.chain.AddStateOf(b)
      case AddedToTop => UtxoOnTop(s, b);
      case AddedToParallelTop => UtxoMoved(crypto, s, b);
      case _ => EntriesAdded(s.chain.tree, b, s.chain.top);
    } else {
      assert Step(crypto, s, b) == s;
    }
  }

  // ----- No transaction is lost

  ghost predicate OnMain(c: Chain, tx: Transaction)
    requires c.Valid()
  {
    exists h :: Entry(tx, h) in Entries(c.tree, c.top)
  }

  ghost predicate Pooled(pool: PoolMap, tx: Transaction) {
    tx.id in pool && pool[tx.id] == tx
  }

  /** The node still has the transaction: in the pool or on the main chain. */
  ghost predicate Known(s: NodeState, tx: Transaction)
    requires s.chain.Valid()
  {
    Pooled(s.pool, tx) || OnMain(s.chain, tx)
  }

  /** A transaction of the new branch is on the main chain. */
  lemma MainTxOnMain(c: Chain, old_: Bytes, tx: Transaction) returns (h: Bytes)
    requires c.Valid() && old_ in c.tree.blocks && tx in MainTxs(c, old_)
    ensures h in c.tree.blocks && tx in c.tree.blocks[h].txs && OnMain(c, tx)
  {
    ReversedTxs(BlocksOf(c.tree, c.tree.Path(c.top)[..Merge(c.tree, c.top, old_)]), tx);
    h := BranchTx(c.tree, c.top, old_, tx);
  }

  lemma DeletedIsOnMain(c: Chain, old_: Bytes, tx: Transaction, pool: PoolMap)
    requires c.Valid() && old_ in c.tree.blocks && tx.id in OrdinaryIds(MainTxs(c, old_))
    requires Pooled(pool, tx) && PoolAgrees(pool, c.tree)
    ensures OnMain(c, tx)
  {
    var u :| u in MainTxs(c, old_) && u.id == tx.id;
    var h := MainTxOnMain(c, old_, u);
  }

  lemma MovedFromPool(c: Chain, old_: Bytes, pool: PoolMap, tx: Transaction)
    requires c.Valid() && old_ in c.tree.blocks && PoolReady(c, old_, pool) && Pooled(pool, tx)
    ensures var b := Branches(c.tree, old_, c.top);
            Pooled(PoolMoved(pool, b.0, b.1), tx) || OnMain(c, tx)
  {
    BackInPool(c, old_, pool);
    MovedIs(c, old_, pool);
    if tx.id in OrdinaryIds(MainTxs(c, old_)) {
      DeletedIsOnMain(c, old_, tx, pool);
    }
  }

  lemma MovedFromSide(c: Chain, old_: Bytes, pool: PoolMap, tx: Transaction)
    requires c.Valid() && old_ in c.tree.blocks && PoolReady(c, old_, pool)
    requires tx in SideTxs(c, old_) && !tx.IsCoinbase()
    ensures var b := Branches(c.tree, old_, c.top);
            Pooled(PoolMoved(pool, b.0, b.1), tx) || OnMain(c, tx) || RivalIn(pool, tx)
  {
    var g := BranchTx(c.tree, old_, c.top, tx);
    NothingLost(c, old_, pool, tx);
    PoolStaysReady(c, old_, pool);
    if tx.id in OrdinaryIds(MainTxs(c, old_)) {
      var u :| u in MainTxs(c, old_) && u.id == tx.id;
      var h := MainTxOnMain(c, old_, u);
    }
  }

  lemma MovedFromOldMain(c: Chain, old_: Bytes, pool: PoolMap, tx: Transaction)
    requires c.Valid() && old_ in c.tree.blocks && PoolReady(c, old_, pool) && !tx.IsCoinbase()
    requires OnMain(Chain(c.tree, old_), tx)
    ensures var b := Branches(c.tree, old_, c.top);
            Pooled(PoolMoved(pool, b.0, b.1), tx) || OnMain(c, tx) || RivalIn(pool, tx)
  {
    var h :| Entry(tx, h) in Entries(c.tree, old_);
    EntryPlace(c.tree, old_, c.top, Entry(tx, h));
    if Entry(tx, h) !in Entries(c.tree, c.top) {
      MovedFromSide(c, old_, pool, tx);
    }
  }

  lemma KnownOnTop(s: NodeState, b: Block, tx: Transaction)
    requires s.chain.Valid() && Incoming(s, b) && s.chain.tree.Fits(b) && b.prev == s.chain.top && Known(s, tx)
    ensures s.chain.tree.Add(b).Valid()
    ensures Pooled(s.pool - OrdinaryIds(b.txs), tx) || OnMain(Chain(s.chain.tree.Add(b), b.hash), tx)
  {
    EntriesAdded(s.chain.tree, b, b.hash);
    if Pooled(s.pool, tx) && tx.id in OrdinaryIds(b.txs) {
      var u :| u in b.txs && u.id == tx.id;
      var k :| 0 <= k < |b.txs| && b.txs[k] == u;
      assert Tag(b)[k] == Entry(tx, b.hash);
    }
  }

  lemma OnMainFrame(c: Chain, b: Block, tx: Transaction)
    requires c.Valid() && c.tree.Fits(b)
    ensures c.tree.Add(b).Valid() && (OnMain(Chain(c.tree.Add(b), c.top), tx) <==> OnMain(c, tx))
  {
    EntriesAdded(c.tree, b, c.top);
  }

  lemma KnownMoved(crypto: Crypto, s: NodeState, b: Block, tx: Transaction)
    requires NodeInv(crypto, s) && Incoming(s, b) && Known(s, tx) && !tx.IsCoinbase() && Admitted(crypto, s.chain, b)
    ensures var c := s.chain.Add(b);
            && c.Valid()
            && (Pooled(PoolMoved(s.pool, Branches(c.tree, s.chain.top, c.top).0, Branches(c.tree, s.chain.top, c.top).1), tx)
                || OnMain(c, tx) || RivalIn(s.pool, tx))
  {
    OnMainFrame(s.chain, b, tx);
    ReadyToMove(crypto, s, b);
    if Pooled(s.pool, tx) {
      MovedFromPool(s.chain.Add(b), s.chain.top, s.pool, tx);
    } else {
      MovedFromOldMain(s.chain.Add(b), s.chain.top, s.pool, tx);
    }
  }

  /**
   One block loses no ordinary transaction: what was in the pool or on the main chain still is,
   unless another transaction of the pool has one of its inputs.
   */
  lemma StepLosesNothing(crypto: Crypto, s: NodeState, b: Block, tx: Transaction)
    requires NodeInv(crypto, s) && Incoming(s, b) && Known(s, tx) && !tx.IsCoinbase()
    ensures Step(crypto, s, b).chain.Valid()
    ensures Known(Step(crypto, s, b), tx) || RivalIn(s.pool, tx)
  {
    AddKeepsValid(s.chain, b);
    if Admitted(crypto, s.chain, b) {
      StoredLosesNothing(crypto, s, b, tx);
    } else {
      assert Step(crypto, s, b) == s;
    }
  }

  lemma StoredLosesNothing(crypto: Crypto, s: NodeState, b: Block, tx: Transaction)
    requires NodeInv(crypto, s) && Incoming(s, b) && Known(s, tx) && !tx.IsCoinbase() && Admitted(crypto, s.chain, b)
    ensures Step(crypto, s, b).chain.Valid()
    ensures Known(Step(crypto, s, b), tx) || RivalIn(s.pool, tx)
  {
    AddKeepsValid(s.chain, b);
    match s.chain.AddStateOf(b)
    case AddedToTop =>
      StepOnTop(crypto, s, b);
      KnownOnTop(s, b, tx);
    case AddedToParallelTop =>
      KnownMoved(crypto, s, b, tx);
    case _ =>
      StepBesides(crypto, s, b);
      OnMainFrame(s.chain, b, tx);
  }

  // ----- Transactions that arrive

  /**
   What the node takes for granted of an incoming transaction: it has inputs, its ID identifies
   it, and nothing in the pool has the empty ID that a reward names.
   */
  ghost predicate IncomingTx(s: NodeState, tx: Transaction)
    requires s.chain.Valid()
  {
    && tx.vin != []
    && (forall h, u :: h in s.chain.tree.blocks && u in s.chain.tree.blocks[h].txs && u.id == tx.id ==> u == tx)
    && (tx.id in s.pool ==> s.pool[tx.id] == tx)
    && (tx.IsCoinbase() ==> tx.vin[0].txid !in s.pool)
  }

  ghost function StepTx(crypto: Crypto, s: NodeState, tx: Transaction): NodeState {
    NodeState(s.chain, s.utxo, PoolAfter(crypto, s.chain.tree, s.utxo, s.pool, tx))
  }

  lemma StoredById(s: NodeState, tx: Transaction)
    requires s.chain.Valid() && IncomingTx(s, tx) && HasId(Entries(s.chain.tree, s.chain.top), tx.id)
    ensures OnMain(s.chain, tx)
  {
    var es := Entries(s.chain.tree, s.chain.top);
    var i :| 0 <= i < |es| && es[i].tx.id == tx.id;
    EntrySource(s.chain.tree, s.chain.top, es[i]);
    assert es[i] in es && es[i] == Entry(tx, es[i].block);
  }

  lemma AcceptedTxIsNew(crypto: Crypto, s: NodeState, tx: Transaction)
    requires NodeInv(crypto, s) && IncomingTx(s, tx) && QuickAccepts(crypto, s.chain.tree, s.utxo, s.pool, tx)
    ensures !tx.IsCoinbase() && !HasId(Entries(s.chain.tree, s.chain.top), tx.id)
  {
    var t, es := s.chain.tree, Entries(s.chain.tree, s.chain.top);
    assert ProperAt(crypto, t, s.chain.top);
    ProperIsSound(crypto, es);
    if tx.IsCoinbase() {
      QuickRefusesRewards(crypto, t, es, s.utxo, s.pool, tx);
    } else if HasId(es, tx.id) {
      StoredById(s, tx);
      QuickRefusesOnMain(crypto, t, s.chain.top, s.utxo, s.pool, tx);
    }
  }

  lemma AddedKeepsPoolInv(s: NodeState, tx: Transaction)
    requires s.chain.Valid() && PoolInv(s) && IncomingTx(s, tx)
    requires !tx.IsCoinbase() && !HasId(Entries(s.chain.tree, s.chain.top), tx.id)
    ensures PoolInv(NodeState(s.chain, s.utxo, Added(s.pool, tx)))
  {
    AddedKeepsOk(s.pool, tx);
  }

  /** An incoming transaction keeps everything that holds of the node. */
  lemma StepTxKeepsInv(crypto: Crypto, s: NodeState, tx: Transaction)
    requires NodeInv(crypto, s) && IncomingTx(s, tx)
    ensures NodeInv(crypto, StepTx(crypto, s, tx))
  {
    if QuickAccepts(crypto, s.chain.tree, s.utxo, s.pool, tx) {
      AcceptedTxIsNew(crypto, s, tx);
      AddedKeepsPoolInv(s, tx);
    } else {
      assert StepTx(crypto, s, tx) == s;
    }
  }

  // ----- Runs

  /** What happens to a node: a block or a transaction comes, a user cancels one, or the node prepares a block of the listed ones. */
  datatype Event = BlockArrives(block: Block) | TxArrives(tx: Transaction) | TxCancelled(id: Bytes) | BlockPrepared(list: seq<Transaction>)

  ghost predicate Fit(s: NodeState, e: Event)
    requires s.chain.Valid()
  {
    match e
    case BlockArrives(b) => Incoming(s, b)
    case TxArrives(tx) => IncomingTx(s, tx)
    case TxCancelled(id) => true
    case BlockPrepared(list) => Drawn(s.pool, list) && SortedByTime(list)
  }

  ghost function Next(crypto: Crypto, s: NodeState, e: Event): NodeState
    requires s.chain.Valid() && Fit(s, e)
  {
    match e
    case BlockArrives(b) => Step(crypto, s, b)
    case TxArrives(tx) => StepTx(crypto, s, tx)
    case TxCancelled(id) => NodeState(s.chain, s.utxo, s.pool - {id})
    case BlockPrepared(list) => NodeState(s.chain, s.utxo, s.pool - Dropped(s.chain, crypto, list))
  }

  /** Taking transactions out of the pool keeps everything that holds of the node. */
  lemma FewerKeepsInv(crypto: Crypto, s: NodeState, ids: set<Bytes>)
    requires NodeInv(crypto, s)
    ensures NodeInv(crypto, NodeState(s.chain, s.utxo, s.pool - ids))
  {
    var p := s.pool - ids;
    assert PoolOk(p);
    assert PoolAgrees(p, s.chain.tree);
    assert OffMain(p, s.chain.tree, s.chain.top);
  }

  lemma NextKeepsInv(crypto: Crypto, s: NodeState, e: Event)
    requires NodeInv(crypto, s) && Fit(s, e)
    ensures NodeInv(crypto, Next(crypto, s, e))
  {
    match e
    case BlockArrives(b) => StepKeepsInv(crypto, s, b);
    case TxArrives(tx) => StepTxKeepsInv(crypto, s, tx);
    case TxCancelled(id) => FewerKeepsInv(crypto, s, {id});
    case BlockPrepared(list) => FewerKeepsInv(crypto, s, Dropped(s.chain, crypto, list));
  }

  /** The node after the events, one by one. */
  ghost function After(crypto: Crypto, s: NodeState, es: seq<Event>): NodeState {
    if es == [] then s
    else
      var r := After(crypto, s, es[..|es| - 1]);
      if r.chain.Valid() && Fit(r, es[|es| - 1]) then Next(crypto, r, es[|es| - 1]) else r
  }

  /** Every event of the run is fit to come when it comes. */
  ghost predicate RunFit(crypto: Crypto, s: NodeState, es: seq<Event>) {
    es != [] ==>
      && RunFit(crypto, s, es[..|es| - 1])
      && After(crypto, s, es[..|es| - 1]).chain.Valid()
      && Fit(After(crypto, s, es[..|es| - 1]), es[|es| - 1])
  }

  lemma AfterStep(crypto: Crypto, s: NodeState, es: seq<Event>)
    requires RunFit(crypto, s, es) && es != []
    ensures var r, e := After(crypto, s, es[..|es| - 1]), es[|es| - 1];
            && RunFit(crypto, s, es[..|es| - 1]) && r.chain.Valid() && Fit(r, e)
            && After(crypto, s, es) == Next(crypto, r, e)
  {
  }

  ghost predicate NextClean(crypto: Crypto, s: NodeState, e: Event)
    requires s.chain.Valid() && Fit(s, e)
  {
    e.BlockArrives? ==> StepClean(crypto, s, e.block)
  }

  /** No branch replacement of the run loses an output. */
  ghost predicate RunClean(crypto: Crypto, s: NodeState, es: seq<Event>)
    requires RunFit(crypto, s, es)
  {
    es != [] ==> RunClean(crypto, s, es[..|es| - 1]) && NextClean(crypto, After(crypto, s, es[..|es| - 1]), es[|es| - 1])
  }

  /** Every run keeps the tree, fork choice, chain and pool invariants. */
  lemma {:induction false} RunKeepsInv(crypto: Crypto, s: NodeState, es: seq<Event>)
    requires NodeInv(crypto, s) && RunFit(crypto, s, es)
    ensures NodeInv(crypto, After(crypto, s, es))
    decreases |es|
  {
    if es != [] {
      AfterStep(crypto, s, es);
      RunKeepsInv(crypto, s, es[..|es| - 1]);
      NextKeepsInv(crypto, After(crypto, s, es[..|es| - 1]), es[|es| - 1]);
    }
  }

  /** After any run at all, every unspent output the node keeps is one of its main chain, with that coin. */
  lemma RunInventsNothing(crypto: Crypto, s: NodeState, es: seq<Event>, op: Outpoint)
    requires NodeInv(crypto, s) && RunFit(crypto, s, es)
    ensures After(crypto, s, es).chain.Valid()
    ensures var r := After(crypto, s, es);
            var exact := Unspent(Entries(r.chain.tree, r.chain.top));
            op in r.utxo ==> op in exact && r.utxo[op] == exact[op]
  {
    RunKeepsInv(crypto, s, es);
  }

  lemma NextKeepsUtxo(crypto: Crypto, s: NodeState, e: Event)
    requires NodeInv(crypto, s) && Fit(s, e) && UtxoExact(s) && NextClean(crypto, s, e)
    ensures Next(crypto, s, e).chain.Valid() && UtxoExact(Next(crypto, s, e))
  {
    if e.BlockArrives? {
      StepKeepsUtxo(crypto, s, e.block);
    }
  }

  /**
   After any run whose branch replacements are clean, the incremental unspent outputs are those
   of the full scan of the main chain.
   */
  lemma {:induction false} RunKeepsUtxo(crypto: Crypto, s: NodeState, es: seq<Event>)
    requires NodeInv(crypto, s) && UtxoExact(s) && RunFit(crypto, s, es) && RunClean(crypto, s, es)
    ensures NodeInv(crypto, After(crypto, s, es)) && UtxoExact(After(crypto, s, es))
    decreases |es|
  {
    RunKeepsInv(crypto, s, es);
    if es != [] {
      AfterStep(crypto, s, es);
      RunKeepsUtxo(crypto, s, es[..|es| - 1]);
      NextKeepsUtxo(crypto, After(crypto, s, es[..|es| - 1]), es[|es| - 1]);
    }
  }

  /** After any run no path of the tree, on the main chain or off it, spends an output twice. */
  lemma NoDoubleSpend(crypto: Crypto, s: NodeState, es: seq<Event>, h: Bytes)
    requires NodeInv(crypto, s) && RunFit(crypto, s, es)
    ensures After(crypto, s, es).chain.Valid()
    ensures h in After(crypto, s, es).chain.tree.blocks ==>
              SpentOnce(Entries(After(crypto, s, es).chain.tree, h)) && Backed(Entries(After(crypto, s, es).chain.tree, h))
  {
    RunKeepsInv(crypto, s, es);
    var t := After(crypto, s, es).chain.tree;
    if h in t.blocks {
      assert ProperAt(crypto, t, h);
      ProperIsSound(crypto, Entries(t, h));
    }
  }

  /** Ten coins for each of n blocks, to within one smallest unit for each of m transactions that is no reward. */
  ghost predicate MoneyKept(total: real, n: nat, m: nat) {
    n <= m && Abs(total - PAYMENT_FOR_BLOCK_MADE * n as real) <= SMALLEST_UNIT * (m - n) as real
  }

  lemma ChainMoney(crypto: Crypto, es: seq<Entry>)
    requires Proper(crypto, es)
    ensures MoneyKept(Total(Unspent(es)), Rewards(es), |es|)
  {
    Conservation(crypto, es);
  }

  lemma PathRewards(crypto: Crypto, t: Tree, h: Bytes)
    requires t.Valid() && AllProper(crypto, t) && h in t.blocks
    ensures Rewards(Entries(t, h)) == |t.Path(h)|
  {
    PathStored(t, h);
    forall a | a in t.Path(h) ensures OneCoinbase(t.blocks[a].txs) {
      assert ProperAt(crypto, t, a);
    }
    RewardsOfPath(t, h);
  }

  /** The unspent outputs of any stored path total ten coins for each of its blocks, up to the slack. */
  lemma PathMoney(crypto: Crypto, t: Tree, h: Bytes)
    requires t.Valid() && AllProper(crypto, t) && h in t.blocks
    ensures MoneyKept(Total(Unspent(Entries(t, h))), |t.Path(h)|, |Entries(t, h)|)
  {
    assert ProperAt(crypto, t, h);
    PathRewards(crypto, t, h);
    ChainMoney(crypto, Entries(t, h));
  }

  /**
   After any run with clean branch replacements the unspent outputs total ten coins for every
   block of the main chain, to within one smallest unit for each of its ordinary transactions.
   */
  lemma RunConservesMoney(crypto: Crypto, s: NodeState, es: seq<Event>)
    requires NodeInv(crypto, s) && UtxoExact(s) && RunFit(crypto, s, es) && RunClean(crypto, s, es)
    ensures After(crypto, s, es).chain.Valid()
    ensures var r := After(crypto, s, es);
            MoneyKept(Total(r.utxo), |r.chain.Main()|, |Entries(r.chain.tree, r.chain.top)|)
  {
    RunKeepsUtxo(crypto, s, es);
    PathMoney(crypto, After(crypto, s, es).chain.tree, After(crypto, s, es).chain.top);
  }

  /** After any run at all the node keeps no more money than its main chain has made. */
  lemma RunInflatesNothing(crypto: Crypto, s: NodeState, es: seq<Event>)
    requires NodeInv(crypto, s) && RunFit(crypto, s, es)
    ensures After(crypto, s, es).chain.Valid()
    ensures var r := After(crypto, s, es);
            var n, m := |r.chain.Main()|, |Entries(r.chain.tree, r.chain.top)|;
            n <= m && Total(r.utxo) <= PAYMENT_FOR_BLOCK_MADE * n as real + SMALLEST_UNIT * (m - n) as real
  {
    RunKeepsInv(crypto, s, es);
    var r := After(crypto, s, es);
    PathMoney(crypto, r.chain.tree, r.chain.top);
    PathNoMore(crypto, r.chain.tree, r.chain.top, r.utxo);
  }

  lemma PathNoMore(crypto: Crypto, t: Tree, h: Bytes, u: Utxo)
    requires t.Valid() && AllProper(crypto, t) && h in t.blocks && Within(u, Unspent(Entries(t, h)))
    ensures Total(u) <= Total(Unspent(Entries(t, h)))
  {
    assert ProperAt(crypto, t, h);
    CoinsPositive(crypto, Entries(t, h));
    TotalWithin(u, Unspent(Entries(t, h)));
  }

  /** Every coin of a proper chain has a positive value. */
  lemma {:induction false} CoinsPositive(crypto: Crypto, es: seq<Entry>)
    requires Proper(crypto, es)
    ensures forall op :: op in Unspent(es) ==> Unspent(es)[op].value > 0.0
    decreases |es|
  {
    if es != [] {
      var init, e := es[..|es| - 1], es[|es| - 1];
      CoinsPositive(crypto, init);
      ProperSplit(crypto, es);
      assert forall k :: 0 <= k < |e.tx.vout| ==> e.tx.vout[k].value > 0.0;
    }
  }

  lemma {:induction false} TotalWithin(u: Utxo, v: Utxo)
    requires Within(u, v) && forall op :: op in v ==> v[op].value > 0.0
    ensures Total(u) <= Total(v)
    decreases |v|
  {
    if v == map[] {
      assert u == map[];
    } else {
      var op :| op in v;
      TotalRemove(v, op);
      if op in u {
        TotalRemove(u, op);
        TotalWithin(u - {op}, v - {op});
      } else {
        TotalWithin(u, v - {op});
      }
    }
  }

  /** Some state of the run had a rival of the transaction in the pool. */
  ghost predicate RivalOnRun(crypto: Crypto, s: NodeState, es: seq<Event>, tx: Transaction) {
    exists k {:trigger es[..k]} :: 0 <= k <= |es| && RivalIn(After(crypto, s, es[..k]).pool, tx)
  }

  /** Preparing a block, the node drops the transaction from its pool. */
  ghost predicate DropsIt(crypto: Crypto, r: NodeState, e: Event, tx: Transaction) {
    e.BlockPrepared? && r.chain.Valid() && tx.id in Dropped(r.chain, crypto, e.list)
  }

  ghost predicate DroppedOnRun(crypto: Crypto, s: NodeState, es: seq<Event>, tx: Transaction) {
    exists k {:trigger es[..k]} :: 0 <= k < |es| && DropsIt(crypto, After(crypto, s, es[..k]), es[k], tx)
  }

  ghost predicate CancelledOnRun(es: seq<Event>, tx: Transaction) {
    TxCancelled(tx.id) in es
  }

  lemma RivalStays(crypto: Crypto, s: NodeState, es: seq<Event>, tx: Transaction)
    requires es != []
    requires RivalOnRun(crypto, s, es[..|es| - 1], tx) || RivalIn(After(crypto, s, es[..|es| - 1]).pool, tx)
    ensures RivalOnRun(crypto, s, es, tx)
  {
    var init := es[..|es| - 1];
    if RivalOnRun(crypto, s, init, tx) {
      var k :| 0 <= k <= |init| && RivalIn(After(crypto, s, init[..k]).pool, tx);
      assert init[..k] == es[..k];
    } else {
      assert es[..|init|] == init;
    }
  }

  lemma DropStays(crypto: Crypto, s: NodeState, es: seq<Event>, tx: Transaction)
    requires es != []
    requires DroppedOnRun(crypto, s, es[..|es| - 1], tx) || DropsIt(crypto, After(crypto, s, es[..|es| - 1]), es[|es| - 1], tx)
    ensures DroppedOnRun(crypto, s, es, tx)
  {
    var init := es[..|es| - 1];
    if DroppedOnRun(crypto, s, init, tx) {
      var k :| 0 <= k < |init| && DropsIt(crypto, After(crypto, s, init[..k]), init[k], tx);
      assert init[..k] == es[..k] && es[k] == init[k];
    } else {
      assert es[..|init|] == init;
    }
  }

  lemma KnownAfterTx(crypto: Crypto, s: NodeState, u: Transaction, tx: Transaction)
    requires s.chain.Valid() && IncomingTx(s, u) && Known(s, tx)
    ensures Known(StepTx(crypto, s, u), tx)
  {
    if Pooled(s.pool, tx) {
      assert Pooled(Added(s.pool, u), tx);
    }
  }

  lemma KnownAmongFewer(s: NodeState, ids: set<Bytes>, tx: Transaction)
    requires s.chain.Valid() && Known(s, tx) && tx.id !in ids
    ensures Known(NodeState(s.chain, s.utxo, s.pool - ids), tx)
  {
    if Pooled(s.pool, tx) {
      assert Pooled(s.pool - ids, tx);
    }
  }

  lemma NextLosesNothing(crypto: Crypto, s: NodeState, e: Event, tx: Transaction)
    requires NodeInv(crypto, s) && Fit(s, e) && Known(s, tx) && !tx.IsCoinbase()
    ensures Next(crypto, s, e).chain.Valid()
    ensures Known(Next(crypto, s, e), tx) || RivalIn(s.pool, tx) || e == TxCancelled(tx.id) || DropsIt(crypto, s, e, tx)
  {
    match e
    case BlockArrives(b) => StepLosesNothing(crypto, s, b, tx);
    case TxArrives(u) => KnownAfterTx(crypto, s, u, tx);
    case TxCancelled(id) =>
      if id != tx.id {
        KnownAmongFewer(s, {id}, tx);
      }
    case BlockPrepared(list) =>
      if !DropsIt(crypto, s, e, tx) {
        KnownAmongFewer(s, Dropped(s.chain, crypto, list), tx);
      }
  }

  /**
   An ordinary transaction once known is known after the run, or a user cancelled it, or a rival
   of it was in the pool, or the node dropped it when it prepared a block.
   */
  lemma {:induction false} RunLosesNothing(crypto: Crypto, s: NodeState, es: seq<Event>, tx: Transaction)
    requires NodeInv(crypto, s) && RunFit(crypto, s, es) && Known(s, tx) && !tx.IsCoinbase()
    ensures After(crypto, s, es).chain.Valid()
    ensures Known(After(crypto, s, es), tx) || CancelledOnRun(es, tx) || RivalOnRun(crypto, s, es, tx) || DroppedOnRun(crypto, s, es, tx)
    decreases |es|
  {
    RunKeepsInv(crypto, s, es);
    if es != [] {
      var init := es[..|es| - 1];
      AfterStep(crypto, s, es);
      RunKeepsInv(crypto, s, init);
      RunLosesNothing(crypto, s, init, tx);
      if Known(After(crypto, s, init), tx) {
        NextLosesNothing(crypto, After(crypto, s, init), es[|es| - 1], tx);
      }
      ExcuseStays(crypto, s, es, tx);
    }
  }

  lemma ExcuseStays(crypto: Crypto, s: NodeState, es: seq<Event>, tx: Transaction)
    requires es != []
    ensures CancelledOnRun(es[..|es| - 1], tx) || es[|es| - 1] == TxCancelled(tx.id) ==> CancelledOnRun(es, tx)
    ensures RivalOnRun(crypto, s, es[..|es| - 1], tx) || RivalIn(After(crypto, s, es[..|es| - 1]).pool, tx) ==> RivalOnRun(crypto, s, es, tx)
    ensures DroppedOnRun(crypto, s, es[..|es| - 1], tx) || DropsIt(crypto, After(crypto, s, es[..|es| - 1]), es[|es| - 1], tx)
            ==> DroppedOnRun(crypto, s, es, tx)
  {
    if RivalOnRun(crypto, s, es[..|es| - 1], tx) || RivalIn(After(crypto, s, es[..|es| - 1]).pool, tx) {
      RivalStays(crypto, s, es, tx);
    }
    if DroppedOnRun(crypto, s, es[..|es| - 1], tx) || DropsIt(crypto, After(crypto, s, es[..|es| - 1]), es[|es| - 1], tx) {
      DropStays(crypto, s, es, tx);
    }
  }

  // ----- Conditions a caller can check for clean replacements

  /** Apart from the main chain and the branch of old nothing is stored. */
  ghost predicate OnlyTwo(c: Chain, old_: Bytes)
    requires c.Valid() && old_ in c.tree.blocks
  {
    forall h :: h in c.tree.blocks ==> h in c.Main() || h in c.tree.Path(old_)
  }

  lemma OnlyTwoIsTwoBranches(c: Chain, old_: Bytes)
    requires c.Valid() && old_ in c.tree.blocks && OnlyTwo(c, old_)
    ensures TwoBranches(c, old_)
  {
    MergeHighest(c.tree, old_, c.top);
    PathsMeet(c.tree, old_, c.top, MergeBlock(c.tree, old_, c.top));
  }

  ghost predicate BranchOrdered(c: Chain, old_: Bytes)
    requires c.Valid() && old_ in c.tree.blocks
  {
    forall b :: b in Branches(c.tree, old_, c.top).0 ==> b.prev in c.tree.blocks && InputsOrdered(b, Entries(c.tree, b.prev))
  }

  /** If the block replaces the main branch, only two branches compete and the inputs of the old one are in order. */
  ghost predicate StepOrdered(crypto: Crypto, s: NodeState, b: Block)
    requires s.chain.Valid() && s.chain.Acceptable(b)
  {
    AddKeepsValid(s.chain, b);
    Admitted(crypto, s.chain, b) && s.chain.AddStateOf(b) == AddedToParallelTop ==>
      TwoBranches(s.chain.Add(b), s.chain.top) && BranchOrdered(s.chain.Add(b), s.chain.top)
  }

  ghost predicate NextOrdered(crypto: Crypto, s: NodeState, e: Event)
    requires s.chain.Valid() && Fit(s, e)
  {
    e.BlockArrives? ==> StepOrdered(crypto, s, e.block)
  }

  ghost predicate RunOrdered(crypto: Crypto, s: NodeState, es: seq<Event>)
    requires RunFit(crypto, s, es)
  {
    es != [] ==> RunOrdered(crypto, s, es[..|es| - 1]) && NextOrdered(crypto, After(crypto, s, es[..|es| - 1]), es[|es| - 1])
  }

  lemma OrderedIsClean(c: Chain, old_: Bytes)
    requires c.Valid() && old_ in c.tree.blocks && TwoBranches(c, old_) && BranchOrdered(c, old_)
    ensures CleanBranch(c, old_)
  {
    forall b | b in Branches(c.tree, old_, c.top).0 ensures b.prev in c.tree.blocks && CleanCancel(c, b) {
      TwoBranchesClean(c, old_, b);
    }
  }

  /** Then nothing is lost. */
  lemma OrderedLosesNothing(crypto: Crypto, s: NodeState, b: Block)
    requires NodeInv(crypto, s) && Incoming(s, b) && UtxoExact(s) && StepOrdered(crypto, s, b)
    ensures StepClean(crypto, s, b)
  {
    AddKeepsValid(s.chain, b);
    if Admitted(crypto, s.chain, b) && s.chain.AddStateOf(b) == AddedToParallelTop {
      UtxoMoved(crypto, s, b);
      OrderedIsClean(s.chain.Add(b), s.chain.top);
      CleanLosesNothing(s.chain.Add(b), s.chain.top);
    }
  }

  /** Two competing branches and ordered inputs at every replacement make the run clean. */
  lemma {:induction false} RunOrderedIsClean(crypto: Crypto, s: NodeState, es: seq<Event>)
    requires NodeInv(crypto, s) && UtxoExact(s) && RunFit(crypto, s, es) && RunOrdered(crypto, s, es)
    ensures RunClean(crypto, s, es)
    decreases |es|
  {
    if es != [] {
      AfterStep(crypto, s, es);
      RunOrderedIsClean(crypto, s, es[..|es| - 1]);
      RunKeepsUtxo(crypto, s, es[..|es| - 1]);
      var r, e := After(crypto, s, es[..|es| - 1]), es[|es| - 1];
      if e.BlockArrives? {
        OrderedLosesNothing(crypto, r, e.block);
      }
    }
  }

  // ----- Where runs start

  /** A node with the genesis block alone. */
  function Genesis(b: Block): NodeState {
    NodeState(Chain(Tree(map[b.hash := b], b.hash), b.hash), ApplyAll0(b), map[])
  }

  function ApplyAll0(b: Block): Utxo {
    if |b.txs| == 1 then Creates(Entry(b.txs[0], b.hash)) else map[]
  }

  /** The genesis block: no parent, height zero, one reward. */
  ghost predicate IsGenesis(b: Block) {
    && IsHash(b.hash) && b.prev == [] && b.height == 0
    && |b.txs| == 1 && b.txs[0].IsCoinbase() && CoinbaseOk(b.txs[0])
  }

  lemma GenesisEntries(b: Block)
    requires IsGenesis(b)
    ensures Genesis(b).chain.Valid() && TopIsHighest(Genesis(b).chain)
    ensures Entries(Genesis(b).chain.tree, b.hash) == [Entry(b.txs[0], b.hash)]
  {
    assert Genesis(b).chain.tree.Link(b.hash);
    assert Tag(b) == [Entry(b.txs[0], b.hash)];
  }

  lemma GenesisPool(crypto: Crypto, b: Block)
    requires IsGenesis(b)
    ensures Genesis(b).chain.Valid() && IdsIdentify(Genesis(b).chain.tree) && PoolInv(Genesis(b))
  {
    GenesisEntries(b);
    assert forall u :: u in b.txs ==> u == b.txs[0];
  }

  lemma GenesisInv(crypto: Crypto, b: Block)
    requires IsGenesis(b)
    ensures NodeInv(crypto, Genesis(b)) && UtxoExact(Genesis(b))
  {
    var s := Genesis(b);
    GenesisEntries(b);
    var e := Entry(b.txs[0], b.hash);
    ProperStep(crypto, [], e);
    assert [] + [e] == [e] && [e][..0] == [];
    assert OneCoinbase(b.txs) by { assert b.txs[0].IsCoinbase(); }
    GenesisPool(crypto, b);
    forall h {:trigger ProperAt(crypto, s.chain.tree, h)} | h in s.chain.tree.blocks ensures ProperAt(crypto, s.chain.tree, h)
    {
      assert h == b.hash;
    }
    assert ApplyAll(map[], []) == map[] && Apply(map[], e) == Creates(e);
    assert Unspent([e]) == Apply(ApplyAll(map[], [e][..0]), [e][0]);
  }

  /** From the genesis block on, replacing one of two branches by the other keeps the unspent outputs exact. */
  lemma OrderedRunsAreExact(crypto: Crypto, b: Block, es: seq<Event>)
    requires IsGenesis(b) && RunFit(crypto, Genesis(b), es) && RunOrdered(crypto, Genesis(b), es)
    ensures NodeInv(crypto, After(crypto, Genesis(b), es)) && UtxoExact(After(crypto, Genesis(b), es))
  {
    GenesisInv(crypto, b);
    RunOrderedIsClean(crypto, Genesis(b), es);
    RunKeepsUtxo(crypto, Genesis(b), es);
  }
}

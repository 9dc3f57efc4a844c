/**
 Whole runs of the node, output by output: which outputs of the main chain its cache lacks
 (node/nodemanager/node.go:374-428).
 */
module RunDrift {
  import opened Structures
  import opened Blockchain
  import opened Ledger
  import opened Acceptance
  import opened Drift
  import opened NodeRuns

  ghost function Exact(s: NodeState): Utxo
    requires s.chain.Valid()
  {
    Unspent(Entries(s.chain.tree, s.chain.top))
  }

  /** The event makes another branch the main one. */
  ghost predicate Replaces(crypto: Crypto, s: NodeState, e: Event)
    requires s.chain.Valid() && Fit(s, e)
  {
    e.BlockArrives? && Admitted(crypto, s.chain, e.block) && s.chain.AddStateOf(e.block) == AddedToParallelTop
  }

  /**
   The run leaves the cache without the output: the last replacement lost it, or there was none
   and it was missing at the start, and it stayed unspent ever since.
   */
  ghost predicate Missing(crypto: Crypto, s: NodeState, es: seq<Event>, op: Outpoint)
    requires s.chain.Valid() && RunFit(crypto, s, es)
  {
    if es == [] then op in Exact(s) && op !in s.utxo
    else
      var init, e := es[..|es| - 1], es[|es| - 1];
      var r := After(crypto, s, init);
      if Replaces(crypto, r, e) then
        AddKeepsValid(r.chain, e.block);
        Lost(r.chain.Add(e.block), r.utxo, r.chain.top, op)
      else
        Missing(crypto, s, init, op) && After(crypto, s, es).chain.Valid() && op in Exact(After(crypto, s, es))
  }

  /** What a step makes of an output: a replacement loses the lost ones, anything else neither restores nor loses. */
  lemma StepAt(crypto: Crypto, s: NodeState, e: Event, op: Outpoint)
    requires NodeInv(crypto, s) && Fit(s, e)
    ensures s.chain.Valid() && Next(crypto, s, e).chain.Valid()
    ensures Replaces(crypto, s, e) ==>
              && s.chain.Add(e.block).Valid() && s.chain.top in s.chain.Add(e.block).tree.blocks
              && (Lost(s.chain.Add(e.block), s.utxo, s.chain.top, op) ==> op in Exact(Next(crypto, s, e)))
              && (op in Next(crypto, s, e).utxo <==>
                    op in Exact(Next(crypto, s, e)) && !Lost(s.chain.Add(e.block), s.utxo, s.chain.top, op))
    ensures !Replaces(crypto, s, e) ==>
              (op in Next(crypto, s, e).utxo <==> op in Exact(Next(crypto, s, e)) && (op in Exact(s) ==> op in s.utxo))
  {
    if e.BlockArrives? && Admitted(crypto, s.chain, e.block) {
      var b := e.block;
      AddKeepsValid(s.chain, b);
      match s.chain.AddStateOf(b)
      case AddedToTop => OnTopAt(crypto, s, b, op);
      case AddedToParallelTop => MovedAt(crypto, s, b, op);
      case _ => EntriesAdded(s.chain.tree, b, s.chain.top);
    } else {
      assert Next(crypto, s, e).chain == s.chain && Next(crypto, s, e).utxo == s.utxo;
    }
  }

  lemma OnTopAt(crypto: Crypto, s: NodeState, b: Block, op: Outpoint)
    requires NodeInv(crypto, s) && Incoming(s, b) && Admitted(crypto, s.chain, b) && s.chain.AddStateOf(b) == AddedToTop
    ensures Step(crypto, s, b).chain.Valid()
    ensures op in Step(crypto, s, b).utxo <==> op in Exact(Step(crypto, s, b)) && (op in Exact(s) ==> op in s.utxo)
  {
    var below := Entries(s.chain.tree, b.prev);
    StepOnTop(crypto, s, b);
    EntriesAdded(s.chain.tree, b, b.hash);
    StepKeepsProper(crypto, s.chain, b);
    assert ProperAt(crypto, s.chain.tree.Add(b), b.hash);
    ProperIsSound(crypto, below + Tag(b));
    MissingStays(below, Tag(b), s.utxo, op);
  }

  lemma MovedAt(crypto: Crypto, s: NodeState, b: Block, op: Outpoint)
    requires NodeInv(crypto, s) && Incoming(s, b) && Admitted(crypto, s.chain, b) && s.chain.AddStateOf(b) == AddedToParallelTop
    ensures var c := s.chain.Add(b);
            && c.Valid() && Step(crypto, s, b).chain == c && s.chain.top in c.tree.blocks
            && (Lost(c, s.utxo, s.chain.top, op) ==> op in Exact(Step(crypto, s, b)))
            && (op in Step(crypto, s, b).utxo <==> op in Exact(Step(crypto, s, b)) && !Lost(c, s.utxo, s.chain.top, op))
  {
    UtxoMoved(crypto, s, b);
    ReorganisedAt(s.chain.Add(b), s.utxo, s.chain.top, op);
  }

  /** After any run the cache holds the unspent outputs of the main chain without the missing ones. */
  lemma {:induction false} RunKeepsAt(crypto: Crypto, s: NodeState, es: seq<Event>, op: Outpoint)
    requires NodeInv(crypto, s) && RunFit(crypto, s, es)
    ensures After(crypto, s, es).chain.Valid()
    ensures Missing(crypto, s, es, op) ==> op in Exact(After(crypto, s, es))
    ensures op in After(crypto, s, es).utxo <==> op in Exact(After(crypto, s, es)) && !Missing(crypto, s, es, op)
    decreases |es|
  {
    if es != [] {
      var init := es[..|es| - 1];
      AfterStep(crypto, s, es);
      RunKeepsInv(crypto, s, init);
      RunKeepsAt(crypto, s, init, op);
      StepAt(crypto, After(crypto, s, init), es[|es| - 1], op);
    }
  }

  ghost predicate NoneMissing(crypto: Crypto, s: NodeState, es: seq<Event>)
    requires s.chain.Valid() && RunFit(crypto, s, es)
  {
    forall op :: !Missing(crypto, s, es, op)
  }

  /** So a run ends with exact unspent outputs if and only if none is missing. */
  lemma RunExactIff(crypto: Crypto, s: NodeState, es: seq<Event>)
    requires NodeInv(crypto, s) && RunFit(crypto, s, es)
    ensures After(crypto, s, es).chain.Valid()
    ensures UtxoExact(After(crypto, s, es)) <==> NoneMissing(crypto, s, es)
  {
    RunKeepsInv(crypto, s, es);
    if UtxoExact(After(crypto, s, es)) {
      forall op ensures !Missing(crypto, s, es, op) {
        RunKeepsAt(crypto, s, es, op);
      }
    }
    if NoneMissing(crypto, s, es) {
      forall op | op in Exact(After(crypto, s, es)) ensures op in After(crypto, s, es).utxo {
        RunKeepsAt(crypto, s, es, op);
      }
      RealAndAll(After(crypto, s, es));
    }
  }

  lemma RealAndAll(s: NodeState)
    requires s.chain.Valid() && UtxoReal(s) && forall op :: op in Exact(s) ==> op in s.utxo
    ensures UtxoExact(s)
  {
    SameIff(s.utxo, Exact(s));
  }
}

/**
 Making and verifying blocks (node/consensus/manager.go).
 */
module Consensus {
  import opened Structures
  import opened Blockchain
  import opened Pool
  import opened Acceptance
  import opened Preparation
  import opened TransactionsManager

  lemma TwoCoinbases(txs: seq<Transaction>, i: nat, j: nat)
    requires i < j < |txs| && txs[i].IsCoinbase() && txs[j].IsCoinbase()
    ensures !OneCoinbase(txs)
  {
  }

  /** Among the first k transactions: no reward yet, or exactly the one at the place. */
  ghost predicate CoinbaseSeen(txs: seq<Transaction>, k: nat, used: bool, place: int)
    requires k <= |txs|
  {
    && (used ==> 0 <= place < k && txs[place].IsCoinbase())
    && forall j :: 0 <= j < k && txs[j].IsCoinbase() ==> used && j == place
  }

  lemma CoinbaseDecided(txs: seq<Transaction>, used: bool, place: int)
    requires CoinbaseSeen(txs, |txs|, used, place)
    ensures used <==> OneCoinbase(txs)
  {
  }

  lemma AcceptedUpTo(c: Chain, crypto: Crypto, b: Block, k: nat)
    requires c.Valid() && b.prev in c.tree.blocks && k < |b.txs| && AllAccepted(c, crypto, b, k)
    ensures AllAccepted(c, crypto, b, k + 1) <==> Accepts(c, crypto, b.txs[k], b.txs[..k], b.prev)
    ensures !Accepts(c, crypto, b.txs[k], b.txs[..k], b.prev) ==> !AllAccepted(c, crypto, b, |b.txs|)
  {
    assert AcceptedAt(c, crypto, b, k) <==> Accepts(c, crypto, b.txs[k], b.txs[..k], b.prev);
  }

  function RewardOf(minter: Bytes, data: Bytes, id: Bytes): (tx: Transaction)
    ensures IsReward(tx)
  {
    Transaction(id, [TXInput([], -1, [], data)], [TXOutput(PAYMENT_FOR_BLOCK_MADE, minter)], 0)
  }

  // ----- The proof of work

  /** The hash of the data of a block with a nonce, and the test of a hash against the target of a height. */
  datatype ProofOfWork = ProofOfWork(hash: (Bytes, seq<Transaction>, int, int) -> Bytes, below: (Bytes, int) -> bool)

  const MAX_NONCE: int := 0x7FFF_FFFF_FFFF_FFFF

  function PowHash(pow: ProofOfWork, b: Block, nonce: int): Bytes {
    pow.hash(b.prev, b.txs, b.timestamp, nonce)
  }

  predicate Hits(pow: ProofOfWork, b: Block, nonce: int) {
    pow.below(PowHash(pow, b, nonce), b.height)
  }

  /** Blocks are judged by this proof of work. */
  ghost predicate Judges(pow: ProofOfWork, crypto: Crypto) {
    forall b: Block :: crypto.powValid(b) <==> Hits(pow, b, b.nonce)
  }

  /** The least nonce below the maximum that hits, with its hash; the maximum, with the last hash tried, if none does. */
  ghost predicate Mined(pow: ProofOfWork, b: Block, nonce: int, hash: Bytes) {
    && 0 <= nonce <= MAX_NONCE && (forall k {:trigger Hits(pow, b, k)} :: 0 <= k < nonce ==> !Hits(pow, b, k))
    && (nonce < MAX_NONCE ==> Hits(pow, b, nonce))
    && hash == PowHash(pow, b, if nonce < MAX_NONCE then nonce else MAX_NONCE - 1)
  }

  ghost predicate SomeNonceHits(pow: ProofOfWork, b: Block) {
    exists k {:trigger Hits(pow, b, k)} :: 0 <= k <= MAX_NONCE && Hits(pow, b, k)
  }

  /** The search for a nonce. */
  method Run(pow: ProofOfWork, b: Block) returns (nonce: int, hash: Bytes)
    ensures Mined(pow, b, nonce, hash)
    ensures nonce < 0x7FFF_FFFF_FFFF_FFFF ==> hash == pow.hash(b.prev, b.txs, b.timestamp, nonce) && pow.below(hash, b.height)
  {
    nonce, hash := 0, Zeros(HASH_SIZE);
    while nonce < MAX_NONCE
      invariant 0 <= nonce <= MAX_NONCE && forall k {:trigger Hits(pow, b, k)} :: 0 <= k < nonce ==> !Hits(pow, b, k)
      invariant nonce > 0 ==> hash == PowHash(pow, b, nonce - 1)
    {
      hash := PowHash(pow, b, nonce);
      if pow.below(hash, b.height) {
        break;
      }
      nonce := nonce + 1;
    }
  }

  class NodeBlockMaker {
    const txMan: TXManager
    const crypto: Crypto
    const minter: Bytes
    var preparedBlock: Option<Block>

    constructor (txMan: TXManager, crypto: Crypto, minter: Bytes)
      ensures this.txMan == txMan && this.crypto == crypto && this.minter == minter && preparedBlock == None
    {
      this.txMan, this.crypto, this.minter := txMan, crypto, minter;
      preparedBlock := None;
    }

    /** Least and greatest number of ordinary transactions: of a given block, or of the next one on the top. */
    method GetTransactionNumbersLimits(block: Option<Block>) returns (least: int, most: int)
      requires txMan.index.bcMan.db.Valid()
      ensures var db := txMan.index.bcMan.db;
              least == MinTransactions(if block.Some? then block.value.height else db.blocks[db.topHash].height + 1)
      ensures most == MAX_NUMBER_TRANSACTION_IN_BLOCK && 1 <= least <= 1000
      ensures var db := txMan.index.bcMan.db;
              var h := if block.Some? then block.value.height else db.blocks[db.topHash].height + 1;
              forall n: int :: least <= n <= most <==> CountAllowed(h, n)
    {
      if block.None? {
        var state := txMan.index.bcMan.GetState();
        least := state.value.1 + 1;
      } else {
        least := block.value.height;
      }
      if least > MAX_MIN_NUMBER_TRANSACTION_IN_BLOCK {
        least := MAX_MIN_NUMBER_TRANSACTION_IN_BLOCK;
      } else if least < 1 {
        least := 1;
      }
      most := MAX_NUMBER_TRANSACTION_IN_BLOCK;
    }

    /** Verifies a block against the branch it is built on. */
    method VerifyBlock(block: Block) returns (err: Option<Error>)
      requires txMan.Ready(block.prev) && |block.prev| > 0 && txMan.crypto == crypto
      ensures err.None? <==> BlockAccepted(txMan.index.bcMan.State(), crypto, block)
      ensures !crypto.powValid(block) ==> err == Some(BlockInvalid)
      ensures crypto.powValid(block) && !CountAllowed(block.height, |block.txs| - 1) ==> err == Some(TransactionCount)
    {
      ghost var c := txMan.index.bcMan.State();
      if !crypto.powValid(block) {
        return Some(BlockInvalid);
      }
      var txnum := |block.txs| - 1;
      var least, most := GetTransactionNumbersLimits(Some(block));
      if txnum < least {
        return Some(TransactionCount);
      }
      if txnum > most {
        return Some(TransactionCount);
      }
      err := VerifyTransactions(block);
    }

    /** The transaction loop of VerifyBlock. */
    method VerifyTransactions(block: Block) returns (err: Option<Error>)
      requires txMan.Ready(block.prev) && |block.prev| > 0 && txMan.crypto == crypto
      ensures err.None? <==> OneCoinbase(block.txs) && AllAccepted(txMan.index.bcMan.State(), crypto, block, |block.txs|)
    {
      ghost var c := txMan.index.bcMan.State();
      var coinbaseused := false;
      var prevTXs: seq<Transaction> := [];
      ghost var place := 0;
      for k := 0 to |block.txs|
        invariant prevTXs == block.txs[..k]
        invariant CoinbaseSeen(block.txs, k, coinbaseused, place)
        invariant AllAccepted(c, crypto, block, k)
      {
        var tx := block.txs[k];
        if tx.IsCoinbase() {
          if coinbaseused {
            TwoCoinbases(block.txs, place, k);
            return Some(CoinbaseCount);
          }
          coinbaseused := true;
          place := k;
        }
        err := txMan.VerifyTransaction(tx, prevTXs, block.prev);
        AcceptedUpTo(c, crypto, block, k);
        if err.Some? {
          return;
        }
        prevTXs := prevTXs + [tx];
      }
      CoinbaseDecided(block.txs, coinbaseused, place);
      if !coinbaseused {
        return Some(CoinbaseCount);
      }
      return None;
    }

    /** The reward transaction; its data and its ID come from the random source and the hash. */
    method MakeCoinbaseTX(data: Bytes, id: Bytes) returns (tx: Transaction)
      ensures tx == RewardOf(minter, data, id)
      ensures tx.IsCoinbase() && tx.vin[0].pubKey == data && tx.id == id
    {
      tx := Transaction(id, [TXInput([], -1, [], data)], [TXOutput(PAYMENT_FOR_BLOCK_MADE, minter)], 0);
    }

    /** The block of the given transactions and a reward on top of the chain, without hash and nonce. */
    method MakeNewBlockFromTransactions(txs: seq<Transaction>, timestamp: int, data: Bytes, id: Bytes) returns (b: Block, reward: Transaction)
      requires txMan.index.bcMan.db.Valid()
      ensures reward == RewardOf(minter, data, id)
      ensures b == BlockOf(txMan.index.bcMan.State(), txs, reward, timestamp, [], 0)
    {
      var state := txMan.index.bcMan.GetState();
      reward := MakeCoinbaseTX(data, id);
      b := Block(timestamp, txs + [reward], state.value.0, [], 0, state.value.1 + 1);
    }

    /** Chooses transactions and makes the block; it is kept when enough were chosen. */
    method PrepareFromPool(count: int, least: int, timestamp: int, data: Bytes, id: Bytes)
      returns (err: Option<Error>, ghost list: seq<Transaction>, ghost reward: Transaction)
      requires txMan.Ready([]) && PoolOk(txMan.pool.utdb.txs) && txMan.crypto == crypto && least >= 1
      modifies this`preparedBlock, txMan.pool.utdb
      ensures Drawn(old(txMan.pool.utdb.txs), list) && SortedByTime(list) && reward == RewardOf(minter, data, id)
      ensures |list| == DrawCount(|old(txMan.pool.utdb.txs)|, count)
      ensures err.None? <==> least <= |Chosen(txMan.index.bcMan.State(), crypto, list)|
      ensures preparedBlock ==
              if err.Some? then old(preparedBlock)
              else Some(BlockOf(txMan.index.bcMan.State(), Chosen(txMan.index.bcMan.State(), crypto, list), reward, timestamp, [], 0))
      ensures txMan.pool.utdb.txs == old(txMan.pool.utdb.txs) - Dropped(txMan.index.bcMan.State(), crypto, list)
    {
      var txs;
      txs, list := txMan.GetUnapprovedTransactionsForNewBlock(count);
      NothingChosen(txMan.index.bcMan.State(), crypto, list);
      if txs.Err? {
        reward := RewardOf(minter, data, id);
        return Some(txs.error), list, reward;
      }
      var newBlock;
      newBlock, reward := MakeNewBlockFromTransactions(txs.value, timestamp, data, id);
      if |txs.value| < least {
        return Some(NoTransactions), list, reward;
      }
      preparedBlock := Some(newBlock);
      return None, list, reward;
    }

    /** The least number of transactions of a block on top of the chain. */
    ghost function NextLeast(): int
      requires txMan.index.bcMan.db.Valid()
      reads txMan.index.bcMan.db
    {
      MinTransactions(txMan.index.bcMan.db.blocks[txMan.index.bcMan.db.topHash].height + 1)
    }

    /**
     Prepares a block of the transactions chosen from the pool, when the pool holds enough and
     enough are chosen.
     */
    method DoPrepareNewBlock(timestamp: int, data: Bytes, id: Bytes)
      returns (err: Option<Error>, ghost list: seq<Transaction>, ghost reward: Transaction)
      requires txMan.Ready([]) && PoolOk(txMan.pool.utdb.txs) && txMan.crypto == crypto
      modifies this`preparedBlock, txMan.pool.utdb
      ensures Drawn(old(txMan.pool.utdb.txs), list) && SortedByTime(list) && reward == RewardOf(minter, data, id)
      ensures |old(txMan.pool.utdb.txs)| < NextLeast() ==>
                err.None? && preparedBlock == old(preparedBlock) && txMan.pool.utdb.txs == old(txMan.pool.utdb.txs)
      ensures |old(txMan.pool.utdb.txs)| >= NextLeast() ==>
                var c, n := txMan.index.bcMan.State(), |old(txMan.pool.utdb.txs)|;
                && |list| == (if n > MAX_NUMBER_TRANSACTION_IN_BLOCK then MAX_NUMBER_TRANSACTION_IN_BLOCK else n)
                && (err.None? <==> Enough(c, Chosen(c, crypto, list)))
                && preparedBlock == (if err.Some? then old(preparedBlock)
                                     else Some(BlockOf(c, Chosen(c, crypto, list), reward, timestamp, [], 0)))
                && txMan.pool.utdb.txs == old(txMan.pool.utdb.txs) - Dropped(c, crypto, list)
    {
      list, reward := [], RewardOf(minter, data, id);
      var count: int := txMan.pool.GetCount();
      var least, most := GetTransactionNumbersLimits(None);
      if count >= least {
        if count > most {
          count := most;
        }
        err, list, reward := PrepareFromPool(count, least, timestamp, data, id);
        EnoughChosen(txMan.index.bcMan.State(), crypto, list);
        return;
      }
      return None, list, reward;
    }

    /** Puts the nonce that the search finds and its hash into the prepared block. */
    method CompleteBlock(pow: ProofOfWork) returns (r: Result<Block>)
      modifies this`preparedBlock
      ensures old(preparedBlock) == None ==> r == Err(NoTransactions) && preparedBlock == None
      ensures old(preparedBlock).Some? ==> r.Ok? && preparedBlock == Some(r.value)
      ensures r.Ok? ==> r.value == old(preparedBlock).value.(hash := r.value.hash, nonce := r.value.nonce)
                        && Mined(pow, old(preparedBlock).value, r.value.nonce, r.value.hash)
    {
      if preparedBlock.None? {
        return Err(NoTransactions);
      }
      var nonce, hash := Run(pow, preparedBlock.value);
      preparedBlock := Some(preparedBlock.value.(hash := hash, nonce := nonce));
      return Ok(preparedBlock.value);
    }
  }

  /** The proof of work changes nothing of what the other checks look at. */
  lemma MiningKeepsChecks(c: Chain, crypto: Crypto, b: Block, hash: Bytes, nonce: int)
    requires c.Valid() && b.prev in c.tree.blocks
    ensures BlockChecks(c, crypto, b.(hash := hash, nonce := nonce)) <==> BlockChecks(c, crypto, b)
  {
    var m := b.(hash := hash, nonce := nonce);
    forall k | 0 <= k < |b.txs| ensures AcceptedAt(c, crypto, m, k) <==> AcceptedAt(c, crypto, b, k) {
    }
  }

  /** A completed block is accepted if and only if some nonce hits the target and the prepared block passes the other checks. */
  lemma CompletedAcceptedIff(c: Chain, crypto: Crypto, pow: ProofOfWork, b: Block, nonce: int, hash: Bytes)
    requires c.Valid() && b.prev in c.tree.blocks && Judges(pow, crypto) && Mined(pow, b, nonce, hash)
    ensures BlockAccepted(c, crypto, b.(hash := hash, nonce := nonce)) <==> SomeNonceHits(pow, b) && BlockChecks(c, crypto, b)
  {
    var m := b.(hash := hash, nonce := nonce);
    MiningKeepsChecks(c, crypto, b, hash, nonce);
    assert Hits(pow, m, m.nonce) <==> Hits(pow, b, nonce);
  }

  /** The hash a block carries is not compared with the hash of its data: any other is accepted as well. */
  lemma HashIsNotCompared(c: Chain, crypto: Crypto, pow: ProofOfWork, b: Block, hash: Bytes)
    requires c.Valid() && b.prev in c.tree.blocks && Judges(pow, crypto)
    ensures BlockAccepted(c, crypto, b.(hash := hash)) <==> BlockAccepted(c, crypto, b)
  {
    MiningKeepsChecks(c, crypto, b, hash, b.nonce);
    assert b.(hash := hash, nonce := b.nonce) == b.(hash := hash);
    assert Hits(pow, b.(hash := hash), b.nonce) <==> Hits(pow, b, b.nonce);
  }
}

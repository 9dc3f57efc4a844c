/**
 Values of the ledger: byte strings, transactions, blocks and their constants
 (node/structures, lib/constants.go, node/config/constants.go).
 */
module Structures {

  newtype byte = b: int | 0 <= b < 256

  type Bytes = seq<byte>

  datatype Option<+T> = None | Some(value: T)

  datatype Error =
    | HashEmpty
    | HashNotFound
    | HashHasNext
    | OnlyLastCanBeRemoved
    | BlockNotFound
    | TransactionNotFound
    | TopNotFound
    | GenesisNotAllowed
    | NoConnection
    | InputSpent
    | InputMissing
    | InputRepeated
    | InputNotUnspent
    | WrongPrevious
    | WrongCoinbase
    | WrongKey
    | WrongSignature
    | OutputTooSmall
    | Unbalanced
    | Conflict
    | NotEnoughFunds
    | WrongAmount
    | BlockInvalid
    | TransactionCount
    | CoinbaseCount
    | NoTransactions

  datatype Result<+T> = Ok(value: T) | Err(error: Error)

  /** Length in bytes of every block hash. */
  const HASH_SIZE: nat := 32

  /** Amounts are exact reals in coins. */
  const SMALLEST_UNIT: real := 0.00000001
  const PAYMENT_FOR_BLOCK_MADE: real := 10.0
  const MAX_MIN_NUMBER_TRANSACTION_IN_BLOCK: int := 1000
  const MAX_NUMBER_TRANSACTION_IN_BLOCK: int := 10000

  function Zeros(n: nat): (z: Bytes)
    ensures |z| == n
  {
    seq(n, _ => 0 as byte)
  }

  /** A block hash has the fixed length and is not the all-zero marker of the chain records. */
  predicate IsHash(h: Bytes) {
    |h| == HASH_SIZE && h != Zeros(HASH_SIZE)
  }

  datatype TXInput = TXInput(txid: Bytes, vout: int, signature: Bytes, pubKey: Bytes)

  datatype TXOutput = TXOutput(value: real, pubKeyHash: Bytes)

  datatype Transaction = Transaction(id: Bytes, vin: seq<TXInput>, vout: seq<TXOutput>, time: int) {
    predicate IsCoinbase() {
      |vin| == 1 && |vin[0].txid| == 0 && vin[0].vout == -1
    }
  }

  datatype Block = Block(timestamp: int, txs: seq<Transaction>, prev: Bytes, hash: Bytes, nonce: int, height: int)

  /** Library code the ledger calls: key hashing, signatures and the proof of work. */
  datatype Crypto = Crypto(
    hashPubKey: Bytes -> Bytes,
    signatureValid: (Transaction, int, Bytes) -> bool,
    powValid: Block -> bool)

  ghost predicate Distinct<T>(s: seq<T>) {
    forall i, j :: 0 <= i < j < |s| ==> s[i] != s[j]
  }

  function Reversed<T>(s: seq<T>): (r: seq<T>)
    ensures |r| == |s|
    ensures forall k :: 0 <= k < |s| ==> r[k] == s[|s| - 1 - k]
  {
    seq(|s|, i requires 0 <= i < |s| => s[|s| - 1 - i])
  }

  /** A list is its front and its last element. */
  lemma InitLast<T>(s: seq<T>)
    requires s != []
    ensures s == s[..|s| - 1] + [s[|s| - 1]]
  {
  }

  /** Reverses a list of blocks by swapping both ends towards the middle. */
  method ReverseSlice<T>(ss: array<T>)
    modifies ss
    ensures ss[..] == Reversed(old(ss[..]))
  {
    var last := ss.Length - 1;
    if last < 1 {
      return;
    }
    for i := 0 to ss.Length / 2
      invariant forall k :: 0 <= k < i ==> ss[k] == old(ss[last - k]) && ss[last - k] == old(ss[k])
      invariant forall k :: i <= k <= last - i ==> ss[k] == old(ss[k])
    {
      ss[i], ss[last - i] := ss[last - i], ss[i];
    }
  }
}

/**
 Blocks of the small world that fork above the first two, and the states of a node that is sent
 them. Block 3 lies beside block 2; blocks 4 and 5 are on top of block 2; block 6 on block 5.
 */
module Forks {
  import opened Structures
  import opened Ledger
  import opened TransactionRules
  import opened Pool
  import opened Acceptance
  import opened Scenes

  function Two(): Block {
    Blk(2, Hash(1), 1, [2])
  }

  function Three(): Block {
    Blk(3, Hash(1), 1, [2, 4])
  }

  function Four(n: byte): Block {
    Blk(4, Hash(2), 2, [6, n])
  }

  function Five(): Block {
    Blk(5, Hash(2), 2, [10, 11])
  }

  function Six(): Block {
    Blk(6, Hash(5), 3, [13, 14, 15])
  }

  // ----- Payments

  lemma MoveIsPayable(ids: set<Bytes>, coins: map<Outpoint, real>, n: byte, from: Outpoint, v: real)
    requires Ordinary(n) == Move(n, from, v) && Id(n) !in ids && from in coins && coins[from] == v && v >= SMALLEST_UNIT
    ensures Payable(ids, coins, Ordinary(n))
    ensures AfterPay(coins, Ordinary(n)) == (coins - {from})[Outpoint(Id(n), 0) := v]
  {
    var tx := Ordinary(n);
    assert tx.vin[..0] == [] && tx.vout[..0] == [];
    NamesOne(tx, from);
    assert Paid(tx) == map[Outpoint(Id(n), 0) := v];
  }

  lemma WorksFirst(ids: set<Bytes>, coins: map<Outpoint, real>, ns: seq<byte>, after: map<Outpoint, real>)
    requires ns != [] && Payable(ids, coins, Ordinary(ns[0])) && after == AfterPay(coins, Ordinary(ns[0]))
    requires Works(ids + {Id(ns[0])}, after, ns[1..])
    ensures Works(ids, coins, ns)
    ensures IdsAfter(ids, ns) == IdsAfter(ids + {Id(ns[0])}, ns[1..])
    ensures CoinsAfter(coins, ns) == CoinsAfter(after, ns[1..])
  {
  }

  /** The first transaction moves a coin, and the rest works with what remains. */
  lemma MoveWorks(ids: set<Bytes>, coins: map<Outpoint, real>, ns: seq<byte>, from: Outpoint, v: real, after: map<Outpoint, real>)
    requires ns != [] && Ordinary(ns[0]) == Move(ns[0], from, v) && Id(ns[0]) !in ids
    requires from in coins && coins[from] == v && v >= SMALLEST_UNIT
    requires after == (coins - {from})[Outpoint(Id(ns[0]), 0) := v] && Works(ids + {Id(ns[0])}, after, ns[1..])
    ensures Works(ids, coins, ns)
    ensures IdsAfter(ids, ns) == IdsAfter(ids + {Id(ns[0])}, ns[1..])
    ensures CoinsAfter(coins, ns) == CoinsAfter(after, ns[1..])
  {
    MoveIsPayable(ids, coins, ns[0], from, v);
    WorksFirst(ids, coins, ns, after);
  }

  lemma NothingWorks(ids: set<Bytes>, coins: map<Outpoint, real>)
    ensures Works(ids, coins, []) && IdsAfter(ids, []) == ids && CoinsAfter(coins, []) == coins
  {
  }

  /** A chain of moves of one coin. */
  ghost predicate Relay(ns: seq<byte>, from: Outpoint, v: real)
    decreases |ns|
  {
    ns != [] ==> Ordinary(ns[0]) == Move(ns[0], from, v) && Relay(ns[1..], Outpoint(Id(ns[0]), 0), v)
  }

  lemma {:induction false} RelayWorks(ids: set<Bytes>, coins: map<Outpoint, real>, ns: seq<byte>, from: Outpoint, v: real)
    requires Relay(ns, from, v) && from in coins && coins[from] == v && v >= SMALLEST_UNIT
    requires Distinct(ns) && forall n :: n in ns ==> Id(n) !in ids
    ensures Works(ids, coins, ns)
    decreases |ns|
  {
    if ns != [] {
      var next, after := Outpoint(Id(ns[0]), 0), (coins - {from})[Outpoint(Id(ns[0]), 0) := v];
      forall n | n in ns[1..] ensures Id(n) !in ids + {Id(ns[0])} {
        assert n in ns && n != ns[0];
      }
      RelayWorks(ids + {Id(ns[0])}, after, ns[1..], next, v);
      MoveWorks(ids, coins, ns, from, v, after);
    }
  }

  lemma {:induction false} RelayEnds(coins: map<Outpoint, real>, ns: seq<byte>, from: Outpoint, v: real)
    requires Relay(ns, from, v) && ns != []
    ensures var op := Outpoint(Id(ns[|ns| - 1]), 0); op in CoinsAfter(coins, ns) && CoinsAfter(coins, ns)[op] == v
    decreases |ns|
  {
    if |ns| == 1 {
      MovePays(coins, ns[0], from, v);
      assert ns[1..] == [];
    } else {
      RelayEnds(AfterPay(coins, Ordinary(ns[0])), ns[1..], Outpoint(Id(ns[0]), 0), v);
    }
  }

  lemma MovePays(coins: map<Outpoint, real>, n: byte, from: Outpoint, v: real)
    requires Ordinary(n) == Move(n, from, v)
    ensures var op := Outpoint(Id(n), 0); op in AfterPay(coins, Ordinary(n)) && AfterPay(coins, Ordinary(n))[op] == v
  {
    assert Outpoint(Id(n), 0) in Paid(Ordinary(n));
  }

  /** A coin that none of the transactions spends or makes stays. */
  lemma {:induction false} CoinStays(coins: map<Outpoint, real>, ns: seq<byte>, op: Outpoint)
    requires op in coins && forall n :: n in ns ==> op !in RefsIn(Ordinary(n).vin) && op.txid != Id(n)
    ensures op in CoinsAfter(coins, ns) && CoinsAfter(coins, ns)[op] == coins[op]
    decreases |ns|
  {
    if ns != [] {
      assert ns[0] in ns;
      CoinStays(AfterPay(coins, Ordinary(ns[0])), ns[1..], op);
    }
  }

  lemma NamesOne(tx: Transaction, from: Outpoint)
    requires |tx.vin| == 1 && Ref(tx.vin[0]) == from
    ensures RefsIn(tx.vin) == {from}
  {
    forall op ensures op in RefsIn(tx.vin) <==> op == from {
      InRefsIn(tx.vin, op);
    }
  }

  lemma MoveNames(n: byte, from: Outpoint, v: real)
    requires Ordinary(n) == Move(n, from, v)
    ensures RefsIn(Ordinary(n).vin) == {from}
  {
    NamesOne(Ordinary(n), from);
  }

  ghost function AfterSplit(coins: map<Outpoint, real>): map<Outpoint, real> {
    (coins - {FirstCoin()})[Outpoint(Id(2), 0) := 4.0][Outpoint(Id(2), 1) := 6.0]
  }

  /** Number 2 splits the first coin. */
  lemma SplitIsPayable(ids: set<Bytes>, coins: map<Outpoint, real>)
    requires Id(2) !in ids && FirstCoin() in coins && coins[FirstCoin()] == 10.0
    ensures Payable(ids, coins, Ordinary(2))
  {
    var tx := Ordinary(2);
    assert tx.vin[..0] == [] && Ref(tx.vin[0]) == FirstCoin();
    assert tx.vout[..1] == [To(4.0)] && [To(4.0)][..0] == [];
  }

  lemma SplitLeaves(coins: map<Outpoint, real>)
    ensures AfterPay(coins, Ordinary(2)) == AfterSplit(coins)
  {
    NamesOne(Ordinary(2), FirstCoin());
    SplitPays();
  }

  lemma SplitPays()
    ensures Paid(Ordinary(2)) == map[Outpoint(Id(2), 0) := 4.0, Outpoint(Id(2), 1) := 6.0]
  {
  }

  /** Number 8 names a coin of its own block before one of the chain below. */
  lemma JoinIsPayable(ids: set<Bytes>, coins: map<Outpoint, real>)
    requires Id(8) !in ids && Outpoint(Id(6), 0) in coins && coins[Outpoint(Id(6), 0)] == 4.0
    requires Outpoint(RewardId(2), 0) in coins && coins[Outpoint(RewardId(2), 0)] == 10.0
    ensures Payable(ids, coins, Ordinary(8))
  {
    var tx := Ordinary(8);
    assert tx.vin[..1] == [From(Outpoint(Id(6), 0))] && [From(Outpoint(Id(6), 0))][..0] == [];
    assert Ref(tx.vin[0]) == Outpoint(Id(6), 0) && Ref(tx.vin[1]) == Outpoint(RewardId(2), 0);
    assert Given(coins, tx.vin[..1]) == 4.0;
    assert Given(coins, tx.vin) == 14.0;
    assert tx.vout[..0] == [] && OutputTotal(tx.vout) == 14.0;
  }

  // ----- What is known of the chains

  /** The numbered transactions work after the reward of block n. */
  ghost predicate BlockWorks(ids: set<Bytes>, coins: map<Outpoint, real>, n: byte, ns: seq<byte>) {
    Works(ids + {RewardId(n)}, coins[Outpoint(RewardId(n), 0) := 10.0], ns)
  }

  ghost function CoinsOfBlock(coins: map<Outpoint, real>, n: byte, ns: seq<byte>): map<Outpoint, real> {
    CoinsAfter(coins[Outpoint(RewardId(n), 0) := 10.0], ns)
  }

  lemma BlockIsProper(es: seq<Entry>, ids: set<Bytes>, coins: map<Outpoint, real>, n: byte, prev: Bytes, height: int, ns: seq<byte>)
    requires n != 0 && Knows(es, ids, coins) && RewardId(n) !in ids && BlockWorks(ids, coins, n, ns)
    ensures Proper(Agreeable(), es + Tag(Blk(n, prev, height, ns)))
    ensures forall op {:trigger op in CoinsOfBlock(coins, n, ns)} :: op in CoinsOfBlock(coins, n, ns) ==>
              op in Unspent(es + Tag(Blk(n, prev, height, ns)))
  {
    BlockKnown(es, ids, coins, n, prev, height, ns);
  }

  /** A block of which something weaker is remembered. */
  lemma BlockRemembered(es: seq<Entry>, ids: set<Bytes>, coins: map<Outpoint, real>, n: byte, prev: Bytes, height: int, ns: seq<byte>,
                        all: set<Bytes>, some: map<Outpoint, real>)
    requires n != 0 && Knows(es, ids, coins) && RewardId(n) !in ids && BlockWorks(ids, coins, n, ns)
    requires AllIds(IdsAfter(ids + {RewardId(n)}, ns), all) && SomeCoins(CoinsOfBlock(coins, n, ns), some)
    ensures Knows(es + Tag(Blk(n, prev, height, ns)), all, some)
  {
    BlockKnown(es, ids, coins, n, prev, height, ns);
    assert all == IdsAfter(ids + {RewardId(n)}, ns);
  }

  ghost predicate AllIds(ids: set<Bytes>, all: set<Bytes>) {
    forall id :: id in all <==> id in ids
  }

  ghost predicate SomeCoins(coins: map<Outpoint, real>, some: map<Outpoint, real>) {
    forall op {:trigger op in some} :: op in some ==> op in coins && coins[op] == some[op]
  }

  function IdsOfOne(): set<Bytes> {
    {RewardId(1)}
  }

  function CoinsOfOne(): map<Outpoint, real> {
    map[FirstCoin() := 10.0]
  }

  function IdsOfTwo(): set<Bytes> {
    {RewardId(1), RewardId(2), Id(2)}
  }

  function CoinsOfTwo(): map<Outpoint, real> {
    map[Outpoint(RewardId(2), 0) := 10.0, Outpoint(Id(2), 0) := 4.0, Outpoint(Id(2), 1) := 6.0]
  }

  function IdsOfFive(): set<Bytes> {
    {RewardId(1), RewardId(2), Id(2), RewardId(5), Id(10), Id(11)}
  }

  function CoinsOfFive(): map<Outpoint, real> {
    map[Outpoint(RewardId(2), 0) := 10.0, Outpoint(Id(2), 1) := 6.0, Outpoint(Id(11), 0) := 4.0]
  }

  /** After number 2, which splits the first coin. */
  lemma SplitWorks(ids: set<Bytes>, coins: map<Outpoint, real>, ns: seq<byte>)
    requires ns != [] && ns[0] == 2 && Id(2) !in ids && FirstCoin() in coins && coins[FirstCoin()] == 10.0
    requires Works(ids + {Id(2)}, AfterSplit(coins), ns[1..])
    ensures Works(ids, coins, ns) && IdsAfter(ids, ns) == IdsAfter(ids + {Id(2)}, ns[1..])
    ensures CoinsAfter(coins, ns) == CoinsAfter(AfterSplit(coins), ns[1..])
  {
    SplitIsPayable(ids, coins);
    SplitLeaves(coins);
    WorksFirst(ids, coins, ns, AfterSplit(coins));
  }

  lemma TwoWorks()
    ensures BlockWorks(IdsOfOne(), CoinsOfOne(), 2, [2])
    ensures AllIds(IdsAfter(IdsOfOne() + {RewardId(2)}, [2]), IdsOfTwo()) && SomeCoins(CoinsOfBlock(CoinsOfOne(), 2, [2]), CoinsOfTwo())
  {
    var ids, coins := IdsOfOne() + {RewardId(2)}, CoinsOfOne()[Outpoint(RewardId(2), 0) := 10.0];
    NothingWorks(ids + {Id(2)}, AfterSplit(coins));
    var ns: seq<byte> := [2];
    assert ns[1..] == [];
    SplitWorks(ids, coins, ns);
  }

  lemma TwoKnown(es: seq<Entry>)
    requires Knows(es, IdsOfOne(), CoinsOfOne())
    ensures Knows(es + Tag(Two()), IdsOfTwo(), CoinsOfTwo())
  {
    TwoWorks();
    BlockRemembered(es, IdsOfOne(), CoinsOfOne(), 2, Hash(1), 1, [2], IdsOfTwo(), CoinsOfTwo());
  }

  lemma ThreeWorks()
    ensures BlockWorks(IdsOfOne(), CoinsOfOne(), 3, [2, 4])
  {
    var ids, coins := IdsOfOne() + {RewardId(3)}, CoinsOfOne()[Outpoint(RewardId(3), 0) := 10.0];
    var ns: seq<byte> := [2, 4];
    assert ns[1..] == [4] && ns[1..][1..] == [];
    RelayWorks(ids + {Id(2)}, AfterSplit(coins), [4], Outpoint(Id(2), 1), 6.0);
    SplitWorks(ids, coins, ns);
  }

  lemma ThreeKnown(es: seq<Entry>)
    requires Knows(es, IdsOfOne(), CoinsOfOne())
    ensures Proper(Agreeable(), es + Tag(Three()))
  {
    ThreeWorks();
    ThreeFrom(es, [2, 4]);
  }

  lemma ThreeFrom(es: seq<Entry>, ns: seq<byte>)
    requires Knows(es, IdsOfOne(), CoinsOfOne()) && BlockWorks(IdsOfOne(), CoinsOfOne(), 3, ns)
    ensures Proper(Agreeable(), es + Tag(Blk(3, Hash(1), 1, ns)))
  {
    BlockIsProper(es, IdsOfOne(), CoinsOfOne(), 3, Hash(1), 1, ns);
  }

  /** The coins after number 6 in block 4. */
  function CoinsOfSix(): map<Outpoint, real> {
    map[Outpoint(RewardId(2), 0) := 10.0, Outpoint(Id(2), 1) := 6.0, Outpoint(RewardId(4), 0) := 10.0, Outpoint(Id(6), 0) := 4.0]
  }

  lemma FourEnds(ids: set<Bytes>, mid: map<Outpoint, real>, n: byte)
    requires mid == CoinsOfSix() && Id(n) !in ids && (n == 7 || n == 8 || n == 9)
    ensures Works(ids, mid, [n])
  {
    if n == 7 {
      MoveIsPayable(ids, mid, 7, Outpoint(Id(6), 0), 4.0);
    } else if n == 9 {
      MoveIsPayable(ids, mid, 9, Outpoint(Id(2), 1), 6.0);
    } else {
      JoinIsPayable(ids, mid);
    }
    NothingWorks(ids + {Id(n)}, AfterPay(mid, Ordinary(n)));
    assert [n][1..] == [];
    WorksFirst(ids, mid, [n], AfterPay(mid, Ordinary(n)));
  }

  lemma FourWorks(n: byte, ns: seq<byte>)
    requires (n == 7 || n == 8 || n == 9) && ns == [6, n]
    ensures BlockWorks(IdsOfTwo(), CoinsOfTwo(), 4, ns)
  {
    var ids, coins := IdsOfTwo() + {RewardId(4)}, CoinsOfTwo()[Outpoint(RewardId(4), 0) := 10.0];
    SixSpent(coins);
    FourEnds(ids + {Id(6)}, CoinsOfSix(), n);
    assert ns[1..] == [n];
    MoveWorks(ids, coins, ns, Outpoint(Id(2), 0), 4.0, CoinsOfSix());
  }

  lemma SixSpent(coins: map<Outpoint, real>)
    requires coins == CoinsOfTwo()[Outpoint(RewardId(4), 0) := 10.0]
    ensures (coins - {Outpoint(Id(2), 0)})[Outpoint(Id(6), 0) := 4.0] == CoinsOfSix()
  {
  }

  /** Block 4 continues the chain of block 2, with 7, 8 or 9 as its second transaction. */
  lemma FourKnown(es: seq<Entry>, n: byte)
    requires Knows(es, IdsOfTwo(), CoinsOfTwo()) && (n == 7 || n == 8 || n == 9)
    ensures Proper(Agreeable(), es + Tag(Four(n)))
  {
    FourWorks(n, [6, n]);
    FourFrom(es, [6, n]);
  }

  lemma FourFrom(es: seq<Entry>, ns: seq<byte>)
    requires Knows(es, IdsOfTwo(), CoinsOfTwo()) && BlockWorks(IdsOfTwo(), CoinsOfTwo(), 4, ns)
    ensures Proper(Agreeable(), es + Tag(Blk(4, Hash(2), 2, ns)))
  {
    BlockIsProper(es, IdsOfTwo(), CoinsOfTwo(), 4, Hash(2), 2, ns);
  }

  lemma IdsOfPair(ids: set<Bytes>, ns: seq<byte>)
    requires |ns| == 2
    ensures IdsAfter(ids, ns) == ids + {Id(ns[0])} + {Id(ns[1])}
  {
    var rest := ns[1..];
    assert rest[0] == ns[1] && rest[1..] == [];
    assert IdsAfter(ids + {Id(ns[0])}, rest) == IdsAfter(ids + {Id(ns[0])} + {Id(rest[0])}, rest[1..]);
  }

  lemma FiveRelays(ns: seq<byte>)
    requires ns == [10, 11]
    ensures Relay(ns, Outpoint(Id(2), 0), 4.0) && Distinct(ns)
    ensures forall n :: n in ns ==> n == 10 || n == 11
  {
    assert ns[1..] == [11] && ns[1..][1..] == [];
  }

  lemma FiveWorks(ns: seq<byte>)
    requires ns == [10, 11]
    ensures BlockWorks(IdsOfTwo(), CoinsOfTwo(), 5, ns)
  {
    FiveRelays(ns);
    RelayWorks(IdsOfTwo() + {RewardId(5)}, CoinsOfTwo()[Outpoint(RewardId(5), 0) := 10.0], ns, Outpoint(Id(2), 0), 4.0);
  }

  lemma FiveIds(ns: seq<byte>)
    requires ns == [10, 11]
    ensures AllIds(IdsAfter(IdsOfTwo() + {RewardId(5)}, ns), IdsOfFive())
  {
    IdsOfPair(IdsOfTwo() + {RewardId(5)}, ns);
  }

  lemma FiveLeaves(ns: seq<byte>)
    requires ns == [10, 11]
    ensures SomeCoins(CoinsOfBlock(CoinsOfTwo(), 5, ns), CoinsOfFive())
  {
    var coins := CoinsOfTwo()[Outpoint(RewardId(5), 0) := 10.0];
    FiveRelays(ns);
    RelayEnds(coins, ns, Outpoint(Id(2), 0), 4.0);
    FiveKeeps(coins, ns, Outpoint(RewardId(2), 0));
    FiveKeeps(coins, ns, Outpoint(Id(2), 1));
  }

  lemma FiveKeeps(coins: map<Outpoint, real>, ns: seq<byte>, op: Outpoint)
    requires ns == [10, 11] && op in coins && (op == Outpoint(RewardId(2), 0) || op == Outpoint(Id(2), 1))
    ensures op in CoinsAfter(coins, ns) && CoinsAfter(coins, ns)[op] == coins[op]
  {
    FiveRelays(ns);
    MoveNames(10, Outpoint(Id(2), 0), 4.0);
    MoveNames(11, Outpoint(Id(10), 0), 4.0);
    CoinStays(coins, ns, op);
  }

  lemma FiveKnown(es: seq<Entry>)
    requires Knows(es, IdsOfTwo(), CoinsOfTwo())
    ensures Knows(es + Tag(Five()), IdsOfFive(), CoinsOfFive())
  {
    FiveFrom(es, [10, 11]);
  }

  lemma FiveFrom(es: seq<Entry>, ns: seq<byte>)
    requires Knows(es, IdsOfTwo(), CoinsOfTwo()) && ns == [10, 11]
    ensures Knows(es + Tag(Blk(5, Hash(2), 2, ns)), IdsOfFive(), CoinsOfFive())
  {
    FiveWorks(ns);
    FiveIds(ns);
    FiveLeaves(ns);
    BlockRemembered(es, IdsOfTwo(), CoinsOfTwo(), 5, Hash(2), 2, ns, IdsOfFive(), CoinsOfFive());
  }

  lemma SixRelays(ns: seq<byte>)
    requires ns == [13, 14, 15]
    ensures Relay(ns, Outpoint(Id(11), 0), 4.0) && Distinct(ns)
    ensures forall n :: n in ns ==> n == 13 || n == 14 || n == 15
  {
    assert ns[1..] == [14, 15] && ns[1..][1..] == [15] && ns[1..][1..][1..] == [];
    var a, b, c := Outpoint(Id(11), 0), Outpoint(Id(13), 0), Outpoint(Id(14), 0);
    assert Ordinary(13) == Move(13, a, 4.0) && Ordinary(14) == Move(14, b, 4.0) && Ordinary(15) == Move(15, c, 4.0);
    assert Relay(ns[1..][1..], c, 4.0);
    assert Relay(ns[1..], b, 4.0);
  }

  lemma SixWorks(ns: seq<byte>)
    requires ns == [13, 14, 15]
    ensures BlockWorks(IdsOfFive(), CoinsOfFive(), 6, ns) && RewardId(6) !in IdsOfFive()
  {
    SixRelays(ns);
    RelayWorks(IdsOfFive() + {RewardId(6)}, CoinsOfFive()[Outpoint(RewardId(6), 0) := 10.0], ns, Outpoint(Id(11), 0), 4.0);
  }

  lemma SixLeaves(ns: seq<byte>)
    requires ns == [13, 14, 15]
    ensures Outpoint(RewardId(2), 0) in CoinsOfBlock(CoinsOfFive(), 6, ns) && Outpoint(Id(2), 1) in CoinsOfBlock(CoinsOfFive(), 6, ns)
  {
    var coins := CoinsOfFive()[Outpoint(RewardId(6), 0) := 10.0];
    SixRelays(ns);
    MoveNames(13, Outpoint(Id(11), 0), 4.0);
    MoveNames(14, Outpoint(Id(13), 0), 4.0);
    MoveNames(15, Outpoint(Id(14), 0), 4.0);
    CoinStays(coins, ns, Outpoint(RewardId(2), 0));
    CoinStays(coins, ns, Outpoint(Id(2), 1));
  }

  lemma SixKnown(es: seq<Entry>)
    requires Knows(es, IdsOfFive(), CoinsOfFive())
    ensures Proper(Agreeable(), es + Tag(Six()))
    ensures Outpoint(RewardId(2), 0) in Unspent(es + Tag(Six())) && Outpoint(Id(2), 1) in Unspent(es + Tag(Six()))
  {
    var ns: seq<byte> := [13, 14, 15];
    SixWorks(ns);
    SixLeaves(ns);
    BlockIsProper(es, IdsOfFive(), CoinsOfFive(), 6, Hash(5), 3, ns);
  }
}

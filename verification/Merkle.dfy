/**
 The Merkle tree over the transactions of a block (lib/utils/merkle_tree.go). The hash is an
 abstract function; leaves and inner nodes are hashed alike.
 */
module Merkle {
  import opened Structures

  datatype Digest = Digest(bytes: Bytes)

  type Hash = Bytes -> Digest

  ghost predicate FixedSize(h: Hash) {
    forall x {:trigger h(x)} :: |h(x).bytes| == HASH_SIZE
  }

  datatype MerkleNode = Leaf(data: Digest) | Inner(left: MerkleNode, right: MerkleNode, data: Digest)

  /** The hash of two hashes, one after the other. */
  function PairHash(h: Hash, l: Digest, r: Digest): Digest {
    h(l.bytes + r.bytes)
  }

  /** Odd numbers and halves by counting down in twos. */
  predicate Odd(n: nat) {
    if n < 2 then n == 1 else Odd(n - 2)
  }

  function Half(n: nat): nat {
    if n < 2 then 0 else 1 + Half(n - 2)
  }

  lemma {:induction false} ParityMeans(n: nat)
    ensures Odd(n) <==> n % 2 != 0
    ensures Half(n) == n / 2
    decreases n
  {
    if n >= 2 {
      ParityMeans(n - 2);
    }
  }

  lemma {:induction false} OddNext(n: nat)
    ensures Odd(n + 1) <==> !Odd(n)
    decreases n
  {
    if n >= 2 {
      OddNext(n - 2);
    }
  }

  function EvenUp(n: nat): nat {
    if Odd(n) then n + 1 else n
  }

  /** An odd list is filled up with a copy of its last element. */
  function Padded<T>(s: seq<T>): (p: seq<T>)
    ensures |p| == EvenUp(|s|)
  {
    if |s| > 0 && Odd(|s|) then s + [s[|s| - 1]] else s
  }

  function HashAll(h: Hash, data: seq<Bytes>): (hs: seq<Digest>)
    ensures |hs| == |data|
  {
    if data == [] then [] else HashAll(h, data[..|data| - 1]) + [h(data[|data| - 1])]
  }

  /** The hashes of neighbouring pairs. */
  function Pairs(h: Hash, level: seq<Digest>): (up: seq<Digest>)
    ensures |up| == Half(|level|)
  {
    if |level| < 2 then [] else Pairs(h, level[..|level| - 2]) + [PairHash(h, level[|level| - 2], level[|level| - 1])]
  }

  /** One round. */
  function Up(h: Hash, level: seq<Digest>): seq<Digest> {
    Padded(Pairs(h, level))
  }

  /** The level after a number of rounds; the leaves are hashed before the first one. */
  function Level(h: Hash, data: seq<Bytes>, rounds: nat): seq<Digest> {
    if rounds == 0 then HashAll(h, Padded(data)) else Up(h, Level(h, data, rounds - 1))
  }

  lemma {:induction false} LevelSizeIs(h: Hash, data: seq<Bytes>, rounds: nat)
    ensures |Level(h, data, rounds)| == LevelSize(|data|, rounds)
    decreases rounds
  {
    if rounds > 0 {
      LevelSizeIs(h, data, rounds - 1);
      assert |Level(h, data, rounds)| == EvenUp(Half(|Level(h, data, rounds - 1)|));
    }
  }

  function LevelSize(n: nat, rounds: nat): nat {
    if rounds == 0 then EvenUp(n) else EvenUp(Half(LevelSize(n, rounds - 1)))
  }

  lemma LevelSizeEven(n: nat, rounds: nat)
    ensures !Odd(LevelSize(n, rounds))
  {
    OddNext(if rounds == 0 then n else Half(LevelSize(n, rounds - 1)));
  }

  /** The loop makes half as many rounds as there are leaves. */
  function Rounds(n: nat): nat {
    Half(EvenUp(n))
  }

  /** The rounds suffice: the last one starts from a level of two already. */
  lemma {:induction false} RoundsSuffice(n: nat, rounds: nat)
    requires n > 0
    ensures 2 <= LevelSize(n, rounds)
    ensures rounds < Rounds(n) ==> Half(LevelSize(n, rounds)) <= Rounds(n) - rounds
    ensures rounds + 1 >= Rounds(n) ==> LevelSize(n, rounds) == 2
    decreases rounds
  {
    SizeArithmetic(if rounds == 0 then n else Half(LevelSize(n, rounds - 1)));
    if rounds > 0 {
      RoundsSuffice(n, rounds - 1);
    }
  }

  lemma SizeArithmetic(n: nat)
    ensures n > 0 ==> EvenUp(n) >= 2 && Half(EvenUp(n)) >= 1
    ensures n <= 2 && n > 0 ==> EvenUp(n) == 2
    ensures n > 2 ==> Half(EvenUp(n)) < n
    ensures EvenUp(n) == 2 * Half(EvenUp(n)) && EvenUp(n) <= n + 1
  {
    ParityMeans(n);
    ParityMeans(EvenUp(n));
  }

  function Root(h: Hash, data: seq<Bytes>): Digest
    requires data != []
  {
    RoundsSuffice(|data|, Rounds(|data|));
    LevelSizeIs(h, data, Rounds(|data|));
    Level(h, data, Rounds(|data|))[0]
  }

  function NodeHashes(nodes: seq<MerkleNode>): (hs: seq<Digest>)
    ensures |hs| == |nodes|
  {
    if nodes == [] then [] else NodeHashes(nodes[..|nodes| - 1]) + [nodes[|nodes| - 1].data]
  }

  lemma {:induction false} NodeHashAt(nodes: seq<MerkleNode>, i: nat)
    requires i < |nodes|
    ensures NodeHashes(nodes)[i] == nodes[i].data
    decreases |nodes|
  {
    if i < |nodes| - 1 {
      NodeHashAt(nodes[..|nodes| - 1], i);
    }
  }

  lemma NodeHashesAdd(nodes: seq<MerkleNode>, n: MerkleNode)
    ensures NodeHashes(nodes + [n]) == NodeHashes(nodes) + [n.data]
  {
    assert (nodes + [n])[..|nodes|] == nodes;
  }

  method NewLeaf(h: Hash, data: Bytes) returns (n: MerkleNode)
    ensures n == Leaf(h(data))
  {
    n := Leaf(h(data));
  }

  method NewInner(h: Hash, left: MerkleNode, right: MerkleNode) returns (n: MerkleNode)
    ensures n == Inner(left, right, PairHash(h, left.data, right.data))
  {
    n := Inner(left, right, PairHash(h, left.data, right.data));
  }

  /** Builds the tree level by level; the loop never reads past a level. An empty list, a panic in the source, gives none. */
  method NewMerkleTree(h: Hash, data0: seq<Bytes>) returns (root: Option<MerkleNode>)
    ensures root.None? <==> data0 == []
    ensures root.Some? ==> root.value.data == Root(h, data0)
  {
    if |data0| == 0 {
      return None;
    }
    var data := data0;
    ParityMeans(|data|);
    if |data| % 2 != 0 {
      data := data + [data[|data| - 1]];
    }
    ParityMeans(|data|);
    var nodes := NewLeaves(h, data);
    for i := 0 to |data| / 2
      invariant NodeHashes(nodes) == Level(h, data0, i)
    {
      LevelSizeIs(h, data0, i);
      LevelSizeEven(|data0|, i);
      nodes := NextLevel(h, nodes);
    }
    RoundsSuffice(|data0|, Rounds(|data0|));
    LevelSizeIs(h, data0, Rounds(|data0|));
    NodeHashAt(nodes, 0);
    return Some(nodes[0]);
  }

  method NewLeaves(h: Hash, data: seq<Bytes>) returns (nodes: seq<MerkleNode>)
    ensures NodeHashes(nodes) == HashAll(h, data)
  {
    nodes := [];
    assert data[..0] == [];
    for i := 0 to |data|
      invariant NodeHashes(nodes) == HashAll(h, data[..i])
    {
      var node := NewLeaf(h, data[i]);
      NodeHashesAdd(nodes, node);
      nodes := nodes + [node];
      assert data[..i + 1][..i] == data[..i];
    }
    assert data[..|data|] == data;
  }

  lemma PairsNext(h: Hash, level: seq<Digest>, j: nat)
    requires j + 2 <= |level|
    ensures Pairs(h, level[..j + 2]) == Pairs(h, level[..j]) + [PairHash(h, level[j], level[j + 1])]
  {
    assert level[..j + 2][..j] == level[..j];
  }

  lemma PadNodes(nodes: seq<MerkleNode>)
    ensures NodeHashes(if |nodes| % 2 != 0 then nodes + [nodes[|nodes| - 1]] else nodes) == Padded(NodeHashes(nodes))
  {
    ParityMeans(|nodes|);
    if |nodes| % 2 != 0 {
      NodeHashAt(nodes, |nodes| - 1);
      NodeHashesAdd(nodes, nodes[|nodes| - 1]);
    }
  }

  /** One round: pairs are hashed and an odd level is filled up. */
  method NextLevel(h: Hash, nodes: seq<MerkleNode>) returns (newLevel: seq<MerkleNode>)
    requires !Odd(|nodes|)
    ensures NodeHashes(newLevel) == Up(h, NodeHashes(nodes))
  {
    ghost var level := NodeHashes(nodes);
    newLevel := [];
    var j := 0;
    assert level[..0] == [];
    ParityMeans(|nodes|);
    while j < |nodes|
      invariant 0 <= j <= |nodes| && j % 2 == 0 && NodeHashes(newLevel) == Pairs(h, level[..j])
    {
      var node := NewInner(h, nodes[j], nodes[j + 1]);
      NodeHashAt(nodes, j);
      NodeHashAt(nodes, j + 1);
      NodeHashesAdd(newLevel, node);
      PairsNext(h, level, j);
      newLevel := newLevel + [node];
      j := j + 2;
    }
    assert level[..j] == level;
    PadNodes(newLevel);
    if |newLevel| % 2 != 0 {
      newLevel := newLevel + [newLevel[|newLevel| - 1]];
    }
  }

  // ----- What the root says of the list

  /** The strings that a round hashes. */
  ghost function PairsOf(level: seq<Digest>): set<Bytes> {
    if |level| < 2 then {} else PairsOf(level[..|level| - 2]) + {level[|level| - 2].bytes + level[|level| - 1].bytes}
  }

  /** Everything the first rounds hash: the data, then the pairs of each level. */
  ghost function Hashed(h: Hash, data: seq<Bytes>, rounds: nat): set<Bytes> {
    if rounds == 0 then set x | x in Padded(data)
    else Hashed(h, data, rounds - 1) + PairsOf(Level(h, data, rounds - 1))
  }

  /** Two different strings, each hashed while building its tree, have one hash. */
  ghost predicate Collision(h: Hash, a: set<Bytes>, b: set<Bytes>) {
    exists x, y :: x in a && y in b && x != y && h(x) == h(y)
  }

  lemma CollisionGrows(h: Hash, a: set<Bytes>, b: set<Bytes>, c: set<Bytes>, d: set<Bytes>)
    requires Collision(h, a, b) && a <= c && b <= d
    ensures Collision(h, c, d)
  {
    var x, y :| x in a && y in b && x != y && h(x) == h(y);
    assert x in c && y in d;
  }

  ghost predicate AllHashes(level: seq<Digest>) {
    forall x :: x in level ==> |x.bytes| == HASH_SIZE
  }

  lemma {:induction false} HashAllHashes(h: Hash, data: seq<Bytes>)
    requires FixedSize(h)
    ensures AllHashes(HashAll(h, data))
    decreases |data|
  {
    if data != [] {
      HashAllHashes(h, data[..|data| - 1]);
    }
  }

  lemma {:induction false} PairsHashes(h: Hash, level: seq<Digest>)
    requires FixedSize(h)
    ensures AllHashes(Pairs(h, level))
    decreases |level|
  {
    if |level| >= 2 {
      PairsHashes(h, level[..|level| - 2]);
    }
  }

  lemma LevelHashes(h: Hash, data: seq<Bytes>, rounds: nat)
    requires FixedSize(h)
    ensures AllHashes(Level(h, data, rounds))
  {
    if rounds == 0 {
      HashAllHashes(h, Padded(data));
    } else {
      PairsHashes(h, Level(h, data, rounds - 1));
    }
  }

  lemma HalvesSame(a: Bytes, b: Bytes, c: Bytes, d: Bytes)
    requires |a| == |c| && a + b == c + d
    ensures a == c && b == d
  {
    assert (a + b)[..|a|] == (c + d)[..|c|];
    assert (a + b)[|a|..] == (c + d)[|c|..];
  }

  lemma LastSame<T>(s: seq<T>, x: T, u: seq<T>, y: T)
    requires s + [x] == u + [y]
    ensures s == u && x == y
  {
    assert (s + [x])[..|s|] == s && (u + [y])[..|u|] == u;
    assert (s + [x])[|s|] == x && (u + [y])[|u|] == y;
  }

  lemma {:induction false} HashAllBack(h: Hash, a: seq<Bytes>, b: seq<Bytes>)
    requires HashAll(h, a) == HashAll(h, b)
    ensures a == b || Collision(h, set x | x in a, set x | x in b)
    decreases |a|
  {
    assert |a| == |b|;
    if a != [] {
      var n := |a| - 1;
      LastSame(HashAll(h, a[..n]), h(a[n]), HashAll(h, b[..n]), h(b[n]));
      HashAllBack(h, a[..n], b[..n]);
      assert a == a[..n] + [a[n]] && b == b[..n] + [b[n]];
      if a[n] == b[n] && a != b {
        CollisionGrows(h, set x | x in a[..n], set x | x in b[..n], set x | x in a, set x | x in b);
      } else if a != b {
        assert a[n] in a && b[n] in b;
      }
    }
  }

  /** Two pairs of hashes that differ and have one pair hash are a collision. */
  lemma PairBack(h: Hash, x: Digest, y: Digest, u: Digest, v: Digest, a: set<Bytes>, b: set<Bytes>)
    requires |x.bytes| == |u.bytes| && PairHash(h, x, y) == PairHash(h, u, v)
    requires x.bytes + y.bytes in a && u.bytes + v.bytes in b
    ensures (x == u && y == v) || Collision(h, a, b)
  {
    if x.bytes + y.bytes == u.bytes + v.bytes {
      HalvesSame(x.bytes, y.bytes, u.bytes, v.bytes);
    }
  }

  lemma LastTwoSame<T>(s: seq<T>, u: seq<T>)
    requires |s| == |u| >= 2 && s[..|s| - 2] == u[..|u| - 2] && s[|s| - 2] == u[|u| - 2] && s[|s| - 1] == u[|u| - 1]
    ensures s == u
  {
    forall i | 0 <= i < |s| ensures s[i] == u[i] {
      assert i < |s| - 2 ==> s[i] == s[..|s| - 2][i] && u[i] == u[..|u| - 2][i];
    }
  }

  lemma PairsLast(h: Hash, level: seq<Digest>)
    requires |level| >= 2
    ensures var n := |level| - 2;
            && Pairs(h, level) == Pairs(h, level[..n]) + [PairHash(h, level[n], level[n + 1])]
            && PairsOf(level) == PairsOf(level[..n]) + {level[n].bytes + level[n + 1].bytes}
  {
  }

  /** Two different levels of hashes with the same pair hashes meet a collision. */
  lemma {:induction false} PairsBack(h: Hash, a: seq<Digest>, b: seq<Digest>)
    requires |a| == |b| && !Odd(|a|) && AllHashes(a) && AllHashes(b) && Pairs(h, a) == Pairs(h, b)
    ensures a == b || Collision(h, PairsOf(a), PairsOf(b))
    decreases |a|
  {
    if |a| >= 2 {
      var n := |a| - 2;
      PairsLast(h, a);
      PairsLast(h, b);
      LastSame(Pairs(h, a[..n]), PairHash(h, a[n], a[n + 1]), Pairs(h, b[..n]), PairHash(h, b[n], b[n + 1]));
      PairsBack(h, a[..n], b[..n]);
      if a[..n] == b[..n] {
        assert a[n] in a && b[n] in b;
        PairBack(h, a[n], a[n + 1], b[n], b[n + 1], PairsOf(a), PairsOf(b));
        if a[n] == b[n] && a[n + 1] == b[n + 1] {
          LastTwoSame(a, b);
        }
      } else {
        CollisionGrows(h, PairsOf(a[..n]), PairsOf(b[..n]), PairsOf(a), PairsOf(b));
      }
    }
  }

  lemma PaddedBack<T>(s: seq<T>, u: seq<T>)
    requires |s| == |u| && Padded(s) == Padded(u)
    ensures s == u
  {
    assert s == Padded(s)[..|s|] && u == Padded(u)[..|u|];
  }

  /** One round back: equal levels come from equal levels, or a collision was met. */
  lemma RoundBack(h: Hash, la: seq<Digest>, lb: seq<Digest>, a: set<Bytes>, b: set<Bytes>)
    requires |la| == |lb| && !Odd(|la|) && AllHashes(la) && AllHashes(lb) && Up(h, la) == Up(h, lb)
    requires PairsOf(la) <= a && PairsOf(lb) <= b
    ensures la == lb || Collision(h, a, b)
  {
    PaddedBack(Pairs(h, la), Pairs(h, lb));
    PairsBack(h, la, lb);
    if Collision(h, PairsOf(la), PairsOf(lb)) {
      CollisionGrows(h, PairsOf(la), PairsOf(lb), a, b);
    }
  }

  lemma LeavesBack(h: Hash, a: seq<Bytes>, b: seq<Bytes>)
    requires |a| == |b| && HashAll(h, Padded(a)) == HashAll(h, Padded(b))
    ensures a == b || Collision(h, Hashed(h, a, 0), Hashed(h, b, 0))
  {
    HashAllBack(h, Padded(a), Padded(b));
    if Padded(a) == Padded(b) {
      PaddedBack(a, b);
    }
  }

  lemma HashedGrows(h: Hash, data: seq<Bytes>, rounds: nat)
    requires rounds > 0
    ensures Hashed(h, data, rounds - 1) <= Hashed(h, data, rounds)
    ensures PairsOf(Level(h, data, rounds - 1)) <= Hashed(h, data, rounds)
    ensures Level(h, data, rounds) == Up(h, Level(h, data, rounds - 1))
  {
  }

  lemma LevelsMatch(h: Hash, a: seq<Bytes>, b: seq<Bytes>, rounds: nat)
    requires FixedSize(h) && |a| == |b|
    ensures |Level(h, a, rounds)| == |Level(h, b, rounds)| && !Odd(|Level(h, a, rounds)|)
    ensures AllHashes(Level(h, a, rounds)) && AllHashes(Level(h, b, rounds))
  {
    LevelSizeIs(h, a, rounds);
    LevelSizeIs(h, b, rounds);
    LevelSizeEven(|a|, rounds);
    LevelHashes(h, a, rounds);
    LevelHashes(h, b, rounds);
  }

  lemma LevelBack(h: Hash, a: seq<Bytes>, b: seq<Bytes>, rounds: nat, la: seq<Digest>, lb: seq<Digest>)
    requires FixedSize(h) && |a| == |b| && rounds > 0 && Level(h, a, rounds) == Level(h, b, rounds)
    requires la == Level(h, a, rounds - 1) && lb == Level(h, b, rounds - 1)
    ensures la == lb || Collision(h, Hashed(h, a, rounds), Hashed(h, b, rounds))
  {
    HashedGrows(h, a, rounds);
    HashedGrows(h, b, rounds);
    LevelsMatch(h, a, b, rounds - 1);
    RoundBack(h, la, lb, Hashed(h, a, rounds), Hashed(h, b, rounds));
  }

  lemma CollisionStays(h: Hash, a: seq<Bytes>, b: seq<Bytes>, rounds: nat)
    requires rounds > 0
    ensures Collision(h, Hashed(h, a, rounds - 1), Hashed(h, b, rounds - 1)) ==> Collision(h, Hashed(h, a, rounds), Hashed(h, b, rounds))
  {
    if Collision(h, Hashed(h, a, rounds - 1), Hashed(h, b, rounds - 1)) {
      HashedGrows(h, a, rounds);
      HashedGrows(h, b, rounds);
      CollisionGrows(h, Hashed(h, a, rounds - 1), Hashed(h, b, rounds - 1), Hashed(h, a, rounds), Hashed(h, b, rounds));
    }
  }

  lemma {:induction false} LevelsBack(h: Hash, a: seq<Bytes>, b: seq<Bytes>, rounds: nat)
    requires FixedSize(h) && |a| == |b| && Level(h, a, rounds) == Level(h, b, rounds)
    ensures a == b || Collision(h, Hashed(h, a, rounds), Hashed(h, b, rounds))
    decreases rounds
  {
    if rounds == 0 {
      LeavesBack(h, a, b);
    } else {
      LevelBack(h, a, b, rounds, Level(h, a, rounds - 1), Level(h, b, rounds - 1));
      if Level(h, a, rounds - 1) == Level(h, b, rounds - 1) {
        LevelsBack(h, a, b, rounds - 1);
        CollisionStays(h, a, b, rounds);
      }
    }
  }

  lemma UpOfTwo(h: Hash, level: seq<Digest>)
    requires |level| == 2
    ensures Up(h, level) == [PairHash(h, level[0], level[1]), PairHash(h, level[0], level[1])]
  {
    assert level[..0] == [];
    assert Pairs(h, level) == [PairHash(h, level[0], level[1])];
  }

  lemma LastUp(h: Hash, data: seq<Bytes>, rounds: nat)
    requires rounds > 0 && LevelSize(|data|, rounds - 1) == 2
    ensures |Level(h, data, rounds)| == 2 && Level(h, data, rounds)[0] == Level(h, data, rounds)[1]
  {
    LevelSizeIs(h, data, rounds - 1);
    UpOfTwo(h, Level(h, data, rounds - 1));
  }

  /** The last level holds the root twice. */
  lemma LastLevel(h: Hash, data: seq<Bytes>)
    requires data != []
    ensures Level(h, data, Rounds(|data|)) == [Root(h, data), Root(h, data)]
  {
    RoundsSuffice(|data|, Rounds(|data|) - 1);
    LastUp(h, data, Rounds(|data|));
  }

  /** Two lists of one nonzero length with one root are equal, or a collision was met while hashing them. */
  lemma RootBinds(h: Hash, a: seq<Bytes>, b: seq<Bytes>)
    requires FixedSize(h) && |a| == |b| > 0 && Root(h, a) == Root(h, b)
    ensures a == b || Collision(h, Hashed(h, a, Rounds(|a|)), Hashed(h, b, Rounds(|b|)))
  {
    LastLevel(h, a);
    LastLevel(h, b);
    LevelsBack(h, a, b, Rounds(|a|));
  }

  lemma {:induction false} SameLeaves(h: Hash, a: seq<Bytes>, b: seq<Bytes>, rounds: nat)
    requires Padded(a) == Padded(b)
    ensures Level(h, a, rounds) == Level(h, b, rounds)
    decreases rounds
  {
    if rounds > 0 {
      SameLeaves(h, a, b, rounds - 1);
    }
  }

  /** The lengths must agree: an odd list and the same list with its last element repeated have one root. */
  lemma PaddingIsHidden(h: Hash, data: seq<Bytes>)
    requires Odd(|data|)
    ensures Root(h, data) == Root(h, data + [data[|data| - 1]])
  {
    var more := data + [data[|data| - 1]];
    OddNext(|data|);
    assert Padded(data) == more && Padded(more) == more;
    SameLeaves(h, data, more, Rounds(|data|));
  }

  // ----- The root as that of a tree

  /** The root of the tree: neighbours are hashed in pairs, an odd one with itself, until one is left. */
  function TreeRoot(h: Hash, level: seq<Digest>): Digest
    requires level != []
    decreases |level|
  {
    SizeArithmetic(|level|);
    if |level| == 1 then level[0]
    else if |level| == 2 then PairHash(h, level[0], level[1])
    else TreeRoot(h, Pairs(h, Padded(level)))
  }

  /** How many times the nodes must be paired until one is left. */
  function Depth(n: nat): nat {
    SizeArithmetic(n);
    if n <= 1 then 0 else if n == 2 then 1 else 1 + Depth(Half(EvenUp(n)))
  }

  /** A hash that is paired with itself again and again. */
  function Again(h: Hash, d: Digest, times: nat): Digest
    decreases times
  {
    if times == 0 then d else Again(h, PairHash(h, d, d), times - 1)
  }

  /** Rounds from some level up, said from the bottom. */
  function Rise(h: Hash, level: seq<Digest>, rounds: nat): seq<Digest>
    decreases rounds
  {
    if rounds == 0 then Padded(level) else Rise(h, Pairs(h, Padded(level)), rounds - 1)
  }

  lemma {:induction false} RiseStep(h: Hash, level: seq<Digest>, rounds: nat)
    ensures Rise(h, level, rounds + 1) == Up(h, Rise(h, level, rounds))
    decreases rounds
  {
    if rounds > 0 {
      RiseStep(h, Pairs(h, Padded(level)), rounds - 1);
    }
  }

  lemma {:induction false} LevelRises(h: Hash, data: seq<Bytes>, rounds: nat)
    ensures Level(h, data, rounds) == Rise(h, HashAll(h, Padded(data)), rounds)
    decreases rounds
  {
    if rounds == 0 {
      OddNext(|data|);
    } else {
      LevelRises(h, data, rounds - 1);
      RiseStep(h, HashAll(h, Padded(data)), rounds - 1);
    }
  }

  lemma PairsOfTwo(h: Hash, l: Digest, r: Digest)
    ensures Pairs(h, [l, r]) == [PairHash(h, l, r)]
  {
    assert [l, r][..0] == [];
  }

  /** After enough rounds the root of the tree is there, paired with itself once for each round too many. */
  lemma {:induction false} RiseRoots(h: Hash, level: seq<Digest>, rounds: nat)
    requires level != [] && rounds >= Depth(|level|)
    ensures Rise(h, level, rounds) != []
    ensures Rise(h, level, rounds)[0] == Again(h, TreeRoot(h, level), rounds - Depth(|level|))
    decreases rounds
  {
    SizeArithmetic(|level|);
    if |level| <= 2 {
      RiseSmall(h, level, rounds);
    } else {
      RiseRoots(h, Pairs(h, Padded(level)), rounds - 1);
    }
  }

  lemma RiseSmall(h: Hash, level: seq<Digest>, rounds: nat)
    requires 1 <= |level| <= 2 && rounds >= Depth(|level|)
    ensures Rise(h, level, rounds) != []
    ensures Rise(h, level, rounds)[0] == Again(h, TreeRoot(h, level), rounds - Depth(|level|))
  {
    if |level| == 1 {
      RiseOfOne(h, level[0], rounds);
      assert level == [level[0]];
    } else {
      PairsOfTwo(h, level[0], level[1]);
      assert level == [level[0], level[1]] && Padded(level) == level;
      RiseOfOne(h, PairHash(h, level[0], level[1]), rounds - 1);
    }
  }

  lemma {:induction false} RiseOfOne(h: Hash, d: Digest, rounds: nat)
    ensures Rise(h, [d], rounds) != [] && Rise(h, [d], rounds)[0] == Again(h, d, rounds)
    decreases rounds
  {
    assert Padded([d]) == [d, d];
    if rounds > 0 {
      PairsOfTwo(h, d, d);
      RiseOfOne(h, PairHash(h, d, d), rounds - 1);
    }
  }

  lemma {:induction false} DepthFits(n: nat)
    requires n >= 1
    ensures Depth(n) <= n - 1
    ensures !Odd(n) ==> Depth(n) <= n / 2
    decreases n
  {
    SizeArithmetic(n);
    if n > 2 {
      DepthFits(Half(EvenUp(n)));
    }
  }

  /**
   The root the loop computes is the root of the tree over the hashed items, an odd list filled up
   first; when half the number of items is more than the depth of the tree, it is paired with itself
   once for each round too many.
   */
  lemma RootIsTreeRoot(h: Hash, data: seq<Bytes>)
    requires data != []
    ensures var leaves := HashAll(h, Padded(data));
            && Depth(|leaves|) <= (|data| + 1) / 2
            && Root(h, data) == Again(h, TreeRoot(h, leaves), (|data| + 1) / 2 - Depth(|leaves|))
  {
    var leaves, n := HashAll(h, Padded(data)), (|data| + 1) / 2;
    HalfOfLeaves(|data|);
    DepthFits(|leaves|);
    LevelRises(h, data, n);
    RiseRoots(h, leaves, n);
  }

  lemma HalfOfLeaves(n: nat)
    requires n > 0
    ensures Rounds(n) == (n + 1) / 2 == EvenUp(n) / 2 && !Odd(EvenUp(n)) && EvenUp(n) >= 2
  {
    SizeArithmetic(n);
    ParityMeans(n);
    ParityMeans(EvenUp(n));
    OddNext(n);
  }

  /** Two items, or one and its copy. */
  lemma RootOfTwo(h: Hash, a: Bytes, b: Bytes)
    ensures Root(h, [a, b]) == PairHash(h, h(a), h(b)) && Root(h, [a]) == PairHash(h, h(a), h(a))
  {
    RootIsTreeRoot(h, [a, b]);
    RootIsTreeRoot(h, [a]);
    HashBoth(h, a, b);
    HashBoth(h, a, a);
    assert Padded([a]) == [a, a] && Padded([a, b]) == [a, b];
  }

  lemma HashBoth(h: Hash, a: Bytes, b: Bytes)
    ensures HashAll(h, [a, b]) == [h(a), h(b)]
  {
    assert [a, b][..1] == [a] && [a][..0] == [];
  }
}

/**
 The blocks bucket and the doubly linked chain bucket (node/database/blockchain.go).
 A chain record is the previous hash followed by the next hash; zeros stand for "none".
 */
module ChainDB {
  import opened Structures
  import opened BlockTree

  /** Go's copy(dst[off:], src). */
  function CopyInto(dst: Bytes, off: nat, src: Bytes): (r: Bytes)
    requires off <= |dst|
    ensures |r| == |dst|
  {
    var n := if |src| <= |dst| - off then |src| else |dst| - off;
    dst[..off] + src[..n] + dst[off + n..]
  }

  /** A record splits into its halves, and patching the upper half keeps the lower one. */
  lemma Halves(a: Bytes, b: Bytes, c: Bytes)
    requires |a| == |b| == |c|
    ensures (a + b)[..|a|] == a && (a + b)[|a|..] == b && (a + b)[|a|..|a| * 2] == b
    ensures CopyInto(a + b, |a|, c) == a + c
  {
    assert (a + b)[|a|..|a| * 2] == (a + b)[|a|..];
    assert CopyInto(a + b, |a|, c) == (a + b)[..|a|] + c + (a + b)[|a| * 2..];
  }

  lemma FreshRecord(n: nat, prev: Bytes)
    requires |prev| == 0 || |prev| == n
    ensures CopyInto(Zeros(n * 2), 0, prev) == (if |prev| == 0 then Zeros(n) else prev) + Zeros(n)
  {
    assert Zeros(n * 2)[|prev|..] == if |prev| == 0 then Zeros(n) + Zeros(n) else Zeros(n);
  }

  /** The record that place i of a path must have: the hash below it, then the hash above it. */
  function Record(p: seq<Bytes>, i: nat): Bytes
    requires i < |p|
  {
    (if i + 1 < |p| then p[i + 1] else Zeros(HASH_SIZE)) + (if i > 0 then p[i - 1] else Zeros(HASH_SIZE))
  }

  /** The chain bucket holds the path p, top first, and nothing else. */
  ghost predicate IsIndex(chain: map<Bytes, Bytes>, p: seq<Bytes>) {
    && (forall h :: h in chain <==> h in p)
    && forall i {:trigger HasRecord(chain, p, i)} :: 0 <= i < |p| ==> HasRecord(chain, p, i)
  }

  ghost predicate HasRecord(chain: map<Bytes, Bytes>, p: seq<Bytes>, i: nat)
    requires i < |p|
  {
    p[i] in chain && chain[p[i]] == Record(p, i)
  }

  ghost predicate HashPath(p: seq<Bytes>) {
    && Distinct(p)
    && forall h :: h in p ==> IsHash(h)
  }

  /** A path has one index only. */
  lemma IndexUnique(c: map<Bytes, Bytes>, d: map<Bytes, Bytes>, p: seq<Bytes>)
    requires IsIndex(c, p) && IsIndex(d, p)
    ensures c == d
  {
    forall h | h in c ensures h in d && c[h] == d[h] {
      var i :| 0 <= i < |p| && p[i] == h;
      assert HasRecord(c, p, i) && HasRecord(d, p, i);
    }
    assert c.Keys == d.Keys;
  }

  /** The chain bucket after hash is put above prev. */
  function Appended(chain: map<Bytes, Bytes>, hash: Bytes, prev: Bytes): map<Bytes, Bytes>
    requires |prev| > 0 ==> prev in chain && |hash| <= |chain[prev]|
  {
    (if |prev| > 0 then chain[prev := CopyInto(chain[prev], |hash|, hash)] else chain)
    [hash := CopyInto(Zeros(|hash| * 2), 0, prev)]
  }

  lemma AppendedIndex(chain: map<Bytes, Bytes>, p: seq<Bytes>, hash: Bytes)
    requires IsIndex(chain, p) && HashPath(p) && IsHash(hash) && hash !in p
    ensures var prev := if p == [] then [] else p[0];
            && (p != [] ==> prev in chain && |chain[prev]| == HASH_SIZE * 2
                            && chain[prev][HASH_SIZE..HASH_SIZE * 2] == Zeros(HASH_SIZE))
            && IsIndex(Appended(chain, hash, prev), [hash] + p)
            && HashPath([hash] + p)
  {
    var q := [hash] + p;
    if p != [] {
      EndRecord(chain, p);
    }
    var c := Appended(chain, hash, if p == [] then [] else p[0]);
    assert forall h :: h in q <==> h == hash || h in p;
    forall i {:trigger HasRecord(c, q, i)} | 0 <= i < |q| ensures HasRecord(c, q, i) {
      AppendedPlace(chain, p, hash, i);
    }
  }

  lemma AppendedPlace(chain: map<Bytes, Bytes>, p: seq<Bytes>, hash: Bytes, i: nat)
    requires IsIndex(chain, p) && HashPath(p) && IsHash(hash) && hash !in p && i <= |p|
    requires p != [] ==> p[0] in chain && |chain[p[0]]| == HASH_SIZE * 2
    ensures HasRecord(Appended(chain, hash, if p == [] then [] else p[0]), [hash] + p, i)
  {
    if i == 0 {
      assert p != [] ==> p[0] in p;
      FreshRecord(HASH_SIZE, if p == [] then [] else p[0]);
    } else if i == 1 {
      assert p[0] in p && HasRecord(chain, p, 0);
      assert |p| > 1 ==> p[1] in p;
      Halves(if |p| > 1 then p[1] else Zeros(HASH_SIZE), Zeros(HASH_SIZE), hash);
    } else {
      assert ([hash] + p)[i] == p[i - 1] && p[i - 1] in p && p[i - 1] != p[0];
      assert HasRecord(chain, p, i - 1);
    }
  }

  /** The chain bucket after the hash on its end is taken off. */
  function Truncated(chain: map<Bytes, Bytes>, hash: Bytes): map<Bytes, Bytes>
    requires hash in chain && |chain[hash]| >= |hash| * 2
    requires var prev := chain[hash][..|hash|];
             prev != Zeros(|hash|) ==> prev in chain && |hash| <= |chain[prev]|
  {
    var prev := chain[hash][..|hash|];
    (if prev != Zeros(|hash|) then chain[prev := CopyInto(chain[prev], |hash|, Zeros(|hash|))] else chain) - {hash}
  }

  lemma EndRecord(chain: map<Bytes, Bytes>, p: seq<Bytes>)
    requires IsIndex(chain, p) && HashPath(p) && p != []
    ensures p[0] in chain && |chain[p[0]]| == HASH_SIZE * 2
    ensures chain[p[0]][HASH_SIZE..HASH_SIZE * 2] == Zeros(HASH_SIZE)
    ensures chain[p[0]][..HASH_SIZE] == if |p| > 1 then p[1] else Zeros(HASH_SIZE)
  {
    assert p[0] in p && HasRecord(chain, p, 0);
    assert |p| > 1 ==> p[1] in p;
    Halves(if |p| > 1 then p[1] else Zeros(HASH_SIZE), Zeros(HASH_SIZE), Zeros(HASH_SIZE));
  }

  lemma SecondRecord(chain: map<Bytes, Bytes>, p: seq<Bytes>)
    requires IsIndex(chain, p) && HashPath(p) && |p| > 1
    ensures p[1] in chain && |chain[p[1]]| == HASH_SIZE * 2
    ensures CopyInto(chain[p[1]], HASH_SIZE, Zeros(HASH_SIZE)) == Record(p[1..], 0)
  {
    assert p[0] in p && p[1] in p && HasRecord(chain, p, 1);
    assert |p| > 2 ==> p[2] in p;
    Halves(if |p| > 2 then p[2] else Zeros(HASH_SIZE), p[0], Zeros(HASH_SIZE));
  }

  lemma TruncatedIndex(chain: map<Bytes, Bytes>, p: seq<Bytes>)
    requires IsIndex(chain, p) && HashPath(p) && p != []
    requires p[0] in chain && |chain[p[0]]| == HASH_SIZE * 2
    requires |p| > 1 ==> p[1] in chain && |chain[p[1]]| == HASH_SIZE * 2
    requires chain[p[0]][..HASH_SIZE] == if |p| > 1 then p[1] else Zeros(HASH_SIZE)
    ensures |p[0]| == HASH_SIZE
    ensures IsIndex(Truncated(chain, p[0]), p[1..]) && HashPath(p[1..])
  {
    var q := p[1..];
    assert p[0] in p;
    assert |p| > 1 ==> p[1] in p;
    var c := Truncated(chain, p[0]);
    assert forall h :: h in p <==> h == p[0] || h in q;
    forall i {:trigger HasRecord(c, q, i)} | 0 <= i < |q| ensures HasRecord(c, q, i) {
      TruncatedPlace(chain, p, i);
    }
  }

  lemma TruncatedPlace(chain: map<Bytes, Bytes>, p: seq<Bytes>, i: nat)
    requires IsIndex(chain, p) && HashPath(p) && i + 1 < |p|
    requires p[0] in chain && |p[0]| == HASH_SIZE && |chain[p[0]]| == HASH_SIZE * 2
    requires chain[p[0]][..HASH_SIZE] == p[1]
    requires p[1] in chain && |chain[p[1]]| == HASH_SIZE * 2
    ensures HasRecord(Truncated(chain, p[0]), p[1..], i)
  {
    assert p[1..][i] == p[i + 1] && p[i + 1] in p && p[i + 1] != p[0] && p[1] in p;
    if i == 0 {
      SecondRecord(chain, p);
    } else {
      assert p[i + 1] != p[1];
      assert HasRecord(chain, p, i + 1);
    }
  }

  /** Membership and neighbours read from the chain bucket are those of the indexed path. */
  lemma IndexReads(chain: map<Bytes, Bytes>, p: seq<Bytes>)
    requires IsIndex(chain, p) && HashPath(p)
    ensures forall h :: h in p ==> h in chain && |chain[h]| == |h| * 2
  {
    forall h | h in p ensures h in chain && |chain[h]| == |h| * 2 {
      var i :| 0 <= i < |p| && p[i] == h;
      PlaceReads(chain, p, i);
    }
  }

  lemma PlaceReads(chain: map<Bytes, Bytes>, p: seq<Bytes>, i: nat)
    requires IsIndex(chain, p) && HashPath(p) && i < |p|
    ensures p[i] in chain && |chain[p[i]]| == |p[i]| * 2 == HASH_SIZE * 2
    ensures chain[p[i]][..HASH_SIZE] == if i + 1 < |p| then p[i + 1] else Zeros(HASH_SIZE)
    ensures chain[p[i]][HASH_SIZE..] == if i > 0 then p[i - 1] else Zeros(HASH_SIZE)
    ensures i + 1 < |p| ==> p[i + 1] != Zeros(HASH_SIZE)
    ensures i > 0 ==> p[i - 1] != Zeros(HASH_SIZE)
  {
    assert p[i] in p && HasRecord(chain, p, i);
    assert i + 1 < |p| ==> p[i + 1] in p;
    assert i > 0 ==> p[i - 1] in p;
  }

  lemma PathIsHashPath(t: Tree, h: Bytes)
    requires t.Valid() && h in t.blocks
    ensures HashPath(t.Path(h))
  {
    PathDistinct(t, h);
    PathStored(t, h);
  }

  ghost function Place(p: seq<Bytes>, h: Bytes): (i: nat)
    requires h in p
    ensures i < |p| && p[i] == h
  {
    var i :| 0 <= i < |p| && p[i] == h;
    i
  }

  class BlockchainDB {
    var blocks: map<Bytes, Block>
    var topHash: Bytes
    var firstHash: Bytes
    var chain: map<Bytes, Bytes>

    ghost function Stored(): Tree
      reads this
    {
      Tree(blocks, firstHash)
    }

    /** The tree is well formed, the top is stored, and the chain bucket is the index of its path. */
    ghost predicate Valid()
      reads this
    {
      && Stored().Valid() && topHash in blocks
      && IsIndex(chain, Stored().Path(topHash))
    }

    /** An empty database. */
    constructor ()
      ensures blocks == map[] && chain == map[] && topHash == [] && firstHash == []
    {
      blocks, chain, topHash, firstHash := map[], map[], [], [];
    }

    method GetBlock(hash: Bytes) returns (r: Option<Block>)
      ensures r == if hash in blocks then Some(blocks[hash]) else None
    {
      if hash in blocks {
        return Some(blocks[hash]);
      }
      return None;
    }

    method GetTopHash() returns (r: Result<Bytes>)
      ensures r == if |topHash| > 0 then Ok(topHash) else Err(TopNotFound)
    {
      if |topHash| > 0 {
        return Ok(topHash);
      }
      return Err(TopNotFound);
    }

    method PutBlock(hash: Bytes, block: Block)
      modifies this`blocks
      ensures blocks == old(blocks)[hash := block]
    {
      blocks := blocks[hash := block];
    }

    method SaveTopHash(hash: Bytes)
      modifies this`topHash
      ensures topHash == hash
    {
      topHash := hash;
    }

    method SaveFirstHash(hash: Bytes)
      modifies this`firstHash
      ensures firstHash == hash
    {
      firstHash := hash;
    }

    method DeleteBlock(hash: Bytes)
      modifies this`blocks
      ensures blocks == old(blocks) - {hash}
    {
      blocks := blocks - {hash};
    }

    /** Puts hash on the end of the chain, above prevHash. */
    method AddToChain(hash: Bytes, prevHash: Bytes) returns (err: Option<Error>)
      modifies this`chain
      ensures err ==
              if |hash| == 0 then Some(HashEmpty)
              else if |prevHash| == 0 then None
              else if prevHash !in old(chain) || |old(chain)[prevHash]| < |hash| * 2 then Some(HashNotFound)
              else if old(chain)[prevHash][|hash|..|hash| * 2] != Zeros(|hash|) then Some(HashHasNext)
              else None
      ensures chain == if err.None? then Appended(old(chain), hash, prevHash) else old(chain)
    {
      var length := |hash|;
      if length == 0 {
        return Some(HashEmpty);
      }
      var emptyHash := Zeros(length);
      var hashBytes := Zeros(length * 2);
      if |prevHash| > 0 {
        if prevHash !in chain || |chain[prevHash]| < length * 2 {
          return Some(HashNotFound);
        }
        var prRec := chain[prevHash];
        var exNext := prRec[length..length * 2];
        if exNext != emptyHash {
          return Some(HashHasNext);
        }
        prRec := CopyInto(prRec, length, hash);
        chain := chain[prevHash := prRec];
        hashBytes := CopyInto(hashBytes, 0, prevHash);
      }
      assert |prevHash| == 0 ==> CopyInto(hashBytes, 0, prevHash) == hashBytes;
      chain := chain[hash := hashBytes];
      return None;
    }

    /** Takes hash off the end of the chain. */
    method RemoveFromChain(hash: Bytes) returns (err: Option<Error>)
      modifies this`chain
      ensures err ==
              if |hash| == 0 then Some(HashEmpty)
              else if hash !in old(chain) || |old(chain)[hash]| < |hash| * 2 then Some(HashNotFound)
              else if old(chain)[hash][|hash|..|hash| * 2] != Zeros(|hash|) then Some(OnlyLastCanBeRemoved)
              else
                var prev := old(chain)[hash][..|hash|];
                if prev != Zeros(|hash|) && (prev !in old(chain) || |old(chain)[prev]| < |hash| * 2) then
                  Some(HashNotFound)
                else None
      ensures chain == if err.None? then Truncated(old(chain), hash) else old(chain)
    {
      var length := |hash|;
      if length == 0 {
        return Some(HashEmpty);
      }
      var emptyHash := Zeros(length);
      if hash !in chain || |chain[hash]| < length * 2 {
        return Some(HashNotFound);
      }
      var hashBytes := chain[hash];
      var nextHash := hashBytes[length..length * 2];
      if nextHash != emptyHash {
        return Some(OnlyLastCanBeRemoved);
      }
      var prevHash := hashBytes[..length];
      if prevHash != emptyHash {
        if prevHash !in chain || |chain[prevHash]| < length * 2 {
          return Some(HashNotFound);
        }
        var prevHashBytes := CopyInto(chain[prevHash], length, emptyHash);
        chain := chain[prevHash := prevHashBytes];
      }
      chain := chain - {hash};
      return None;
    }

    /** Whether the chain bucket holds a record of the right length for hash. */
    method BlockInChain(hash: Bytes) returns (r: Result<bool>)
      ensures r == if |hash| == 0 then Err(HashEmpty) else Ok(hash in chain && |chain[hash]| == |hash| * 2)
      ensures Valid() && |hash| > 0 ==> r == Ok(hash in Stored().Path(topHash))
    {
      if Valid() {
        PathIsHashPath(Stored(), topHash);
        IndexReads(chain, Stored().Path(topHash));
      }
      if |hash| == 0 {
        return Err(HashEmpty);
      }
      return Ok(hash in chain && |chain[hash]| == |hash| * 2);
    }

    /** Presence of hash in the chain with its neighbours; an absent neighbour is empty. */
    method GetLocationInChain(hash: Bytes) returns (err: Option<Error>, found: bool, prevHash: Bytes, nextHash: Bytes)
      ensures err == if |hash| == 0 then Some(HashEmpty) else None
      ensures found <==> |hash| > 0 && hash in chain && |chain[hash]| == |hash| * 2
      ensures !found ==> prevHash == [] && nextHash == []
      ensures found ==>
                var p, n := chain[hash][..|hash|], chain[hash][|hash|..];
                && prevHash == (if p == Zeros(|hash|) then [] else p)
                && nextHash == (if n == Zeros(|hash|) then [] else n)
      ensures Valid() && |hash| > 0 ==>
                var p := Stored().Path(topHash);
                && (found <==> hash in p)
                && (found ==> prevHash == (if Place(p, hash) + 1 < |p| then p[Place(p, hash) + 1] else [])
                              && nextHash == (if Place(p, hash) > 0 then p[Place(p, hash) - 1] else []))
    {
      if Valid() {
        PathIsHashPath(Stored(), topHash);
        IndexReads(chain, Stored().Path(topHash));
        if hash in Stored().Path(topHash) {
          PlaceReads(chain, Stored().Path(topHash), Place(Stored().Path(topHash), hash));
        }
      }
      err, found, prevHash, nextHash := None, false, [], [];
      var length := |hash|;
      if length == 0 {
        err := Some(HashEmpty);
        return;
      }
      var emptyHash := Zeros(length);
      if hash in chain && |chain[hash]| == length * 2 {
        var h := chain[hash];
        prevHash := h[..length];
        nextHash := h[length..];
        if prevHash == emptyHash {
          prevHash := [];
        }
        if nextHash == emptyHash {
          nextHash := [];
        }
        found := true;
      }
    }
  }
}

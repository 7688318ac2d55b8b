/** The trie root as the Ethereum Yellow Paper defines it: hex-prefix encoding (Appendix C)
    and the structural composition functions c and n over a set of pairs (Appendix D), with the
    pairs as a finite map and the position as an index into full keys.  Nothing here is shared
    with the engine's encoders; the theorems say that the engine computes the same bytes.
 */
module YellowPaper {
  import opened Trie
  import opened TrieLaws
  import opened TrieHistory
  import opened TrieRoot

  type Pairs = map<Path, Bytes>

  // ------------------------------------------------------------------ hex prefix

  /** Byte `b` of HP(x, t): the flag byte first, then two nibbles a byte. */
  function HpByte(x: Path, t: bool, b: nat): int
    requires b <= |x| / 2
  {
    var odd := |x| % 2;
    if b == 0 then 16 * ((if t then 2 else 0) + odd) + (if odd == 1 then x[0] as int else 0)
    else 16 * (x[2 * b - 2 + odd] as int) + (x[2 * b - 1 + odd] as int)
  }

  function Hp(x: Path, t: bool): (r: Bytes)
    ensures |r| == |x| / 2 + 1 && forall b :: 0 <= b < |r| ==> (r[b] as int) == HpByte(x, t, b)
  {
    seq(|x| / 2 + 1, b requires 0 <= b <= |x| / 2 => HpByte(x, t, b))
  }

  lemma {:induction false} PairsAt(p: Path, b: nat)
    requires |p| % 2 == 0 && b < |p| / 2
    ensures |PackPairs(p)| == |p| / 2 && (PackPairs(p)[b] as int) == 16 * (p[2 * b] as int) + (p[2 * b + 1] as int)
    decreases |p|
  {
    if b > 0 {
      PairsAt(p[2..], b - 1);
    } else if |p| > 2 {
      PairsAt(p[2..], 0);
    }
  }

  /** The engine's path encoding is HP, byte for byte. */
  lemma HexPrefixIsHp(p: Path, leaf: bool)
    ensures HexPrefix(p, leaf) == Hp(p, leaf)
  {
    var odd, h := |p| % 2, HexPrefix(p, leaf);
    var rest := p[odd..];
    assert |rest| % 2 == 0 && |rest| / 2 == |p| / 2;
    assert h[1..] == PackPairs(rest);
    if rest != [] {
      PairsAt(rest, 0);
    }
    forall b | 0 < b < |h| ensures (h[b] as int) == HpByte(p, leaf, b) {
      PairsAt(rest, b - 1);
      assert h[b] == h[1..][b - 1];
    }
  }

  /** What the bytes are: a flag nibble 2 for a leaf plus 1 for an odd length, the odd nibble
      or zero beside it, then the remaining nibbles in order. */
  lemma HexPrefixBytes(p: Path, leaf: bool)
    ensures var h, odd := HexPrefix(p, leaf), |p| % 2;
      && |h| == |p| / 2 + 1 && (h[0] as int) / 16 == (if leaf then 2 else 0) + odd
      && (h[0] as int) % 16 == (if odd == 1 then p[0] as int else 0)
      && forall i: nat :: i < |p| - odd ==> (if i % 2 == 0 then (h[1 + i / 2] as int) / 16 else (h[1 + i / 2] as int) % 16) == (p[odd + i] as int)
  {
    HexPrefixIsHp(p, leaf);
    var h, odd := HexPrefix(p, leaf), |p| % 2;
    forall i: nat | i < |p| - odd
      ensures (if i % 2 == 0 then (h[1 + i / 2] as int) / 16 else (h[1 + i / 2] as int) % 16) == (p[odd + i] as int) {
      assert (h[1 + i / 2] as int) == HpByte(p, leaf, 1 + i / 2);
    }
  }

  /** The encoding loop: the flag byte, then a byte for each pair. */
  method EncodeHexPrefix(nibbles: Path, leaf: bool) returns (out: Bytes)
    ensures out == HexPrefix(nibbles, leaf)
  {
    var odd := |nibbles| % 2;
    var flag: int := if leaf then 2 else 0;
    out := if odd == 1 then [16 * (flag + 1) + (nibbles[0] as int)] else [16 * flag];
    var i := odd;
    while i < |nibbles|
      invariant odd <= i <= |nibbles| && i % 2 == odd && |out| == 1 + i / 2
      invariant forall b :: 0 <= b < |out| ==> (out[b] as int) == HpByte(nibbles, leaf, b)
    {
      out := out + [16 * (nibbles[i] as int) + (nibbles[i + 1] as int)];
      i := i + 2;
    }
    HexPrefixIsHp(nibbles, leaf);
    assert out == Hp(nibbles, leaf);
  }

  // ---------------------------------------------------------------- composition

  ghost predicate Agree(J: Pairs, j: nat) {
    forall k, l :: k in J && l in J ==> j <= |k| && j <= |l| && k[..j] == l[..j]
  }

  ghost predicate PairsOk(J: Pairs, i: nat, len: nat) {
    i <= len && (forall k :: k in J ==> |k| == len) && Agree(J, i)
  }

  /** How far all keys agree, from `i` on. */
  ghost function Shared(J: Pairs, i: nat, len: nat): (j: nat)
    requires i <= len
    ensures i <= j <= len
    decreases len - i
  {
    if i < len && Agree(J, i + 1) then Shared(J, i + 1, len) else i
  }

  lemma {:induction false} SharedAgrees(J: Pairs, i: nat, len: nat)
    requires PairsOk(J, i, len)
    ensures PairsOk(J, Shared(J, i, len), len)
    decreases len - i
  {
    hide Agree;
    if i < len && Agree(J, i + 1) {
      SharedAgrees(J, i + 1, len);
    }
  }

  lemma OneKey(J: Pairs, len: nat)
    requires PairsOk(J, len, len) && J != map[]
    ensures |J| == 1
  {
    assert J.Keys != {};
    var k :| k in J;
    forall l | l in J ensures l == k {
      assert k[..len] == l[..len];
    }
    assert J.Keys == {k};
    assert |J| == |J.Keys|;
  }

  function Below(J: Pairs, i: nat, d: Nibble): Pairs {
    map k | k in J && i < |k| && k[i] == d :: J[k]
  }

  lemma BelowOk(J: Pairs, i: nat, len: nat, d: Nibble)
    requires PairsOk(J, i, len) && i < len
    ensures PairsOk(Below(J, i, d), i + 1, len)
  {
    var B := Below(J, i, d);
    forall k, l | k in B && l in B ensures k[..i + 1] == l[..i + 1] {
      assert k[..i] == l[..i] && k[..i + 1] == k[..i] + [k[i]] && l[..i + 1] == l[..i] + [l[i]];
    }
  }

  /** c(J, i): one pair is a leaf, a longer common part an extension, anything else a branch. */
  ghost function C(cr: Crypto, J: Pairs, i: nat, len: nat): Bytes
    requires PairsOk(J, i, len) && J != map[]
    decreases len - i, 1
  {
    var k := AnyKey(J);
    if |J| == 1 then cr.rlpList([cr.rlpString(Hp(k[i..], true)), cr.rlpString(J[k])])
    else
      var j := Shared(J, i, len);
      SharedAgrees(J, i, len);
      if j > i then cr.rlpList([cr.rlpString(Hp(k[i..j], false)), N(cr, J, j, len)])
      else
        assert i < len by { if i == len { OneKey(J, len); } }
        cr.rlpList(seq(16, d requires 0 <= d < 16 => (BelowOk(J, i, len, d); N(cr, Below(J, i, d), i + 1, len))) + [cr.rlpString([])])
  }

  ghost function AnyKey(J: Pairs): (k: Path)
    requires J != map[]
    ensures k in J
  {
    assert J.Keys != {};
    var k :| k in J;
    k
  }

  /** n(J, i): nothing, the node itself below 32 bytes, its hash from there on. */
  ghost function N(cr: Crypto, J: Pairs, i: nat, len: nat): Bytes
    requires PairsOk(J, i, len)
    decreases len - i, 2
  {
    if J == map[] then cr.rlpString([])
    else
      var c := C(cr, J, i, len);
      if |c| >= 32 then cr.rlpString(cr.keccak(c)) else c
  }

  /** The root: the hash of c over all pairs from the first nibble on. */
  ghost function TrieHash(cr: Crypto, J: Pairs, len: nat): Bytes
    requires PairsOk(J, 0, len)
  {
    if J == map[] then cr.keccak(cr.rlpString([])) else cr.keccak(C(cr, J, 0, len))
  }

  // -------------------------------------------------------------- the engine's node

  /** The pairs are what the trie holds below the prefix, with full keys. */
  ghost predicate Lists(cr: Crypto, J: Pairs, n: Node, p: Path, len: nat) {
    && |p| <= len
    && (forall k: Path :: k in J <==> |k| == len && p <= k && Get(n, k[|p|..]).Some?)
    && (forall k :: k in J ==> J[k] == LeafBytes(cr, Get(n, k[|p|..]).value))
  }

  lemma ListsOk(cr: Crypto, J: Pairs, n: Node, p: Path, len: nat)
    requires Lists(cr, J, n, p, len)
    ensures PairsOk(J, |p|, len)
  {
    hide Get, LeafBytes;
    forall k, l | k in J && l in J ensures k[..|p|] == l[..|p|] {
      assert k[..|p|] == p && l[..|p|] == p;
    }
  }

  lemma ListsEmpty(cr: Crypto, J: Pairs, n: Node, p: Path, len: nat)
    requires Lists(cr, J, n, p, len) && Canonical(n, len - |p|)
    ensures n == Empty <==> J == map[]
  {
    if n == Empty {
      assert J.Keys == {};
    } else {
      var k := SomeKey(n, len - |p|);
      assert (p + k)[|p|..] == k;
      assert p + k in J;
    }
  }

  lemma ListsLeaf(cr: Crypto, J: Pairs, n: Node, p: Path, len: nat)
    requires Lists(cr, J, n, p, len) && n.Leaf? && Canonical(n, len - |p|)
    ensures J.Keys == {p + n.path} && J[p + n.path] == LeafBytes(cr, n.item) && |J| == 1
  {
    hide LeafBytes;
    var key := p + n.path;
    assert key[|p|..] == n.path;
    forall k ensures k in J <==> k == key {
      if k in J {
        assert k == p + k[|p|..];
      }
    }
    assert J.Keys == {key};
    assert |J| == |J.Keys|;
  }

  lemma TwoPairs(J: Pairs, k: Path, l: Path)
    requires k in J && l in J && k != l
    ensures |J| > 1
  {
    assert {k, l} <= J.Keys;
    assert J.Keys == {k, l} + (J.Keys - {k, l});
    assert |J| == |J.Keys|;
  }

  lemma {:induction false} SharedIs(J: Pairs, i: nat, j: nat, len: nat)
    requires i <= j <= len && J != map[] && Agree(J, j) && (j < len ==> !Agree(J, j + 1))
    ensures Shared(J, i, len) == j
    decreases j - i
  {
    if i < j {
      AgreeLess(J, i + 1, j);
      SharedIs(J, i + 1, j, len);
    }
  }

  lemma AgreeLess(J: Pairs, i: nat, j: nat)
    requires Agree(J, j) && i <= j
    ensures Agree(J, i)
  {
    forall k, l | k in J && l in J ensures i <= |k| && i <= |l| && k[..i] == l[..i] {
      assert k[..j][..i] == k[..i] && l[..j][..i] == l[..i];
    }
  }

  /** A node with two keys: they agree up to its fan and no further. */
  lemma FanIsShared(cr: Crypto, J: Pairs, n: Node, p: Path, len: nat)
    requires Lists(cr, J, n, p, len) && (n.Branch? || n.Extension?) && Canonical(n, len - |p|)
    ensures J != map[] && |J| > 1 && |p| + Fan(n) < len && Shared(J, |p|, len) == |p| + Fan(n)
    ensures n.Extension? ==> forall k :: k in J ==> k[|p|..|p| + Fan(n)] == n.path
  {
    hide LeafBytes, Canonical;
    var j := |p| + Fan(n);
    var a, b := TwoKeys(n, len - |p|);
    var k, l := p + a, p + b;
    assert k[|p|..] == a && l[|p|..] == b;
    assert k in J && l in J && k[j] != l[j];
    TwoPairs(J, k, l);
    FanAgrees(cr, J, n, p, len);
    assert !Agree(J, j + 1) by {
      assert k[..j + 1][j] != l[..j + 1][j];
    }
    hide Agree;
    SharedIs(J, |p|, j, len);
  }

  lemma FanAgrees(cr: Crypto, J: Pairs, n: Node, p: Path, len: nat)
    requires Lists(cr, J, n, p, len) && (n.Branch? || n.Extension?)
    ensures Agree(J, |p| + Fan(n)) && (n.Extension? ==> forall k :: k in J ==> k[|p|..|p| + Fan(n)] == n.path)
  {
    hide LeafBytes;
    var front := if n.Extension? then p + n.path else p;
    forall k | k in J ensures |front| <= |k| && k[..|front|] == front && k[|p|..|front|] == front[|p|..] {
      if n.Extension? {
        assert n.path <= k[|p|..];
        assert k[|p|..][..|n.path|] == k[|p|..|front|];
        assert k[..|front|] == k[..|p|] + k[|p|..|front|];
      }
    }
  }

  lemma ListsChild(cr: Crypto, J: Pairs, n: Node, p: Path, len: nat)
    requires Lists(cr, J, n, p, len) && n.Extension? && |p| + |n.path| <= len
    ensures Lists(cr, J, n.child, p + n.path, len)
  {
    hide LeafBytes;
    var q := p + n.path;
    forall k: Path | |k| == len
      ensures q <= k <==> p <= k && n.path <= k[|p|..]
      ensures q <= k ==> k[|q|..] == k[|p|..][|n.path|..] && Get(n, k[|p|..]) == Get(n.child, k[|q|..]) {
      if p <= k && n.path <= k[|p|..] {
        assert k == p + (n.path + k[|p|..][|n.path|..]);
      }
      if q <= k {
        assert k[|p|..] == n.path + k[|q|..];
      }
    }
  }

  lemma ListsSlot(cr: Crypto, J: Pairs, n: Node, p: Path, len: nat, d: Nibble)
    requires Lists(cr, J, n, p, len) && n.Branch? && |n.children| == 16 && |p| < len
    ensures Lists(cr, Below(J, |p|, d), n.children[d], p + [d], len)
  {
    hide LeafBytes;
    var q := p + [d];
    forall k: Path | |k| == len
      ensures q <= k <==> p <= k && k[|p|] == d
      ensures q <= k ==> Get(n, k[|p|..]) == Get(n.children[d], k[|q|..]) {
      if p <= k && k[|p|] == d {
        assert k == p + ([d] + k[|p| + 1..]);
      }
      if q <= k {
        assert k[|p|..][1..] == k[|q|..];
      }
    }
  }

  /** The reference of what encodes to `c`. */
  function RefOf(cr: Crypto, c: Bytes): Ref {
    if |c| >= 32 then Hash(cr.keccak(c)) else Inline(c)
  }

  lemma CLeaf(cr: Crypto, J: Pairs, i: nat, len: nat, key: Path)
    requires PairsOk(J, i, len) && J.Keys == {key} && |J| == 1
    ensures key in J && i <= |key| && C(cr, J, i, len) == cr.rlpList([cr.rlpString(Hp(key[i..], true)), cr.rlpString(J[key])])
  {
    hide Hp;
    assert key in J.Keys;
    assert AnyKey(J) in J.Keys;
  }

  lemma CExtension(cr: Crypto, J: Pairs, i: nat, len: nat, j: nat, path: Path)
    requires PairsOk(J, i, len) && |J| > 1 && Shared(J, i, len) == j && i < j && forall k :: k in J ==> k[i..j] == path
    ensures J != map[] && PairsOk(J, j, len) && C(cr, J, i, len) == cr.rlpList([cr.rlpString(Hp(path, false)), N(cr, J, j, len)])
  {
    SharedAgrees(J, i, len);
    hide Hp, N, Shared, Agree;
    assert J != map[];
  }

  lemma CBranch(cr: Crypto, J: Pairs, i: nat, len: nat, refs: seq<Bytes>)
    requires PairsOk(J, i, len) && |J| > 1 && Shared(J, i, len) == i && i < len && |refs| == 16
    requires forall d: Nibble :: PairsOk(Below(J, i, d), i + 1, len) && refs[d] == N(cr, Below(J, i, d), i + 1, len)
    ensures J != map[] && C(cr, J, i, len) == cr.rlpList(refs + [cr.rlpString([])])
  {
    hide Hp, N, Shared, Agree, Below, PairsOk;
    assert J != map[];
    var all := seq(16, d requires 0 <= d < 16 => (BelowOk(J, i, len, d); N(cr, Below(J, i, d), i + 1, len)));
    assert refs == all;
  }

  /** The engine's reference of a node is that of c over what the node holds. */
  lemma {:induction false} NodeIsC(cr: Crypto, n: Node, p: Path, len: nat, J: Pairs)
    requires Lists(cr, J, n, p, len) && Canonical(n, len - |p|) && n != Empty
    ensures PairsOk(J, |p|, len) && J != map[] && NodeRef(cr, n) == RefOf(cr, C(cr, J, |p|, len))
    decreases n, 1
  {
    hide Lists, C, N, Agree, Hp, HexPrefix, SlotRefs, LeafBytes, PairsOk, Shared;
    ListsOk(cr, J, n, p, len);
    ListsEmpty(cr, J, n, p, len);
    match n
    case Leaf(path, item) =>
      hide Canonical;
      ListsLeaf(cr, J, n, p, len);
      CLeaf(cr, J, |p|, len, p + path);
      HexPrefixIsHp(path, true);
      assert (p + path)[|p|..] == path;
    case Extension(path, child) =>
      FanIsShared(cr, J, n, p, len);
      ListsChild(cr, J, n, p, len);
      assert len - |p + path| == len - |p| - |path|;
      NodeIsC(cr, child, p + path, len, J);
      CExtension(cr, J, |p|, len, |p| + |path|, path);
      HexPrefixIsHp(path, false);
      EmbedIsN(cr, J, |p| + |path|, len);
    case Branch(children) =>
      FanIsShared(cr, J, n, p, len);
      SlotsAreN(cr, n, p, len, J, 0);
      CBranch(cr, J, |p|, len, SlotRefs(cr, n, 0));
  }

  lemma EmbedIsN(cr: Crypto, J: Pairs, i: nat, len: nat)
    requires PairsOk(J, i, len) && J != map[]
    ensures Embed(cr, RefOf(cr, C(cr, J, i, len))) == N(cr, J, i, len)
  {
    hide C;
  }

  lemma {:induction false} SlotsAreN(cr: Crypto, n: Node, p: Path, len: nat, J: Pairs, i: nat)
    requires n.Branch? && Lists(cr, J, n, p, len) && Canonical(n, len - |p|) && |p| < len && i <= 16 && PairsOk(J, |p|, len)
    ensures |SlotRefs(cr, n, i)| == 16 - i
    ensures forall d: Nibble :: PairsOk(Below(J, |p|, d), |p| + 1, len)
    ensures forall d: Nibble :: i <= d ==> SlotRefs(cr, n, i)[d - i] == N(cr, Below(J, |p|, d), |p| + 1, len)
    decreases n, 0, 16 - i
  {
    hide Lists, C, N, Agree, Below, NodeRef, Embed, PairsOk;
    forall d: Nibble ensures PairsOk(Below(J, |p|, d), |p| + 1, len) { BelowOk(J, |p|, len, d); }
    if i < 16 {
      SlotsAreN(cr, n, p, len, J, i + 1);
      SlotIsN(cr, n, p, len, J, i);
      SlotRefsStep(cr, n, i);
    }
  }

  lemma SlotRefsStep(cr: Crypto, n: Node, i: nat)
    requires n.Branch? && |n.children| == 16 && i < 16
    ensures SlotRefs(cr, n, i) ==
      [if n.children[i] == Empty then cr.rlpString([]) else Embed(cr, NodeRef(cr, n.children[i]))] + SlotRefs(cr, n, i + 1)
  {
    hide NodeRef, Embed;
  }

  lemma {:induction false} SlotIsN(cr: Crypto, n: Node, p: Path, len: nat, J: Pairs, i: Nibble)
    requires n.Branch? && Lists(cr, J, n, p, len) && Canonical(n, len - |p|) && |p| < len
    requires PairsOk(Below(J, |p|, i), |p| + 1, len)
    ensures |n.children| == 16
    ensures N(cr, Below(J, |p|, i), |p| + 1, len) ==
      if n.children[i] == Empty then cr.rlpString([]) else Embed(cr, NodeRef(cr, n.children[i]))
    decreases n, 0, 0
  {
    hide Lists, C, Agree, Below, NodeRef, Embed, PairsOk;
    ListsSlot(cr, J, n, p, len, i);
    var B := Below(J, |p|, i);
    ListsEmpty(cr, B, n.children[i], p + [i], len);
    if n.children[i] != Empty {
      NodeIsC(cr, n.children[i], p + [i], len, B);
      EmbedIsN(cr, B, |p| + 1, len);
    }
  }

  /** The engine's root is the Yellow Paper's root of what the trie holds. */
  lemma RootIsYellowPaper(cr: Crypto, n: Node, len: nat, J: Pairs)
    requires Canonical(n, len) && Lists(cr, J, n, [], len)
    ensures PairsOk(J, 0, len) && Root(cr, n) == TrieHash(cr, J, len)
  {
    hide C, NodeRef, Canonical;
    ListsOk(cr, J, n, [], len);
    ListsEmpty(cr, J, n, [], len);
    if n != Empty {
      NodeIsC(cr, n, [], len, J);
    } else {
      EmptyRoot(cr);
    }
  }

  lemma EmptyRoot(cr: Crypto)
    ensures Root(cr, Empty) == cr.keccak(cr.rlpString([]))
  {
  }

  /** After any history of inserts and deletes, the root is the Yellow Paper's root of the
      final map. */
  lemma HistoryIsYellowPaper(cr: Crypto, ops: seq<TrieOp>, n: Node, len: nat)
    requires Ran(ops, n, len)
    ensures PairsOk(FinalMap(ops), 0, len) && Root(cr, n) == TrieHash(cr, FinalMap(ops), len)
  {
    hide Canonical, Ran, FinalMap, TrieHash, Root;
    RanRepresents(ops, n, len);
    var J := FinalMap(ops);
    forall k: Path ensures [] <= k && k[0..] == k {
    }
    RootIsYellowPaper(cr, n, len, J);
  }
}

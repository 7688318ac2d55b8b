/** Node references and roots: the engine's incremental references against the reference
    builder, which encodes a sorted entry list from scratch (Ethereum Yellow Paper,
    Appendix D).  Keccak, RLP and the account encoding are parameters; the hex-prefix
    encoding of Appendix C is concrete.
 */
module TrieRoot {
  import opened Trie
  import opened TrieLaws
  import opened TrieHistory

  datatype Crypto = Crypto(
    keccak: Bytes -> Bytes,
    rlpString: Bytes -> Bytes,
    rlpList: seq<Bytes> -> Bytes,
    accountRlp: (nat, nat, Bytes, Bytes) -> Bytes
  )

  // ------------------------------------------------------------------ hex prefix

  function PackPairs(p: Path): Bytes {
    if |p| < 2 then [] else [16 * (p[0] as int) + (p[1] as int)] + PackPairs(p[2..])
  }

  function HexPrefix(p: Path, leaf: bool): Bytes {
    var flag: int := if leaf then 2 else 0;
    if |p| % 2 == 1 then [16 * (flag + 1) + (p[0] as int)] + PackPairs(p[1..])
    else [16 * flag] + PackPairs(p)
  }

  lemma {:induction false} PackPairsInjective(p: Path, q: Path)
    requires |p| % 2 == 0 && |q| % 2 == 0 && PackPairs(p) == PackPairs(q)
    ensures p == q
  {
    if p != [] && q != [] {
      assert PackPairs(p)[0] == PackPairs(q)[0];
      assert PackPairs(p)[1..] == PackPairs(p[2..]) && PackPairs(q)[1..] == PackPairs(q[2..]);
      PackPairsInjective(p[2..], q[2..]);
      assert p == [p[0], p[1]] + p[2..] && q == [q[0], q[1]] + q[2..];
    }
  }

  /** No two paths or node kinds share a hex-prefix encoding. */
  lemma HexPrefixInjective(p: Path, q: Path, leafP: bool, leafQ: bool)
    requires HexPrefix(p, leafP) == HexPrefix(q, leafQ)
    ensures p == q && leafP == leafQ
  {
    var a, b := HexPrefix(p, leafP), HexPrefix(q, leafQ);
    assert a[0] == b[0] && a[1..] == b[1..];
    if |p| % 2 == 1 {
      PackPairsInjective(p[1..], q[1..]);
      assert p == [p[0]] + p[1..] && q == [q[0]] + q[1..];
    } else {
      PackPairsInjective(p, q);
    }
  }

  // ------------------------------------------------------------ engine references

  datatype Ref = Hash(hash: Bytes) | Inline(rlp: Bytes)

  /** Inline below 32 bytes, hashed from there on. */
  function MkRef(cr: Crypto, rlp: Bytes): Ref {
    if |rlp| < 32 then Inline(rlp) else Hash(cr.keccak(rlp))
  }

  function Embed(cr: Crypto, r: Ref): Bytes {
    if r.Hash? then cr.rlpString(r.hash) else r.rlp
  }

  function Finalize(cr: Crypto, r: Ref): Bytes {
    if r.Hash? then r.hash else cr.keccak(r.rlp)
  }

  function LeafRlp(cr: Crypto, path: Path, value: Bytes): Bytes {
    cr.rlpList([cr.rlpString(HexPrefix(path, true)), cr.rlpString(value)])
  }

  function ExtensionRlp(cr: Crypto, path: Path, child: Bytes): Bytes {
    cr.rlpList([cr.rlpString(HexPrefix(path, false)), child])
  }

  function NodeRef(cr: Crypto, n: Node): Ref
    decreases n, 17
  {
    match n
    case Empty => Hash(cr.keccak(cr.rlpString([])))
    case Leaf(path, item) => MkRef(cr, LeafRlp(cr, path, LeafBytes(cr, item)))
    case Extension(path, child) => MkRef(cr, ExtensionRlp(cr, path, Embed(cr, NodeRef(cr, child))))
    case Branch(children) => MkRef(cr, cr.rlpList(SlotRefs(cr, n, 0) + [cr.rlpString([])]))
  }

  /** The leaf value: an account folds its storage root into its RLP. */
  function LeafBytes(cr: Crypto, item: Item): Bytes
    decreases item, 18
  {
    match item
    case Value(b) => b
    case Account(nonce, balance, codeHash, storage) =>
      cr.accountRlp(nonce, balance, Finalize(cr, NodeRef(cr, storage)), codeHash)
  }

  function SlotRefs(cr: Crypto, n: Node, i: nat): seq<Bytes>
    requires n.Branch?
    decreases n, 16 - i
  {
    if i >= 16 || i >= |n.children| then []
    else [if n.children[i] == Empty then cr.rlpString([]) else Embed(cr, NodeRef(cr, n.children[i]))] + SlotRefs(cr, n, i + 1)
  }

  function Root(cr: Crypto, n: Node): Bytes {
    Finalize(cr, NodeRef(cr, n))
  }

  // ------------------------------------------------------------ reference builder

  datatype Entry = Entry(key: Path, value: Bytes)

  predicate AllLen(es: seq<Entry>, len: nat) {
    forall i :: 0 <= i < |es| ==> |es[i].key| == len
  }

  function Strip(es: seq<Entry>, c: nat): (r: seq<Entry>)
    ensures |r| == |es|
  {
    if es == [] then []
    else [Entry(if c <= |es[0].key| then es[0].key[c..] else [], es[0].value)] + Strip(es[1..], c)
  }

  /** The entries below nibble `i`, one nibble shorter. */
  function Bucket(es: seq<Entry>, i: Nibble): seq<Entry> {
    if es == [] then []
    else (if es[0].key != [] && es[0].key[0] == i then [Entry(es[0].key[1..], es[0].value)] else []) + Bucket(es[1..], i)
  }

  lemma {:induction false} StripLen(es: seq<Entry>, c: nat, len: nat)
    requires AllLen(es, len) && c <= len
    ensures AllLen(Strip(es, c), len - c)
  {
    if es != [] {
      StripLen(es[1..], c, len);
    }
  }

  lemma {:induction false} BucketLen(es: seq<Entry>, i: Nibble, len: nat)
    requires AllLen(es, len) && 0 < len
    ensures AllLen(Bucket(es, i), len - 1)
  {
    if es != [] {
      BucketLen(es[1..], i, len);
    }
  }

  /** RLP of the node spanning sorted, distinct entries of one key length. */
  function EncodeNode(cr: Crypto, es: seq<Entry>, len: nat): Bytes
    requires es != [] && AllLen(es, len)
    decreases len, 17
  {
    if |es| == 1 || len == 0 then LeafRlp(cr, es[0].key, es[0].value)
    else
      var c := CommonPrefix(es[0].key, es[|es| - 1].key);
      if c > 0 then
        StripLen(es, c, len);
        ExtensionRlp(cr, es[0].key[..c], Embed(cr, MkRef(cr, EncodeNode(cr, Strip(es, c), len - c))))
      else
        cr.rlpList(EncodeSlots(cr, es, len, 0) + [cr.rlpString([])])
  }

  function EncodeSlots(cr: Crypto, es: seq<Entry>, len: nat, i: nat): seq<Bytes>
    requires AllLen(es, len) && 0 < len
    decreases len, 16 - i
  {
    if i >= 16 then []
    else
      var b := Bucket(es, i);
      BucketLen(es, i, len);
      [if b == [] then cr.rlpString([]) else Embed(cr, MkRef(cr, EncodeNode(cr, b, len - 1)))]
      + EncodeSlots(cr, es, len, i + 1)
  }

  function ReferenceRoot(cr: Crypto, es: seq<Entry>, len: nat): Bytes
    requires AllLen(es, len)
  {
    if es == [] then cr.keccak([0x80]) else cr.keccak(EncodeNode(cr, es, len))
  }

  // ------------------------------------------------------------- in-order entries

  function Under(p: Path, es: seq<Entry>): (r: seq<Entry>)
    ensures |r| == |es|
    ensures forall i :: 0 <= i < |es| ==> r[i] == Entry(p + es[i].key, es[i].value)
  {
    if es == [] then [] else [Entry(p + es[0].key, es[0].value)] + Under(p, es[1..])
  }

  function Entries(cr: Crypto, n: Node): seq<Entry>
    decreases n, 17
  {
    match n
    case Empty => []
    case Leaf(path, item) => [Entry(path, LeafBytes(cr, item))]
    case Extension(path, child) => Under(path, Entries(cr, child))
    case Branch(_) => EntriesFrom(cr, n, 0)
  }

  function EntriesFrom(cr: Crypto, n: Node, i: nat): seq<Entry>
    requires n.Branch?
    decreases n, 16 - i
  {
    if i >= 16 || i >= |n.children| then []
    else Under([i], Entries(cr, n.children[i])) + EntriesFrom(cr, n, i + 1)
  }

  lemma {:induction false} EntriesLen(cr: Crypto, n: Node, len: nat)
    requires Canonical(n, len)
    ensures AllLen(Entries(cr, n), len) && (n != Empty ==> Entries(cr, n) != [])
    decreases n, 17
  {
    match n
    case Empty =>
    case Leaf(_, _) =>
    case Extension(path, child) => EntriesLen(cr, child, len - |path|);
    case Branch(children) =>
      var i, j := TwoSlots(children);
      EntriesFromLen(cr, n, len, 0);
  }

  lemma {:induction false} EntriesFromLen(cr: Crypto, n: Node, len: nat, i: nat)
    requires n.Branch? && Canonical(n, len)
    ensures AllLen(EntriesFrom(cr, n, i), len)
    ensures (exists j :: i <= j < 16 && n.children[j] != Empty) ==> EntriesFrom(cr, n, i) != []
    decreases n, 16 - i
  {
    if i < 16 {
      EntriesLen(cr, n.children[i], len - 1);
      EntriesFromLen(cr, n, len, i + 1);
    }
  }

  lemma BranchEntries(cr: Crypto, n: Node)
    requires n.Branch?
    ensures Entries(cr, n) == EntriesFrom(cr, n, 0)
  {
  }

  lemma EntriesOfEmpty(cr: Crypto)
    ensures Entries(cr, Empty) == []
  {
  }

  /** First and last nibble of the entries of a run of slots. */
  lemma {:induction false} EntriesFromEnds(cr: Crypto, n: Node, len: nat, i: nat)
    requires n.Branch? && Canonical(n, len) && EntriesFrom(cr, n, i) != []
    ensures var es := EntriesFrom(cr, n, i);
      && AllLen(es, len)
      && i <= es[0].key[0] <= es[|es| - 1].key[0]
      && n.children[es[0].key[0]] != Empty && n.children[es[|es| - 1].key[0]] != Empty
      && (forall j :: i <= j < es[0].key[0] ==> n.children[j] == Empty)
      && (forall j :: es[|es| - 1].key[0] < j < 16 ==> n.children[j] == Empty)
    decreases 16 - i
  {
    hide Canonical, Entries, Under;
    BranchShape(n.children, len);
    EntriesFromLen(cr, n, len, i);
    EntriesFromLen(cr, n, len, i + 1);
    EntriesLen(cr, n.children[i], len - 1);
    assert n.children[i] == Empty ==> Entries(cr, n.children[i]) == [] by { EntriesOfEmpty(cr); }
    var here, rest := Under([i], Entries(cr, n.children[i])), EntriesFrom(cr, n, i + 1);
    var es := here + rest;
    if rest != [] {
      EntriesFromEnds(cr, n, len, i + 1);
      assert es[|es| - 1] == rest[|rest| - 1];
      if here == [] {
        assert es == rest;
      }
    } else {
      assert es == here;
    }
  }

  // --------------------------------------------------------- buckets of the entries

  lemma {:induction false} BucketConcat(a: seq<Entry>, b: seq<Entry>, i: Nibble)
    ensures Bucket(a + b, i) == Bucket(a, i) + Bucket(b, i)
  {
    if a == [] {
      assert a + b == b;
    } else {
      BucketConcat(a[1..], b, i);
      assert (a + b)[1..] == a[1..] + b;
    }
  }

  lemma {:induction false} BucketUnder(es: seq<Entry>, i: Nibble, j: Nibble)
    ensures Bucket(Under([j], es), i) == if i == j then es else []
  {
    if es != [] {
      BucketUnder(es[1..], i, j);
      var u := Under([j], es);
      assert u[1..] == Under([j], es[1..]);
      assert u[0].key[1..] == es[0].key;
      assert es == [es[0]] + es[1..];
    }
  }

  lemma {:induction false} BucketEntries(cr: Crypto, n: Node, i: nat, j: Nibble)
    requires n.Branch? && |n.children| == 16
    ensures Bucket(EntriesFrom(cr, n, i), j) == if i <= j then Entries(cr, n.children[j]) else []
    decreases 16 - i
  {
    if i < 16 {
      var here, rest := Under([i], Entries(cr, n.children[i])), EntriesFrom(cr, n, i + 1);
      BucketConcat(here, rest, j);
      BucketUnder(Entries(cr, n.children[i]), j, i);
      BucketEntries(cr, n, i + 1, j);
    }
  }

  lemma {:induction false} StripUnder(p: Path, es: seq<Entry>)
    ensures Strip(Under(p, es), |p|) == es
  {
    if es != [] {
      StripUnder(p, es[1..]);
      var u := Under(p, es);
      assert u[1..] == Under(p, es[1..]);
      assert u[0].key[|p|..] == es[0].key;
      assert es == [es[0]] + es[1..];
    }
  }

  lemma {:induction false} CommonPrefixUnder(p: Path, a: Path, b: Path)
    ensures CommonPrefix(p + a, p + b) == |p| + CommonPrefix(a, b)
  {
    if p == [] {
      assert p + a == a && p + b == b;
    } else {
      CommonPrefixUnder(p[1..], a, b);
      assert (p + a)[1..] == p[1..] + a && (p + b)[1..] == p[1..] + b;
    }
  }

  // ------------------------------------------------------------- the two agree

  lemma {:induction false} ManyEntries(cr: Crypto, n: Node, len: nat)
    requires n.Branch? && Canonical(n, len)
    ensures var es := Entries(cr, n);
      |es| >= 2 && AllLen(es, len) && 0 < len && CommonPrefix(es[0].key, es[|es| - 1].key) == 0
  {
    var i, j := TwoSlots(n.children);
    EntriesFromLen(cr, n, len, 0);
    EntriesFromEnds(cr, n, len, 0);
  }

  /** The engine's reference of a canonical trie is the reference of what the builder
      encodes from the trie's entries. */
  lemma {:induction false} NodeRefIsReference(cr: Crypto, n: Node, len: nat)
    requires Canonical(n, len) && n != Empty
    ensures Entries(cr, n) != [] && AllLen(Entries(cr, n), len)
    ensures NodeRef(cr, n) == MkRef(cr, EncodeNode(cr, Entries(cr, n), len))
    decreases n, 17
  {
    hide Canonical, EncodeNode, EncodeSlots, SlotRefs, MkRef, Embed, ExtensionRlp, LeafRlp, CommonPrefix;
    EntriesLen(cr, n, len);
    match n
    case Leaf(path, item) =>
      LeafEncodes(cr, path, LeafBytes(cr, item), len);
    case Extension(path, child) =>
      ExtensionShape(path, child, len);
      NodeRefIsReference(cr, child, len - |path|);
      ManyEntries(cr, child, len - |path|);
      ExtensionEncodes(cr, path, child, len);
    case Branch(children) =>
      ManyEntries(cr, n, len);
      SlotsAgree(cr, n, len, 0);
      BranchEncodes(cr, n, len);
  }

  lemma LeafEncodes(cr: Crypto, path: Path, value: Bytes, len: nat)
    requires AllLen([Entry(path, value)], len)
    ensures EncodeNode(cr, [Entry(path, value)], len) == LeafRlp(cr, path, value)
  {
  }

  lemma BranchEncodes(cr: Crypto, n: Node, len: nat)
    requires n.Branch?
    requires var es := Entries(cr, n); |es| >= 2 && AllLen(es, len) && 0 < len && CommonPrefix(es[0].key, es[|es| - 1].key) == 0
    requires SlotRefs(cr, n, 0) == EncodeSlots(cr, Entries(cr, n), len, 0)
    ensures NodeRef(cr, n) == MkRef(cr, EncodeNode(cr, Entries(cr, n), len))
  {
    hide Entries, EncodeSlots, SlotRefs, MkRef, CommonPrefix, Embed;
  }

  lemma ExtensionEncodes(cr: Crypto, path: Path, child: Node, len: nat)
    requires Canonical(Extension(path, child), len) && AllLen(Under(path, Entries(cr, child)), len)
    requires var es := Entries(cr, child); |es| >= 2 && AllLen(es, len - |path|) && CommonPrefix(es[0].key, es[|es| - 1].key) == 0
    ensures EncodeNode(cr, Under(path, Entries(cr, child)), len) ==
      ExtensionRlp(cr, path, Embed(cr, MkRef(cr, EncodeNode(cr, Entries(cr, child), len - |path|))))
  {
    hide Canonical, Entries, CommonPrefix, EncodeSlots, MkRef, Embed, ExtensionRlp, LeafRlp, Under, Strip;
    ExtensionShape(path, child, len);
    var es := Entries(cr, child);
    var u := Under(path, es);
    CommonPrefixUnder(path, es[0].key, es[|es| - 1].key);
    StripUnder(path, es);
    assert u[0].key[..|path|] == path;
  }

  lemma {:induction false} SlotsAgree(cr: Crypto, n: Node, len: nat, i: nat)
    requires n.Branch? && Canonical(n, len) && AllLen(Entries(cr, n), len) && 0 < len
    ensures SlotRefs(cr, n, i) == EncodeSlots(cr, Entries(cr, n), len, i)
    decreases n, 16 - i
  {
    hide Canonical, EncodeNode, NodeRef, MkRef, Embed, Bucket, Entries;
    BranchShape(n.children, len);
    if i < 16 {
      BranchEntries(cr, n);
      BucketEntries(cr, n, 0, i);
      BucketLen(Entries(cr, n), i, len);
      EntriesOfEmpty(cr);
      if n.children[i] != Empty {
        NodeRefIsReference(cr, n.children[i], len - 1);
      }
      SlotsAgree(cr, n, len, i + 1);
    }
  }

  // ----------------------------------------------------- sorted lists and contents

  predicate Less(a: Path, b: Path) {
    a != [] && b != [] && (a[0] < b[0] || (a[0] == b[0] && Less(a[1..], b[1..])))
  }

  ghost predicate Sorted(es: seq<Entry>) {
    forall i, j :: 0 <= i < j < |es| ==> Less(es[i].key, es[j].key)
  }

  lemma {:induction false} LessIrreflexive(a: Path, b: Path)
    ensures !(Less(a, b) && Less(b, a)) && !Less(a, a)
  {
    if a != [] && b != [] {
      LessIrreflexive(a[1..], b[1..]);
    } else if a != [] {
      LessIrreflexive(a[1..], a[1..]);
    }
  }

  lemma {:induction false} LessUnder(p: Path, a: Path, b: Path)
    requires Less(a, b)
    ensures Less(p + a, p + b)
  {
    if p == [] {
      assert p + a == a && p + b == b;
    } else {
      LessUnder(p[1..], a, b);
      assert (p + a)[1..] == p[1..] + a && (p + b)[1..] == p[1..] + b;
    }
  }

  lemma SortedUnder(p: Path, es: seq<Entry>)
    requires Sorted(es)
    ensures Sorted(Under(p, es))
  {
    var u := Under(p, es);
    forall i, j | 0 <= i < j < |u| ensures Less(u[i].key, u[j].key) {
      LessUnder(p, es[i].key, es[j].key);
    }
  }

  lemma {:induction false} EntriesSorted(cr: Crypto, n: Node, len: nat)
    requires Canonical(n, len)
    ensures Sorted(Entries(cr, n))
    decreases n, 17
  {
    match n
    case Empty =>
    case Leaf(_, _) =>
    case Extension(path, child) =>
      EntriesSorted(cr, child, len - |path|);
      SortedUnder(path, Entries(cr, child));
    case Branch(_) => EntriesFromSorted(cr, n, len, 0);
  }

  lemma {:induction false} EntriesFromSorted(cr: Crypto, n: Node, len: nat, i: nat)
    requires n.Branch? && Canonical(n, len)
    ensures Sorted(EntriesFrom(cr, n, i)) && AllLen(EntriesFrom(cr, n, i), len)
    ensures forall k :: 0 <= k < |EntriesFrom(cr, n, i)| ==> i <= EntriesFrom(cr, n, i)[k].key[0]
    decreases n, 16 - i
  {
    EntriesFromLen(cr, n, len, i);
    if i < 16 {
      EntriesSorted(cr, n.children[i], len - 1);
      SortedUnder([i], Entries(cr, n.children[i]));
      EntriesFromSorted(cr, n, len, i + 1);
    }
  }

  /** Strictly sorted lists with the same members are equal. */
  lemma {:induction false} SortedUnique(es: seq<Entry>, fs: seq<Entry>)
    requires Sorted(es) && Sorted(fs) && forall e :: e in es <==> e in fs
    ensures es == fs
  {
    assert (es != [] ==> es[0] in es) && (fs != [] ==> fs[0] in fs);
    if es != [] && fs != [] {
      SortedHead(es, fs);
      SortedHead(fs, es);
      LessIrreflexive(es[0].key, fs[0].key);
      forall e ensures e in es[1..] <==> e in fs[1..] {
        TailMember(es, e);
        TailMember(fs, e);
      }
      SortedUnique(es[1..], fs[1..]);
      assert es == [es[0]] + es[1..] && fs == [fs[0]] + fs[1..];
    }
  }

  lemma SortedHead(es: seq<Entry>, fs: seq<Entry>)
    requires es != [] && fs != [] && Sorted(fs) && forall e :: e in es ==> e in fs
    ensures es[0] == fs[0] || Less(fs[0].key, es[0].key)
  {
    assert es[0] in fs;
    var i :| 0 <= i < |fs| && fs[i] == es[0];
  }

  lemma TailMember(es: seq<Entry>, e: Entry)
    requires es != [] && Sorted(es)
    ensures e in es[1..] <==> e in es && e != es[0]
  {
    assert es == [es[0]] + es[1..];
    if e in es[1..] {
      var i :| 0 <= i < |es| - 1 && es[1..][i] == e;
      assert Less(es[0].key, es[i + 1].key);
      LessIrreflexive(es[0].key, es[0].key);
    }
  }

  // ------------------------------------------------------------- entries = lookups

  ghost predicate Holds(cr: Crypto, n: Node, e: Entry) {
    Get(n, e.key).Some? && LeafBytes(cr, Get(n, e.key).value) == e.value
  }

  lemma {:induction false} EntriesAreLookups(cr: Crypto, n: Node, len: nat, e: Entry)
    requires Canonical(n, len) && |e.key| == len
    ensures e in Entries(cr, n) <==> Holds(cr, n, e)
    decreases n, 17
  {
    match n
    case Empty =>
    case Leaf(_, _) =>
    case Extension(path, child) =>
      UnderMember(path, Entries(cr, child), e);
      if path <= e.key {
        EntriesAreLookups(cr, child, len - |path|, Entry(e.key[|path|..], e.value));
      }
    case Branch(children) =>
      EntriesFromAreLookups(cr, n, len, e, 0);
  }

  lemma UnderMember(p: Path, es: seq<Entry>, e: Entry)
    ensures e in Under(p, es) <==> p <= e.key && Entry(e.key[|p|..], e.value) in es
  {
    var u := Under(p, es);
    if e in u {
      var i :| 0 <= i < |u| && u[i] == e;
      assert e.key[|p|..] == es[i].key;
    }
    if p <= e.key && Entry(e.key[|p|..], e.value) in es {
      var i :| 0 <= i < |es| && es[i] == Entry(e.key[|p|..], e.value);
      assert p + e.key[|p|..] == e.key;
      assert u[i] == e;
    }
  }

  lemma {:induction false} EntriesFromAreLookups(cr: Crypto, n: Node, len: nat, e: Entry, i: nat)
    requires n.Branch? && Canonical(n, len) && |e.key| == len
    ensures e in EntriesFrom(cr, n, i) <==> i <= e.key[0] && Holds(cr, n, e)
    decreases n, 16 - i
  {
    if i < 16 {
      UnderMember([i], Entries(cr, n.children[i]), e);
      assert [i] <= e.key <==> e.key[0] == i;
      if e.key[0] == i {
        EntriesAreLookups(cr, n.children[i], len - 1, Entry(e.key[1..], e.value));
      }
      EntriesFromAreLookups(cr, n, len, e, i + 1);
    }
  }

  /** The root the engine maintains is the root the reference builder computes from any
      sorted list of exactly the stored keys and leaf values. */
  lemma RootIsReference(cr: Crypto, n: Node, es: seq<Entry>, len: nat)
    requires Canonical(n, len) && cr.rlpString([]) == [0x80]
    requires Sorted(es) && AllLen(es, len) && forall e: Entry :: |e.key| == len ==> (e in es <==> Holds(cr, n, e))
    ensures Root(cr, n) == ReferenceRoot(cr, es, len)
  {
    hide Canonical, EncodeNode, NodeRef;
    EntriesSorted(cr, n, len);
    EntriesLen(cr, n, len);
    forall e ensures e in es <==> e in Entries(cr, n) {
      if |e.key| == len {
        EntriesAreLookups(cr, n, len, e);
      }
    }
    SortedUnique(es, Entries(cr, n));
    RootOfEntries(cr, n, len);
  }

  lemma RootOfEntries(cr: Crypto, n: Node, len: nat)
    requires Canonical(n, len) && cr.rlpString([]) == [0x80] && AllLen(Entries(cr, n), len)
    ensures Root(cr, n) == ReferenceRoot(cr, Entries(cr, n), len)
  {
    hide EncodeNode, Canonical;
    if n != Empty {
      NodeRefIsReference(cr, n, len);
    }
  }

  // --------------------------------------------------------------------- histories

  datatype TrieOp = Put(key: Path, bytes: Bytes) | Remove(key: Path)

  /** What the trie does with one operation, and the same on a finite map. */
  ghost function Apply(n: Node, op: TrieOp): Node
    requires Canonical(n, |op.key|)
  {
    match op
    case Put(key, bytes) =>
      var r := Insert(n, key, SetValue(bytes));
      if r.Ok? then r.value else n
    case Remove(key) =>
      var r := Delete(n, key, DeleteValue);
      if r.Err? || r.value.Absent? then n else if r.value.Removed? then Empty else r.value.now
  }

  /** The operation reports no error. */
  ghost predicate Works(n: Node, op: TrieOp)
    requires Canonical(n, |op.key|)
  {
    match op
    case Put(key, bytes) => Insert(n, key, SetValue(bytes)).Ok?
    case Remove(key) => Delete(n, key, DeleteValue).Ok?
  }

  function ApplyMap(m: map<Path, Bytes>, op: TrieOp): map<Path, Bytes> {
    match op
    case Put(key, bytes) => m[key := bytes]
    case Remove(key) => m - {key}
  }

  ghost predicate Represents(n: Node, m: map<Path, Bytes>, len: nat) {
    && Canonical(n, len)
    && (forall k: Path :: |k| == len ==> Get(n, k) == if k in m then Some(Value(m[k])) else None)
    && (forall k :: k in m ==> |k| == len)
  }

  lemma ApplyRepresents(n: Node, m: map<Path, Bytes>, op: TrieOp)
    requires Represents(n, m, |op.key|)
    ensures Works(n, op) && Represents(Apply(n, op), ApplyMap(m, op), |op.key|)
  {
    hide Canonical, Insert, Delete, Resolve, ApplyDelete;
    match op
    case Put(key, bytes) =>
      InsertSpec(n, key, SetValue(bytes));
      assert Resolve(Get(n, key), SetValue(bytes)) == Ok(Value(bytes)) by { PutResolves(Get(n, key), bytes); }
    case Remove(key) =>
      DeleteSpec(n, key, DeleteValue);
      if Get(n, key).Some? {
        RemoveApplies(Get(n, key).value);
        EmptyCanonical(|key|);
      }
  }

  lemma PutResolves(o: Option<Item>, bytes: Bytes)
    requires o.None? || o.value.Value?
    ensures ItemOk(o) && Resolve(o, SetValue(bytes)) == Ok(Value(bytes))
  {
  }

  lemma RemoveApplies(item: Item)
    requires item.Value?
    ensures ApplyDelete(item, DeleteValue) == Ok(Removed)
  {
  }

  /** `n` results from running the operations, all on keys of one length, from Empty. */
  ghost predicate Ran(ops: seq<TrieOp>, n: Node, len: nat)
    decreases |ops|
  {
    if ops == [] then n == Empty
    else
      var op := ops[|ops| - 1];
      |op.key| == len && exists p :: Canonical(p, len) && Ran(ops[..|ops| - 1], p, len) && Works(p, op) && n == Apply(p, op)
  }

  /** Every history of puts and removes of keys of one length runs without an error. */
  lemma {:induction false} RunExists(ops: seq<TrieOp>, len: nat) returns (n: Node)
    requires forall i :: 0 <= i < |ops| ==> |ops[i].key| == len
    ensures Ran(ops, n, len)
    decreases |ops|
  {
    hide Canonical, Apply, Works;
    n := Empty;
    if ops != [] {
      var op := ops[|ops| - 1];
      var p := RunExists(ops[..|ops| - 1], len);
      RanRepresents(ops[..|ops| - 1], p, len);
      ApplyRepresents(p, FinalMap(ops[..|ops| - 1]), op);
      n := Apply(p, op);
    }
  }

  function FinalMap(ops: seq<TrieOp>): map<Path, Bytes> {
    if ops == [] then map[] else ApplyMap(FinalMap(ops[..|ops| - 1]), ops[|ops| - 1])
  }

  lemma {:induction false} RanRepresents(ops: seq<TrieOp>, n: Node, len: nat)
    requires Ran(ops, n, len)
    ensures Represents(n, FinalMap(ops), len)
    decreases |ops|
  {
    hide Canonical, Apply, Works;
    if ops == [] {
      EmptyCanonical(len);
    } else {
      var op := ops[|ops| - 1];
      var p :| Canonical(p, len) && Ran(ops[..|ops| - 1], p, len) && Works(p, op) && n == Apply(p, op);
      RanRepresents(ops[..|ops| - 1], p, len);
      ApplyRepresents(p, FinalMap(ops[..|ops| - 1]), op);
    }
  }

  /** History independence: histories with the same final contents end in the same trie. */
  lemma HistoryIndependent(ops: seq<TrieOp>, ops': seq<TrieOp>, n: Node, n': Node, len: nat)
    requires Ran(ops, n, len) && Ran(ops', n', len) && FinalMap(ops) == FinalMap(ops')
    ensures n == n'
  {
    hide Canonical, Ran, FinalMap;
    RanRepresents(ops, n, len);
    RanRepresents(ops', n', len);
    CanonicalIsUnique(n, n', len);
  }

  /** After any history, the engine's root is the reference root of the final map. */
  lemma HistoryRoot(cr: Crypto, ops: seq<TrieOp>, n: Node, es: seq<Entry>, len: nat)
    requires Ran(ops, n, len) && cr.rlpString([]) == [0x80]
    requires Sorted(es) && AllLen(es, len)
    requires forall e :: e in es <==> e.key in FinalMap(ops) && FinalMap(ops)[e.key] == e.value
    ensures Root(cr, n) == ReferenceRoot(cr, es, len)
  {
    hide Canonical, Ran, FinalMap, EncodeNode, NodeRef;
    RanRepresents(ops, n, len);
    forall e: Entry | |e.key| == len ensures e in es <==> Holds(cr, n, e) {
    }
    RootIsReference(cr, n, es, len);
  }
}

/** Round trips of the record codec: the eager reader returns what was written, the lazy
    reader agrees with it once every raw slice is expanded, and what it returns is
    written back as the same bytes.
 */
module CodecLaws {
  import opened Trie
  import opened CursorOrder
  import opened Codec

  /** `b` lies in the buffer at `pos`. */
  ghost predicate At(buf: Bytes, pos: nat, b: Bytes) {
    pos + |b| <= |buf| && buf[pos..pos + |b|] == b
  }

  lemma AtSplit(buf: Bytes, pos: nat, a: Bytes, b: Bytes)
    requires At(buf, pos, a + b)
    ensures At(buf, pos, a) && At(buf, pos + |a|, b)
  {
    var cut := buf[pos..pos + |a + b|];
    assert buf[pos..pos + |a|] == cut[..|a|];
    assert buf[pos + |a|..pos + |a| + |b|] == cut[|a|..];
  }

  lemma AtSplit4(buf: Bytes, pos: nat, a: Bytes, b: Bytes, c: Bytes, d: Bytes)
    requires At(buf, pos, a + (b + (c + d)))
    ensures At(buf, pos, a) && At(buf, pos + |a|, b) && At(buf, pos + |a| + |b|, c) && At(buf, pos + |a| + |b| + |c|, d)
  {
    hide At;
    AtSplit(buf, pos, a, b + (c + d));
    AtSplit(buf, pos + |a|, b, c + d);
    AtSplit(buf, pos + |a| + |b|, c, d);
  }

  lemma TakeAt(buf: Bytes, pos: nat, b: Bytes)
    requires At(buf, pos, b)
    ensures Take(buf, pos, |b|) == Parsed(Read(b, pos + |b|))
  {
  }

  lemma TagAt(buf: Bytes, pos: nat, tag: Byte)
    requires At(buf, pos, [tag])
    ensures TakeLe(buf, pos, 1) == Parsed(Read(tag, pos + 1)) && buf[pos] == tag
  {
    assert buf[pos..pos + 1] == [tag];
    assert [tag][1..] == [] && FromLe([]) == 0;
    assert FromLe([tag]) == (tag as int) + 256 * FromLe([tag][1..]);
  }

  lemma TakeLeAt(buf: Bytes, pos: nat, n: nat, k: nat)
    requires n < Pow(256, k) && At(buf, pos, Le(n, k))
    ensures TakeLe(buf, pos, k) == Parsed(Read(n, pos + k))
  {
    LeRoundTrip(n, k);
  }

  lemma Pows()
    ensures Pow(256, 1) == 256 && Pow(256, 2) == 65536 && Pow(256, 4) == U32 && Pow(2, 16) == 65536
  {
    assert Pow(256, 0) == 1 && Pow(256, 3) == 16777216;
    assert Pow(2, 4) == 16;
    assert Pow(2, 8) == 256;
    assert Pow(2, 12) == 4096;
  }

  /** A written path is read back, exactly if it has at most 128 nibbles. */
  lemma PathAt(buf: Bytes, pos: nat, p: Path)
    requires |p| < 256 && At(buf, pos, EncodePath(p))
    ensures |p| <= MAX_PATH ==> TakePath(buf, pos) == Parsed(Read(p, pos + |EncodePath(p)|))
    ensures |p| > MAX_PATH ==> TakePath(buf, pos) == Broken
  {
    hide PackNibbles, UnpackNibbles, Le, FromLe;
    Pows();
    AtSplit(buf, pos, Le(|p|, 1), PackNibbles(p));
    TakeLeAt(buf, pos, |p|, 1);
    TakeAt(buf, pos + 1, PackNibbles(p));
    NibblesRoundTrip(p);
  }

  lemma RefAt(buf: Bytes, pos: nat, r: NRef)
    requires RefOk(r) && At(buf, pos, EncodeRef(r))
    ensures TakeRef(buf, pos) == Parsed(Read(r, pos + |EncodeRef(r)|))
  {
    hide Le, FromLe;
    match r
    case HashRef(hash) =>
      AtSplit(buf, pos, [0], hash);
      TagAt(buf, pos, 0);
      TakeAt(buf, pos + 1, hash);
    case InlineRef(rlp) =>
      Pows();
      AtSplit(buf, pos, [1], Le(|rlp|, 1) + rlp);
      AtSplit(buf, pos + 1, Le(|rlp|, 1), rlp);
      TagAt(buf, pos, 1);
      TakeLeAt(buf, pos + 1, |rlp|, 1);
      TakeAt(buf, pos + 2, rlp);
  }

  lemma LeafParts(buf: Bytes, pos: nat, path: Path, value: Bytes, nref: NRef)
    requires |path| <= MAX_PATH && |value| < U32 && RefOk(nref)
    requires At(buf, pos, EncodePath(path) + (Le(|value|, 4) + (value + EncodeRef(nref))))
    ensures var p := pos + |EncodePath(path)|; var q := p + 4;
      && TakePath(buf, pos) == Parsed(Read(path, p)) && TakeLe(buf, p, 4) == Parsed(Read(|value|, q))
      && Take(buf, q, |value|) == Parsed(Read(value, q + |value|))
      && TakeRef(buf, q + |value|) == Parsed(Read(nref, q + |value| + |EncodeRef(nref)|))
  {
    hide At, Le, FromLe, EncodePath, EncodeRef, TakePath, TakeRef, TakeLe, Take, TakeLeaf, RefOk;
    Pows();
    var p, q := pos + |EncodePath(path)|, pos + |EncodePath(path)| + 4;
    AtSplit4(buf, pos, EncodePath(path), Le(|value|, 4), value, EncodeRef(nref));
    PathAt(buf, pos, path);
    TakeLeAt(buf, p, |value|, 4);
    TakeAt(buf, q, value);
    RefAt(buf, q + |value|, nref);
  }

  lemma LeafAt(buf: Bytes, pos: nat, path: Path, value: Bytes, nref: NRef)
    requires |path| <= MAX_PATH && |value| < U32 && RefOk(nref)
    requires At(buf, pos, EncodePath(path) + (Le(|value|, 4) + (value + EncodeRef(nref))))
    ensures TakeLeaf(buf, pos) == Parsed(Read(CLeaf(path, value, nref), pos + |EncodePath(path)| + 4 + |value| + |EncodeRef(nref)|))
  {
    hide At, Le, FromLe, EncodePath, EncodeRef, TakePath, TakeRef, TakeLe, Take;
    LeafParts(buf, pos, path, value, nref);
  }

  lemma OverflowAt(buf: Bytes, pos: nat, unit: nat, len: nat, root: Bytes)
    requires unit < U32 && len < U32 && |root| == 32 && At(buf, pos, Le(unit, 4) + (Le(len, 4) + root))
    ensures TakeOverflow(buf, pos) == Parsed(Read(COverflow(unit, len, root), pos + 40))
  {
    hide At, Le, FromLe, TakeLe, Take;
    Pows();
    AtSplit(buf, pos, Le(unit, 4), Le(len, 4) + root);
    AtSplit(buf, pos + 4, Le(len, 4), root);
    TakeLeAt(buf, pos, unit, 4);
    TakeLeAt(buf, pos + 4, len, 4);
    TakeAt(buf, pos + 8, root);
  }

  lemma AccountHeadAt(buf: Bytes, pos: nat, path: Path, nonce: nat, balance: nat, codeHash: Bytes, rest: Bytes)
    requires |path| <= MAX_PATH && nonce < Pow(256, 8) && balance < Pow(256, 32) && |codeHash| == 32
    requires At(buf, pos, EncodePath(path) + (Le(nonce, 8) + (Be(balance, 32) + (codeHash + rest))))
    ensures TakeAccountHead(buf, pos) == Parsed(Read(AccountHead(path, nonce, balance, codeHash), pos + |EncodePath(path)| + 72))
    ensures At(buf, pos + |EncodePath(path)| + 72, rest)
  {
    hide At, Le, Be, FromLe, EncodePath, TakePath, TakeLe, Take, Val, Pow;
    var p := pos + |EncodePath(path)|;
    AtSplit(buf, pos, EncodePath(path), Le(nonce, 8) + (Be(balance, 32) + (codeHash + rest)));
    AtSplit(buf, p, Le(nonce, 8), Be(balance, 32) + (codeHash + rest));
    AtSplit(buf, p + 8, Be(balance, 32), codeHash + rest);
    AtSplit(buf, p + 40, codeHash, rest);
    PathAt(buf, pos, path);
    TakeLeAt(buf, p, nonce, 8);
    TakeAt(buf, p + 8, Be(balance, 32));
    BeRoundTrip(balance, 32);
    TakeAt(buf, p + 40, codeHash);
  }

  lemma ExtensionAt(buf: Bytes, pos: nat, path: Path, nref: NRef, rest: Bytes)
    requires |path| <= MAX_PATH && RefOk(nref) && At(buf, pos, EncodePath(path) + (EncodeRef(nref) + rest))
    ensures var p := pos + |EncodePath(path)|;
      && TakePath(buf, pos) == Parsed(Read(path, p)) && TakeRef(buf, p) == Parsed(Read(nref, p + |EncodeRef(nref)|))
      && At(buf, p + |EncodeRef(nref)|, rest)
  {
    hide At, EncodePath, EncodeRef, TakePath, TakeRef;
    var p := pos + |EncodePath(path)|;
    AtSplit(buf, pos, EncodePath(path), EncodeRef(nref) + rest);
    AtSplit(buf, p, EncodeRef(nref), rest);
    PathAt(buf, pos, path);
    RefAt(buf, p, nref);
  }

  lemma BranchAt(buf: Bytes, pos: nat, children: seq<CNode>, nref: NRef)
    requires |children| == 16 && RefOk(nref)
    requires At(buf, pos, Le(Bitmap(children), 2) + (EncodeRef(nref) + (Table(children) + Kids(children))))
    ensures var p := pos + 2 + |EncodeRef(nref)|;
      && TakeLe(buf, pos, 2) == Parsed(Read(Bitmap(children), pos + 2))
      && TakeRef(buf, pos + 2) == Parsed(Read(nref, p))
      && At(buf, p, Table(children)) && At(buf, p + |Table(children)|, Kids(children))
      && |Table(children)| == Ones(Bitmap(children), 16) * 4
  {
    hide At, Le, FromLe, EncodeRef, TakeRef, TakeLe, Table, Kids, Bitmap, Ones;
    Pows();
    var p := pos + 2 + |EncodeRef(nref)|;
    AtSplit(buf, pos, Le(Bitmap(children), 2), EncodeRef(nref) + (Table(children) + Kids(children)));
    AtSplit(buf, pos + 2, EncodeRef(nref), Table(children) + Kids(children));
    AtSplit(buf, p, Table(children), Kids(children));
    TakeLeAt(buf, pos, Bitmap(children), 2);
    RefAt(buf, pos + 2, nref);
    BitmapOnes(children);
  }

  // ---------------------------------------------------------------------- eager

  ghost predicate AllStorable(children: seq<CNode>) {
    forall i :: 0 <= i < |children| ==> Storable(children[i]) && |Encode(children[i])| < U32
  }

  lemma EncodeTag(n: CNode)
    requires Storable(n)
    ensures |Encode(n)| > 0
    ensures Encode(n)[0] == (match n case CEmpty => 0 case CLeaf(_, _, _) => 1 case CExtension(_, _, _) => 2
                             case CBranch(_, _) => 3 case COverflow(_, _, _) => 4 case _ => 5)
    ensures At(Encode(n), 0, [Encode(n)[0]])
  {
  }

  /** The eager reader returns exactly the node that was written, and stops right behind it. */
  lemma {:induction false} ReadsBack(n: CNode, buf: Bytes, pos: nat)
    requires Storable(n) && At(buf, pos, Encode(n))
    ensures ReadNode(buf, pos) == Parsed(Read(n, pos + |Encode(n)|))
    decreases n
  {
    hide At, Encode, ReadNode, LazyNode, Storable;
    if n.CBranch? {
      BranchReadsBack(n, buf, pos);
    } else if n.CExtension? || n.CAccount? {
      var q := NestedAt(n, buf, pos);
      ReadsBack(Nested(n), buf, q);
    } else {
      FlatAt(n, buf, pos);
    }
  }

  /** Leaves, overflow pointers and the empty node: both readers parse them alike. */
  lemma FlatAt(n: CNode, buf: Bytes, pos: nat)
    requires Storable(n) && At(buf, pos, Encode(n)) && !n.CBranch? && !n.CExtension? && !n.CAccount?
    ensures ReadNode(buf, pos) == Parsed(Read(n, pos + |Encode(n)|)) && LazyNode(buf, pos) == ReadNode(buf, pos) && !n.CRaw?
  {
    hide At, Le, FromLe, EncodePath, EncodeRef, TakeLe, TakeLeaf, TakeOverflow;
    match n
    case CEmpty =>
      TagAt(buf, pos, 0);
    case CLeaf(path, value, nref) =>
      TagSplit(buf, pos, 1, EncodePath(path) + (Le(|value|, 4) + (value + EncodeRef(nref))));
      LeafAt(buf, pos + 1, path, value, nref);
    case COverflow(unit, len, root) =>
      TagSplit(buf, pos, 4, Le(unit, 4) + (Le(len, 4) + root));
      OverflowAt(buf, pos + 1, unit, len, root);
  }

  /** The node nested in an extension or an account, and the node with another in its place. */
  function Nested(n: CNode): CNode
    requires n.CExtension? || n.CAccount?
  {
    if n.CExtension? then n.child else n.storage
  }

  function With(n: CNode, c: CNode): CNode
    requires n.CExtension? || n.CAccount?
  {
    if n.CExtension? then n.(child := c) else n.(storage := c)
  }

  /** Where the nested node lies, and what reading it there gives for the whole. */
  ghost predicate Nests(n: CNode, buf: Bytes, pos: nat, q: nat)
    requires n.CExtension? || n.CAccount?
  {
    && pos <= q <= |buf|
    && (ReadNode(buf, q).Parsed? ==>
      ReadNode(buf, pos) == Parsed(Read(With(n, ReadNode(buf, q).read.value), ReadNode(buf, q).read.pos)))
    && (LazyNode(buf, q).Parsed? ==>
      LazyNode(buf, pos) == Parsed(Read(With(n, LazyNode(buf, q).read.value), LazyNode(buf, q).read.pos)))
  }

  lemma NestedAt(n: CNode, buf: Bytes, pos: nat) returns (q: nat)
    requires Storable(n) && At(buf, pos, Encode(n)) && (n.CExtension? || n.CAccount?)
    ensures Storable(Nested(n)) && At(buf, q, Encode(Nested(n))) && q + |Encode(Nested(n))| == pos + |Encode(n)| && Nests(n, buf, pos, q)
    ensures ReadNode(buf, q) == Parsed(Read(Nested(n), q + |Encode(Nested(n))|)) ==>
      ReadNode(buf, pos) == Parsed(Read(n, pos + |Encode(n)|))
  {
    if n.CExtension? {
      q := ExtensionNests(n, buf, pos);
    } else {
      q := AccountNests(n, buf, pos);
    }
    hide At, Encode, ReadNode, LazyNode;
  }

  lemma ExtensionNests(n: CNode, buf: Bytes, pos: nat) returns (q: nat)
    requires Storable(n) && At(buf, pos, Encode(n)) && n.CExtension?
    ensures At(buf, q, Encode(n.child)) && q + |Encode(n.child)| == pos + |Encode(n)| && Nests(n, buf, pos, q)
  {
    hide At, EncodePath, EncodeRef, TakePath, TakeRef, TakeLe;
    TagSplit(buf, pos, 2, EncodePath(n.path) + (EncodeRef(n.nref) + Encode(n.child)));
    ExtensionAt(buf, pos + 1, n.path, n.nref, Encode(n.child));
    q := pos + 1 + |EncodePath(n.path)| + |EncodeRef(n.nref)|;
    InBuf(buf, q, Encode(n.child));
  }

  lemma AccountNests(n: CNode, buf: Bytes, pos: nat) returns (q: nat)
    requires Storable(n) && At(buf, pos, Encode(n)) && n.CAccount?
    ensures At(buf, q, Encode(n.storage)) && q + |Encode(n.storage)| == pos + |Encode(n)| && Nests(n, buf, pos, q)
  {
    hide At, Le, Be, EncodePath, TakeLe, TakeAccountHead, Pow;
    TagSplit(buf, pos, 5, EncodePath(n.path) + (Le(n.nonce, 8) + (Be(n.balance, 32) + (n.codeHash + Encode(n.storage)))));
    AccountHeadAt(buf, pos + 1, n.path, n.nonce, n.balance, n.codeHash, Encode(n.storage));
    q := pos + 1 + |EncodePath(n.path)| + 72;
    InBuf(buf, q, Encode(n.storage));
  }

  lemma {:induction false} BranchReadsBack(n: CNode, buf: Bytes, pos: nat)
    requires n.CBranch? && Storable(n) && At(buf, pos, Encode(n))
    ensures ReadNode(buf, pos) == Parsed(Read(n, pos + |Encode(n)|))
    decreases n, 0
  {
    hide At, Le, FromLe, EncodeRef, TakeRef, TakeLe, Take, Table, Kids, Bitmap, Ones, ReadKids;
    BranchStart(n, buf, pos);
    var p := pos + 3 + |EncodeRef(n.nref)|;
    TakeAt(buf, p, Table(n.children));
    assert n.children[0..] == n.children;
    KidsReadBack(n.children, buf, p + |Table(n.children)|, 0);
  }

  lemma TagSplit(buf: Bytes, pos: nat, tag: Byte, rest: Bytes)
    requires At(buf, pos, [tag] + rest)
    ensures TakeLe(buf, pos, 1) == Parsed(Read(tag, pos + 1)) && At(buf, pos + 1, rest) && pos < |buf| && buf[pos] == tag
  {
    AtSplit(buf, pos, [tag], rest);
    TagAt(buf, pos, tag);
  }

  lemma KidsStep(children: seq<CNode>, i: nat)
    requires i < |children|
    ensures Kids(children[i..]) == (if children[i] != CEmpty then Encode(children[i]) else []) + Kids(children[i + 1..])
    ensures Table(children[i..]) == (if children[i] != CEmpty then Le(|Encode(children[i])|, 4) else []) + Table(children[i + 1..])
    ensures Present(children[i..]) == (if children[i] != CEmpty then 1 else 0) + Present(children[i + 1..])
  {
    hide Le, Encode;
    assert children[i..][1..] == children[i + 1..];
  }

  lemma {:induction false} KidsReadBack(children: seq<CNode>, buf: Bytes, pos: nat, i: nat)
    requires |children| == 16 && i <= 16 && AllStorable(children) && pos <= |buf| && At(buf, pos, Kids(children[i..]))
    ensures ReadKids(buf, pos, Bitmap(children), i) == Parsed(Read(children[i..], pos + |Kids(children[i..])|))
    decreases children, 16 - i
  {
    hide At, Encode, Storable, ReadNode, Bitmap, Bit, Kids, Table;
    if i == 16 {
      NoKids();
      assert children[16..] == [];
    } else {
      BitmapBits(children, i);
      KidsStep(children, i);
      assert children[i..] == [children[i]] + children[i + 1..];
      if children[i] == CEmpty {
        assert Kids(children[i..]) == Kids(children[i + 1..]);
        KidsReadBack(children, buf, pos, i + 1);
      } else {
        AtSplit(buf, pos, Encode(children[i]), Kids(children[i + 1..]));
        ReadsBack(children[i], buf, pos);
        KidsReadBack(children, buf, pos + |Encode(children[i])|, i + 1);
      }
    }
  }

  lemma NoKids()
    ensures Kids([]) == [] && Table([]) == [] && Present([]) == 0
  {
  }

  // ----------------------------------------------------------------------- lazy

  /** `n` is `m` with some branch children still raw: expanding each raw slice one level
      with the lazy reader, again and again, gives `m`; its cached reference is `m`'s. */
  ghost predicate Expands(n: CNode, m: CNode)
    decreases m, 1
  {
    if n.CRaw? then
      && n.off + n.len <= |n.buf| && RefOf(m) == Some(n.nref)
      && ParseLazy(n.buf, n.off, n.len).Parsed? && ExpandsNode(ParseLazy(n.buf, n.off, n.len).read.value, m)
    else ExpandsNode(n, m)
  }

  function RefOf(m: CNode): Option<NRef> {
    match m
    case CLeaf(_, _, nref) => Some(nref)
    case CExtension(_, _, nref) => Some(nref)
    case CBranch(_, nref) => Some(nref)
    case _ => None
  }

  ghost predicate ExpandsNode(n: CNode, m: CNode)
    decreases m, 0
  {
    && (m.CEmpty? || m.CLeaf? || m.COverflow? || m.CRaw? ==> n == m)
    && (m.CExtension? ==> n.CExtension? && n.path == m.path && n.nref == m.nref && ExpandsNode(n.child, m.child))
    && (m.CBranch? ==>
      && n.CBranch? && n.nref == m.nref && |n.children| == |m.children|
      && forall i :: 0 <= i < |m.children| ==> Expands(n.children[i], m.children[i]))
    && (m.CAccount? ==>
      && n.CAccount? && n.path == m.path && n.nonce == m.nonce && n.balance == m.balance && n.codeHash == m.codeHash
      && ExpandsNode(n.storage, m.storage))
  }

  /** What the lazy reader gives for a written node: it stops right behind it, expands to
      it, and is written back as the same bytes. */
  ghost predicate LazyOk(n: CNode, m: CNode) {
    ExpandsNode(n, m) && Encode(n) == Encode(m) && !n.CRaw?
  }

  ghost predicate LazyKidsOk(ns: seq<CNode>, ms: seq<CNode>) {
    && |ns| == |ms|
    && (forall i :: 0 <= i < |ms| ==> Expands(ns[i], ms[i]) && (ns[i] == CEmpty <==> ms[i] == CEmpty))
    && (forall i :: 0 <= i < |ms| ==> Encode(ns[i]) == Encode(ms[i]))
  }

  /** Same bytes child by child give the same bitmap, table and body. */
  lemma {:induction false} SameKids(ns: seq<CNode>, ms: seq<CNode>)
    requires |ns| == |ms|
    requires forall i :: 0 <= i < |ms| ==> Encode(ns[i]) == Encode(ms[i]) && (ns[i] == CEmpty <==> ms[i] == CEmpty)
    ensures Bitmap(ns) == Bitmap(ms) && Table(ns) == Table(ms) && Kids(ns) == Kids(ms)
  {
    hide Encode, Le;
    if ms != [] {
      SameKids(ns[1..], ms[1..]);
    }
  }

  function Lens(children: seq<CNode>): (r: seq<nat>)
    ensures |r| == Present(children)
  {
    if children == [] then [] else (if children[0] != CEmpty then [|Encode(children[0])|] else []) + Lens(children[1..])
  }

  lemma LensStep(children: seq<CNode>, i: nat)
    requires i < |children|
    ensures Lens(children[i..]) == (if children[i] != CEmpty then [|Encode(children[i])|] else []) + Lens(children[i + 1..])
  {
    hide Encode;
    assert children[i..][1..] == children[i + 1..];
  }

  /** The length table is read back as the children's lengths. */
  lemma {:induction false} LensAt(children: seq<CNode>, buf: Bytes, pos: nat)
    requires AllStorable(children) && pos <= |buf| && At(buf, pos, Table(children))
    ensures TakeLens(buf, pos, Present(children)) == Parsed(Read(Lens(children), pos + |Table(children)|))
    decreases children
  {
    hide At, Encode, Le, FromLe, TakeLe, Storable;
    Pows();
    if children != [] {
      if children[0] != CEmpty {
        AtSplit(buf, pos, Le(|Encode(children[0])|, 4), Table(children[1..]));
        TakeLeAt(buf, pos, |Encode(children[0])|, 4);
        InBuf(buf, pos + 4, Table(children[1..]));
        LensAt(children[1..], buf, pos + 4);
      } else {
        assert Table(children) == Table(children[1..]);
        assert Lens(children) == Lens(children[1..]);
        LensAt(children[1..], buf, pos);
      }
    }
  }

  lemma InBuf(buf: Bytes, pos: nat, b: Bytes)
    requires At(buf, pos, b)
    ensures pos <= |buf| && pos + |b| <= |buf|
  {
  }

  /** The header alone yields the node's reference. */
  lemma HeaderRef(m: CNode, bytes: Bytes)
    requires Storable(m) && bytes == Encode(m) && (m.CLeaf? || m.CExtension? || m.CBranch?)
    ensures ExtractRef(bytes).Parsed? && ExtractRef(bytes).read.value == RefOf(m).value
  {
    hide Le, Be, FromLe, EncodePath, EncodeRef, TakePath, TakeRef, TakeLe, Take, Pow, Val, Table, Kids, Bitmap, Ones;
    assert At(bytes, 0, Encode(m));
    hide At;
    match m
    case CLeaf(path, value, nref) =>
      TagSplit(bytes, 0, 1, EncodePath(path) + (Le(|value|, 4) + (value + EncodeRef(nref))));
      LeafParts(bytes, 1, path, value, nref);
    case CExtension(path, child, nref) =>
      TagSplit(bytes, 0, 2, EncodePath(path) + (EncodeRef(nref) + Encode(child)));
      ExtensionAt(bytes, 1, path, nref, Encode(child));
    case CBranch(children, nref) =>
      TagSplit(bytes, 0, 3, Le(Bitmap(children), 2) + (EncodeRef(nref) + (Table(children) + Kids(children))));
      BranchAt(bytes, 1, children, nref);
  }

  /** The lazy reader agrees with the written node. */
  lemma {:induction false} LazyReadsBack(m: CNode, buf: Bytes, pos: nat)
    requires Storable(m) && At(buf, pos, Encode(m)) && pos <= |buf|
    ensures var r := LazyNode(buf, pos); r.Parsed? && r.read.pos == pos + |Encode(m)| && LazyOk(r.read.value, m)
    decreases m
  {
    hide At, Encode, LazyNode, ReadNode, LazyOk, Storable;
    if m.CBranch? {
      BranchReadsLazily(m, buf, pos);
    } else if m.CExtension? || m.CAccount? {
      var q := NestedAt(m, buf, pos);
      InBuf(buf, q, Encode(Nested(m)));
      LazyReadsBack(Nested(m), buf, q);
      LazyOver(LazyNode(buf, q).read.value, m);
    } else {
      FlatAt(m, buf, pos);
      LazySame(m);
    }
  }

  lemma BranchStart(m: CNode, buf: Bytes, pos: nat)
    requires m.CBranch? && Storable(m) && At(buf, pos, Encode(m))
    ensures TakeLe(buf, pos, 1) == Parsed(Read(3, pos + 1))
    ensures TakeLe(buf, pos + 1, 2) == Parsed(Read(Bitmap(m.children), pos + 3))
    ensures TakeRef(buf, pos + 3) == Parsed(Read(m.nref, pos + 3 + |EncodeRef(m.nref)|))
    ensures var p := pos + 3 + |EncodeRef(m.nref)|; At(buf, p, Table(m.children)) && At(buf, p + |Table(m.children)|, Kids(m.children))
    ensures |Table(m.children)| == Ones(Bitmap(m.children), 16) * 4
  {
    hide At, Le, FromLe, EncodeRef, TakeRef, TakeLe, Table, Kids, Bitmap, Ones;
    TagSplit(buf, pos, 3, Le(Bitmap(m.children), 2) + (EncodeRef(m.nref) + (Table(m.children) + Kids(m.children))));
    BranchAt(buf, pos + 1, m.children, m.nref);
  }

  lemma {:induction false} BranchReadsLazily(m: CNode, buf: Bytes, pos: nat)
    requires m.CBranch? && Storable(m) && pos <= |buf| && At(buf, pos, Encode(m))
    ensures var r := LazyNode(buf, pos); r.Parsed? && r.read.pos == pos + |Encode(m)| && LazyOk(r.read.value, m)
    decreases m, 0
  {
    hide At, Le, FromLe, EncodeRef, TakeRef, TakeLe, Table, Kids, Bitmap, Ones, LazyKids, TakeLens, LazyKidsOk, LazyOk, Encode, LazyNode,
      Present, Lens, Storable, AllStorable, RefOk;
    BranchStart(m, buf, pos);
    BranchParts(m);
    var p := pos + 3 + |EncodeRef(m.nref)|;
    var q := p + |Table(m.children)|;
    TableReadsBack(m.children, buf, p);
    var kids := AllKidsReadLazily(m.children, buf, q);
    LazyBranch(kids, m);
    LazyBranchRead(m, buf, pos, p, kids);
  }

  lemma TableReadsBack(children: seq<CNode>, buf: Bytes, p: nat)
    requires |children| == 16 && AllStorable(children) && At(buf, p, Table(children))
    ensures p + |Table(children)| <= |buf|
    ensures TakeLens(buf, p, Ones(Bitmap(children), 16)) == Parsed(Read(Lens(children), p + |Table(children)|))
  {
    hide At, Table, Bitmap, Ones, TakeLens, Present, Lens, AllStorable;
    InBuf(buf, p, Table(children));
    LensAt(children, buf, p);
    BitmapOnes(children);
  }

  lemma {:induction false} AllKidsReadLazily(children: seq<CNode>, buf: Bytes, q: nat) returns (kids: seq<CNode>)
    requires |children| == 16 && AllStorable(children) && q <= |buf| && At(buf, q, Kids(children))
    ensures LazyKids(buf, q, Bitmap(children), 0, Lens(children)) == Parsed(Read(kids, q + |Kids(children)|))
    ensures LazyKidsOk(kids, children)
    decreases children, 17
  {
    hide At, Kids, Bitmap, LazyKids, LazyKidsOk, Present, Lens, AllStorable;
    assert children[0..] == children;
    KidsReadLazily(children, buf, q, 0);
    kids := LazyKids(buf, q, Bitmap(children), 0, Lens(children)).read.value;
  }

  lemma BranchParts(m: CNode)
    requires m.CBranch? && Storable(m)
    ensures |m.children| == 16 && AllStorable(m.children) && RefOk(m.nref)
    ensures |Encode(m)| == 3 + |EncodeRef(m.nref)| + |Table(m.children)| + |Kids(m.children)|
  {
    hide EncodeRef, Table, Kids, Bitmap;
  }

  lemma LazyBranch(kids: seq<CNode>, m: CNode)
    requires m.CBranch? && LazyKidsOk(kids, m.children)
    ensures LazyOk(CBranch(kids, m.nref), m)
  {
    hide Expands, EncodeRef, Le, Bitmap, Table, Kids;
    SameKids(kids, m.children);
  }

  lemma LazyBranchRead(m: CNode, buf: Bytes, pos: nat, p: nat, kids: seq<CNode>)
    requires m.CBranch? && pos <= p <= |buf| && |m.children| == 16 && p + |Table(m.children)| <= |buf|
    requires TakeLe(buf, pos, 1) == Parsed(Read(3, pos + 1))
    requires TakeLe(buf, pos + 1, 2) == Parsed(Read(Bitmap(m.children), pos + 3))
    requires TakeRef(buf, pos + 3) == Parsed(Read(m.nref, p))
    requires TakeLens(buf, p, Ones(Bitmap(m.children), 16)) == Parsed(Read(Lens(m.children), p + |Table(m.children)|))
    requires LazyKids(buf, p + |Table(m.children)|, Bitmap(m.children), 0, Lens(m.children)) ==
      Parsed(Read(kids, p + |Table(m.children)| + |Kids(m.children)|))
    ensures LazyNode(buf, pos) == Parsed(Read(CBranch(kids, m.nref), p + |Table(m.children)| + |Kids(m.children)|))
  {
    hide TakeLe, TakeRef, TakeLens, LazyKids, Bitmap, Ones, Table, Kids, Lens;
  }

  lemma {:induction false} KidsReadLazily(children: seq<CNode>, buf: Bytes, pos: nat, i: nat)
    requires |children| == 16 && i <= 16 && AllStorable(children) && pos <= |buf| && At(buf, pos, Kids(children[i..]))
    ensures var r := LazyKids(buf, pos, Bitmap(children), i, Lens(children[i..]));
      r.Parsed? && r.read.pos == pos + |Kids(children[i..])| && LazyKidsOk(r.read.value, children[i..])
    decreases children, 16 - i
  {
    hide At, Encode, Storable, LazyNode, Bitmap, Bit, Kids, Table, Expands, Lens, ExtractRef, LazyKids, LazyKidsOk, LazyOk, Present;
    var bitmap := Bitmap(children);
    if i == 16 {
      NoKids();
      assert children[16..] == [];
      LazyKidsEnd(buf, pos, bitmap, Lens([]));
    } else {
      BitmapBits(children, i);
      KidsStep(children, i);
      LensStep(children, i);
      assert children[i..] == [children[i]] + children[i + 1..];
      if children[i] == CEmpty {
        assert Kids(children[i..]) == Kids(children[i + 1..]);
        assert Lens(children[i..]) == Lens(children[i + 1..]);
        KidsReadLazily(children, buf, pos, i + 1);
        EmptyExpands();
        LazyKidsStep(buf, pos, bitmap, i, Lens(children[i..]));
        LazyKidsCons(CEmpty, LazyKids(buf, pos, bitmap, i + 1, Lens(children[i + 1..])).read.value, CEmpty, children[i + 1..]);
      } else {
        var m, len := children[i], |Encode(children[i])|;
        AtSplit(buf, pos, Encode(m), Kids(children[i + 1..]));
        InBuf(buf, pos, Encode(m));
        assert Lens(children[i..])[0] == len;
        assert Lens(children[i..])[1..] == Lens(children[i + 1..]);
        LazyReadsBack(m, buf, pos);
        ChildRead(m, buf, pos);
        KidsReadLazily(children, buf, pos + len, i + 1);
        LazyKidsStep(buf, pos, bitmap, i, Lens(children[i..]));
        var n := if RefOf(m).Some? then CRaw(buf, pos, len, RefOf(m).value) else LazyNode(buf, pos).read.value;
        LazyKidsCons(n, LazyKids(buf, pos + len, bitmap, i + 1, Lens(children[i + 1..])).read.value, m, children[i + 1..]);
      }
    }
  }

  lemma LazyKidsEnd(buf: Bytes, pos: nat, bitmap: nat, lens: seq<nat>)
    requires pos <= |buf|
    ensures LazyKids(buf, pos, bitmap, 16, lens) == Parsed(Read([], pos)) && LazyKidsOk([], [])
  {
  }

  /** One slot of the lazy branch loop. */
  lemma LazyKidsStep(buf: Bytes, pos: nat, bitmap: nat, i: nat, lens: seq<nat>)
    requires pos <= |buf| && i < 16
    ensures var r := LazyKids(buf, pos, bitmap, i, lens);
      if !Bit(bitmap, i) then
        var rest := LazyKids(buf, pos, bitmap, i + 1, lens);
        rest.Parsed? ==> r == Parsed(Read([CEmpty] + rest.read.value, rest.read.pos))
      else if pos == |buf| || lens == [] then true
      else if buf[pos] == 1 || buf[pos] == 2 || buf[pos] == 3 then
        pos + lens[0] <= |buf| ==> (
          var nref, rest := ExtractRef(buf[pos..pos + lens[0]]), LazyKids(buf, pos + lens[0], bitmap, i + 1, lens[1..]);
          nref.Parsed? && rest.Parsed? ==> r == Parsed(Read([CRaw(buf, pos, lens[0], nref.read.value)] + rest.read.value, rest.read.pos)))
      else
        LazyNode(buf, pos).Parsed? ==> (
          var kid := LazyNode(buf, pos).read; var rest := LazyKids(buf, kid.pos, bitmap, i + 1, lens[1..]);
          rest.Parsed? ==> r == Parsed(Read([kid.value] + rest.read.value, rest.read.pos)))
  {
    hide LazyNode, ExtractRef, Bit;
  }

  lemma LazyKidsCons(n: CNode, ns: seq<CNode>, m: CNode, ms: seq<CNode>)
    requires LazyKidsOk(ns, ms) && Expands(n, m) && Encode(n) == Encode(m) && (n == CEmpty <==> m == CEmpty)
    ensures LazyKidsOk([n] + ns, [m] + ms)
  {
    hide Expands, Encode;
  }

  lemma LazyOver(n: CNode, m: CNode)
    requires (m.CExtension? || m.CAccount?) && LazyOk(n, Nested(m))
    ensures LazyOk(With(m, n), m)
  {
    hide EncodePath, EncodeRef, Le, Be;
  }

  lemma LazySame(m: CNode)
    requires m.CEmpty? || m.CLeaf? || m.COverflow?
    ensures LazyOk(m, m)
  {
    hide Encode;
  }

  lemma EmptyExpands()
    ensures Expands(CEmpty, CEmpty)
  {
  }

  /** A branch child: raw when it is a leaf, extension or branch, parsed otherwise. */
  lemma ChildRead(m: CNode, buf: Bytes, pos: nat)
    requires Storable(m) && m != CEmpty && At(buf, pos, Encode(m)) && pos <= |buf|
    requires var r := LazyNode(buf, pos); r.Parsed? && r.read.pos == pos + |Encode(m)| && LazyOk(r.read.value, m)
    ensures pos < |buf| && |Encode(m)| > 0
    ensures (buf[pos] == 1 || buf[pos] == 2 || buf[pos] == 3) <==> RefOf(m).Some?
    ensures RefOf(m).Some? ==> (
      var raw := CRaw(buf, pos, |Encode(m)|, RefOf(m).value);
      && pos + |Encode(m)| <= |buf| && ExtractRef(buf[pos..pos + |Encode(m)|]).Parsed?
      && ExtractRef(buf[pos..pos + |Encode(m)|]).read.value == RefOf(m).value
      && Expands(raw, m) && Encode(raw) == Encode(m))
    ensures RefOf(m).None? ==> (
      var n := LazyNode(buf, pos).read.value;
      Expands(n, m) && n != CEmpty && Encode(n) == Encode(m))
  {
    hide LazyNode, ExtractRef, Storable, Encode, ExpandsNode;
    TagThere(m, buf, pos);
    if RefOf(m).Some? {
      HeaderRef(m, Encode(m));
      RawEncodes(buf, pos, Encode(m), RefOf(m).value);
    } else {
      ParsedExpands(LazyNode(buf, pos).read.value, m);
    }
  }

  /** The tag byte tells whether the node has a reference of its own. */
  lemma TagThere(m: CNode, buf: Bytes, pos: nat)
    requires Storable(m) && m != CEmpty && At(buf, pos, Encode(m))
    ensures pos < |buf| && |Encode(m)| > 0 && !m.CRaw?
    ensures (buf[pos] == 1 || buf[pos] == 2 || buf[pos] == 3) <==> RefOf(m).Some?
  {
    EncodeTag(m);
    assert buf[pos..pos + |Encode(m)|][0] == Encode(m)[0];
    hide Encode, Storable;
  }

  lemma RawEncodes(buf: Bytes, pos: nat, b: Bytes, nref: NRef)
    requires At(buf, pos, b)
    ensures Encode(CRaw(buf, pos, |b|, nref)) == b
  {
  }

  lemma ParsedExpands(n: CNode, m: CNode)
    requires ExpandsNode(n, m) && !n.CRaw? && m != CEmpty && !m.CRaw?
    ensures Expands(n, m) && n != CEmpty
  {
  }

  // -------------------------------------------------------------------- records

  /** A record payload: the frontier path, then the node. */
  function Serialize(prefix: Path, n: CNode): Bytes {
    EncodePath(prefix) + Encode(n)
  }

  function RecordSize(prefix: nat, n: CNode): nat {
    (1 + (prefix + 1) / 2) + NodeSize(n)
  }

  datatype Subtree = Subtree(prefix: Path, node: CNode)

  /** Read a whole payload eagerly; nothing may be left over. */
  function Deserialize(payload: Bytes): Option<Subtree> {
    var prefix := TakePath(payload, 0);
    if prefix.Broken? then None
    else
      var n := ReadNode(payload, prefix.read.pos);
      if n.Broken? || n.read.pos != |payload| then None else Some(Subtree(prefix.read.value, n.read.value))
  }

  function DeserializeLazy(payload: Bytes): Option<Subtree> {
    var prefix := TakePath(payload, 0);
    if prefix.Broken? then None
    else
      var n := LazyNode(payload, prefix.read.pos);
      if n.Broken? || n.read.pos != |payload| then None else Some(Subtree(prefix.read.value, n.read.value))
  }

  /** The record law: for every well-formed subtree the eager reader returns what was
      written; the lazy reader agrees with it once expanded and writes back the same
      bytes; and the payload's length is what the size pass said. */
  lemma RecordRoundTrip(prefix: Path, m: CNode)
    requires |prefix| <= MAX_PATH && Storable(m)
    ensures var payload := Serialize(prefix, m);
      && Deserialize(payload) == Some(Subtree(prefix, m))
      && DeserializeLazy(payload).Some? && DeserializeLazy(payload).value.prefix == prefix
      && ExpandsNode(DeserializeLazy(payload).value.node, m)
      && Serialize(prefix, DeserializeLazy(payload).value.node) == payload
      && |payload| == RecordSize(|prefix|, m)
  {
    hide Encode, ReadNode, LazyNode, ExpandsNode, EncodePath, TakePath, NodeSize;
    var payload := Serialize(prefix, m);
    assert At(payload, 0, EncodePath(prefix) + Encode(m));
    AtSplit(payload, 0, EncodePath(prefix), Encode(m));
    PathAt(payload, 0, prefix);
    ReadsBack(m, payload, |EncodePath(prefix)|);
    LazyReadsBack(m, payload, |EncodePath(prefix)|);
    StorableIsSized(m);
    SizeIsExact(m);
  }

  lemma {:induction false} StorableIsSized(m: CNode)
    requires Storable(m)
    ensures Sized(m)
    decreases m
  {
    hide Encode;
    match m
    case CExtension(_, child, _) => StorableIsSized(child);
    case CBranch(children, _) =>
      forall i | 0 <= i < |children| ensures Sized(children[i]) { StorableIsSized(children[i]); }
    case CAccount(_, _, _, _, storage) => StorableIsSized(storage);
    case _ =>
  }

  /** Reading the prefix alone gives the path the record was written under. */
  lemma PrefixReadsBack(prefix: Path, m: CNode)
    requires |prefix| <= MAX_PATH
    ensures TakePath(Serialize(prefix, m), 0) == Parsed(Read(prefix, |EncodePath(prefix)|))
  {
    hide Encode, EncodePath, TakePath;
    var payload := Serialize(prefix, m);
    assert At(payload, 0, EncodePath(prefix) + Encode(m));
    AtSplit(payload, 0, EncodePath(prefix), Encode(m));
    PathAt(payload, 0, prefix);
  }
}

/** The record format byte by byte: what a reader of the raw bytes sees at each offset.
    Numbers, paths, references and nodes are described by what the bytes spell, without the
    encoder; the theorem says that the encoder spells the node.
 */
module WireFormat {
  import opened Trie
  import opened CursorOrder
  import opened Codec
  import opened CodecLaws

  /** The little-endian number of `k` bytes, and the big-endian one. */
  function Little(b: Bytes, at: nat, k: nat): nat
    requires at + k <= |b|
    decreases k
  {
    if k == 0 then 0 else (b[at] as int) + 256 * Little(b, at + 1, k - 1)
  }

  function Big(b: Bytes, at: nat, k: nat): nat
    requires at + k <= |b|
  {
    if k == 0 then 0 else Big(b, at, k - 1) * 256 + (b[at + k - 1] as int)
  }

  function HalfByte(x: Byte, high: bool): int {
    if high then (x as int) / 16 else (x as int) % 16
  }

  /** A count of nibbles, then the nibbles, high half first. */
  ghost predicate PathIs(b: Bytes, at: nat, p: Path) {
    && at + 1 + (|p| + 1) / 2 <= |b| && (b[at] as int) == |p|
    && forall i: nat :: i < |p| ==> HalfByte(b[at + 1 + i / 2], i % 2 == 0) == (p[i] as int)
  }

  ghost predicate RefIs(b: Bytes, at: nat, r: NRef) {
    match r
    case HashRef(hash) => At(b, at + 1, hash) && b[at] == 0
    case InlineRef(rlp) => At(b, at + 2, rlp) && b[at] == 1 && (b[at + 1] as int) == |rlp|
  }

  ghost predicate NumberIs(b: Bytes, at: nat, k: nat, n: nat) {
    at + k <= |b| && Little(b, at, k) == n
  }

  function PathSize(p: Path): nat {
    1 + (|p| + 1) / 2
  }

  ghost predicate LeafIs(b: Bytes, at: nat, path: Path, value: Bytes, nref: NRef) {
    var p := at + 1 + PathSize(path);
    && at < |b| && b[at] == 1 && PathIs(b, at + 1, path) && NumberIs(b, p, 4, |value|) && At(b, p + 4, value)
    && RefIs(b, p + 4 + |value|, nref)
  }

  ghost predicate ExtensionIs(b: Bytes, at: nat, path: Path, nref: NRef) {
    at < |b| && b[at] == 2 && PathIs(b, at + 1, path) && RefIs(b, at + 1 + PathSize(path), nref)
  }

  /** The bitmap has a bit for exactly the children that are there. */
  ghost predicate BranchIs(b: Bytes, at: nat, children: seq<CNode>, nref: NRef) {
    && at + 3 <= |b| && b[at] == 3 && RefIs(b, at + 3, nref)
    && forall i: nat :: i < |children| ==> (Bit(Little(b, at + 1, 2), i) <==> children[i] != CEmpty)
  }

  ghost predicate OverflowIs(b: Bytes, at: nat, unit: nat, len: nat, root: Bytes) {
    at < |b| && b[at] == 4 && NumberIs(b, at + 1, 4, unit) && NumberIs(b, at + 5, 4, len) && At(b, at + 9, root)
  }

  ghost predicate AccountIs(b: Bytes, at: nat, path: Path, nonce: nat, balance: nat, codeHash: Bytes) {
    var p := at + 1 + PathSize(path);
    && at < |b| && b[at] == 5 && PathIs(b, at + 1, path) && NumberIs(b, p, 8, nonce) && p + 40 <= |b| && Big(b, p + 8, 32) == balance
    && At(b, p + 40, codeHash)
  }

  /** The bytes from `at` on spell the node. */
  ghost predicate Spells(b: Bytes, at: nat, n: CNode)
    decreases n
  {
    match n
    case CEmpty => at < |b| && b[at] == 0
    case CLeaf(path, value, nref) => LeafIs(b, at, path, value, nref)
    case CExtension(path, child, nref) =>
      ExtensionIs(b, at, path, nref) && Spells(b, at + 1 + PathSize(path) + RefSize(nref), child)
    case CBranch(children, nref) =>
      var p := at + 3 + RefSize(nref);
      BranchIs(b, at, children, nref) && KidsSpell(b, p, p + 4 * Present(children), children)
    case COverflow(unit, len, root) => OverflowIs(b, at, unit, len, root)
    case CAccount(path, nonce, balance, codeHash, storage) =>
      AccountIs(b, at, path, nonce, balance, codeHash) && Spells(b, at + 1 + PathSize(path) + 72, storage)
    case CRaw(_, _, _, _) => false
  }

  /** The table at `t` gives the lengths of the present children, which follow one another
      from `at` on. */
  ghost predicate KidsSpell(b: Bytes, t: nat, at: nat, children: seq<CNode>)
    decreases children
  {
    children == [] ||
    if children[0] == CEmpty then KidsSpell(b, t, at, children[1..])
    else NumberIs(b, t, 4, NodeSize(children[0])) && Spells(b, at, children[0]) && KidsSpell(b, t + 4, at + NodeSize(children[0]), children[1..])
  }

  // ----------------------------------------------------------------- small parts

  lemma {:induction false} LittleIs(b: Bytes, at: nat, n: nat, k: nat)
    requires At(b, at, Le(n, k)) && n < Pow(256, k)
    ensures NumberIs(b, at, k, n)
    decreases k
  {
    if k > 0 {
      AtSplit(b, at, [n % 256], Le(n / 256, k - 1));
      assert n / 256 < Pow(256, k - 1);
      LittleIs(b, at + 1, n / 256, k - 1);
      assert b[at..at + 1][0] == n % 256;
    }
  }

  lemma {:induction false} BigIs(b: Bytes, at: nat, n: nat, k: nat)
    requires At(b, at, Be(n, k)) && n < Pow(256, k)
    ensures Big(b, at, k) == n
    decreases k
  {
    if k > 0 {
      AtSplit(b, at, Be(n / 256, k - 1), [n % 256]);
      assert n / 256 < Pow(256, k - 1);
      BigIs(b, at, n / 256, k - 1);
      assert b[at + k - 1..at + k][0] == n % 256;
    }
  }

  lemma {:induction false} PackedAt(p: Path, i: nat)
    requires i < |p|
    ensures HalfByte(PackNibbles(p)[i / 2], i % 2 == 0) == (p[i] as int)
    decreases |p|
  {
    if i >= 2 {
      PackedAt(p[2..], i - 2);
      assert PackNibbles(p)[i / 2] == PackNibbles(p[2..])[(i - 2) / 2];
    }
  }

  lemma PathSpelled(b: Bytes, at: nat, p: Path)
    requires At(b, at, EncodePath(p)) && |p| < 256
    ensures PathIs(b, at, p) && |EncodePath(p)| == PathSize(p)
  {
    hide PackNibbles;
    Pows();
    AtSplit(b, at, Le(|p|, 1), PackNibbles(p));
    LittleIs(b, at, |p|, 1);
    assert Little(b, at + 1, 0) == 0;
    var packed := b[at + 1..at + 1 + (|p| + 1) / 2];
    assert packed == PackNibbles(p);
    forall i: nat | i < |p| ensures HalfByte(b[at + 1 + i / 2], i % 2 == 0) == (p[i] as int) {
      PackedAt(p, i);
      assert b[at + 1 + i / 2] == packed[i / 2];
    }
  }

  lemma RefSpelled(b: Bytes, at: nat, r: NRef)
    requires At(b, at, EncodeRef(r)) && RefOk(r)
    ensures RefIs(b, at, r) && |EncodeRef(r)| == RefSize(r)
  {
    match r
    case HashRef(hash) =>
      AtSplit(b, at, [0], hash);
      assert b[at..at + 1][0] == 0;
    case InlineRef(rlp) =>
      Pows();
      AtSplit(b, at, [1], Le(|rlp|, 1) + rlp);
      AtSplit(b, at + 1, Le(|rlp|, 1), rlp);
      LittleIs(b, at + 1, |rlp|, 1);
      assert Little(b, at + 2, 0) == 0;
      assert b[at..at + 1][0] == 1;
  }

  lemma TagIs(b: Bytes, at: nat, tag: Byte, rest: Bytes)
    requires At(b, at, [tag] + rest)
    ensures at < |b| && b[at] == tag && At(b, at + 1, rest)
  {
    AtSplit(b, at, [tag], rest);
    assert b[at..at + 1][0] == tag;
  }

  // ------------------------------------------------------------------------ nodes

  lemma StorableParts(n: CNode)
    requires Storable(n)
    ensures n.CExtension? ==> |n.path| < 256 && RefOk(n.nref)
    ensures n.CBranch? ==> |n.children| == 16 && RefOk(n.nref) && AllStorable(n.children)
  {
    hide Encode, RefOk;
  }

  lemma EncodeParts(n: CNode)
    ensures n.CExtension? ==> Encode(n) == [2] + (EncodePath(n.path) + (EncodeRef(n.nref) + Encode(n.child)))
    ensures n.CBranch? ==> Encode(n) == [3] + (Le(Bitmap(n.children), 2) + (EncodeRef(n.nref) + (Table(n.children) + Kids(n.children))))
  {
    hide EncodePath, EncodeRef, Le, Bitmap, Table, Kids;
  }

  lemma LeafSpelled(b: Bytes, at: nat, path: Path, value: Bytes, nref: NRef)
    requires Storable(CLeaf(path, value, nref)) && At(b, at, Encode(CLeaf(path, value, nref)))
    ensures LeafIs(b, at, path, value, nref)
  {
    hide At, Le, EncodePath, EncodeRef, PathIs, RefIs, NumberIs, RefOk;
    Pows();
    var p := at + 1 + PathSize(path);
    TagIs(b, at, 1, EncodePath(path) + (Le(|value|, 4) + (value + EncodeRef(nref))));
    AtSplit4(b, at + 1, EncodePath(path), Le(|value|, 4), value, EncodeRef(nref));
    PathSpelled(b, at + 1, path);
    LittleIs(b, p, |value|, 4);
    RefSpelled(b, p + 4 + |value|, nref);
  }

  lemma ExtensionCut(b: Bytes, at: nat, path: Path, child: CNode, nref: NRef)
    requires At(b, at, Encode(CExtension(path, child, nref)))
    ensures at < |b| && b[at] == 2 && At(b, at + 1, EncodePath(path)) && At(b, at + 1 + |EncodePath(path)|, EncodeRef(nref))
    ensures At(b, at + 1 + |EncodePath(path)| + |EncodeRef(nref)|, Encode(child))
  {
    EncodeParts(CExtension(path, child, nref));
    hide Encode, At, EncodePath, EncodeRef;
    TagIs(b, at, 2, EncodePath(path) + (EncodeRef(nref) + Encode(child)));
    AtSplit(b, at + 1, EncodePath(path), EncodeRef(nref) + Encode(child));
    AtSplit(b, at + 1 + |EncodePath(path)|, EncodeRef(nref), Encode(child));
  }

  lemma ExtensionSpelled(b: Bytes, at: nat, path: Path, child: CNode, nref: NRef)
    requires Storable(CExtension(path, child, nref)) && At(b, at, Encode(CExtension(path, child, nref)))
    ensures ExtensionIs(b, at, path, nref) && At(b, at + 1 + PathSize(path) + RefSize(nref), Encode(child))
  {
    hide At, EncodePath, EncodeRef, PathIs, RefIs, RefOk, Encode, Storable, RefSize;
    StorableParts(CExtension(path, child, nref));
    ExtensionCut(b, at, path, child, nref);
    PathSpelled(b, at + 1, path);
    RefSpelled(b, at + 1 + PathSize(path), nref);
  }

  lemma OverflowSpelled(b: Bytes, at: nat, unit: nat, len: nat, root: Bytes)
    requires unit < U32 && len < U32 && At(b, at, Encode(COverflow(unit, len, root)))
    ensures OverflowIs(b, at, unit, len, root)
  {
    hide At, Le, NumberIs;
    Pows();
    TagIs(b, at, 4, Le(unit, 4) + (Le(len, 4) + root));
    AtSplit(b, at + 1, Le(unit, 4), Le(len, 4) + root);
    AtSplit(b, at + 5, Le(len, 4), root);
    LittleIs(b, at + 1, unit, 4);
    LittleIs(b, at + 5, len, 4);
  }

  lemma AccountSpelled(b: Bytes, at: nat, path: Path, nonce: nat, balance: nat, codeHash: Bytes, storage: CNode)
    requires Storable(CAccount(path, nonce, balance, codeHash, storage)) && At(b, at, Encode(CAccount(path, nonce, balance, codeHash, storage)))
    ensures AccountIs(b, at, path, nonce, balance, codeHash) && At(b, at + 1 + PathSize(path) + 72, Encode(storage))
  {
    hide Le, Be, EncodePath, PathIs, NumberIs, Little, Big, Pow;
    var p := at + 1 + PathSize(path);
    TagIs(b, at, 5, EncodePath(path) + (Le(nonce, 8) + (Be(balance, 32) + (codeHash + Encode(storage)))));
    AtSplit4(b, at + 1, EncodePath(path), Le(nonce, 8), Be(balance, 32), codeHash + Encode(storage));
    PathSpelled(b, at + 1, path);
    LittleIs(b, p, nonce, 8);
    BigIs(b, p + 8, balance, 32);
    AtSplit(b, p + 40, codeHash, Encode(storage));
  }

  lemma BranchCut(b: Bytes, at: nat, children: seq<CNode>, nref: NRef)
    requires At(b, at, Encode(CBranch(children, nref)))
    ensures at < |b| && b[at] == 3 && At(b, at + 1, Le(Bitmap(children), 2)) && At(b, at + 3, EncodeRef(nref))
    ensures var p := at + 3 + |EncodeRef(nref)|; At(b, p, Table(children)) && At(b, p + 4 * Present(children), Kids(children))
  {
    EncodeParts(CBranch(children, nref));
    hide Encode, At, Le, EncodeRef, Table, Kids, Bitmap;
    TagIs(b, at, 3, Le(Bitmap(children), 2) + (EncodeRef(nref) + (Table(children) + Kids(children))));
    AtSplit4(b, at + 1, Le(Bitmap(children), 2), EncodeRef(nref), Table(children), Kids(children));
  }

  lemma BranchSpelled(b: Bytes, at: nat, children: seq<CNode>, nref: NRef)
    requires Storable(CBranch(children, nref)) && At(b, at, Encode(CBranch(children, nref)))
    ensures BranchIs(b, at, children, nref) && AllStorable(children)
    ensures var p := at + 3 + RefSize(nref); At(b, p, Table(children)) && At(b, p + 4 * Present(children), Kids(children))
  {
    hide Le, EncodeRef, RefIs, Kids, Table, Bitmap, At, Encode, Storable, RefOk, Present, RefSize, AllStorable, BranchIs;
    StorableParts(CBranch(children, nref));
    BranchCut(b, at, children, nref);
    RefSpelled(b, at + 3, nref);
    BitmapSpelled(b, at, children, nref);
  }

  lemma BitmapSpelled(b: Bytes, at: nat, children: seq<CNode>, nref: NRef)
    requires |children| == 16 && at < |b| && b[at] == 3 && At(b, at + 1, Le(Bitmap(children), 2)) && RefIs(b, at + 3, nref)
    ensures BranchIs(b, at, children, nref)
  {
    hide Le, RefIs, Bitmap, Bit;
    Pows();
    LittleIs(b, at + 1, Bitmap(children), 2);
    hide Little;
    forall i: nat | i < |children| ensures Bit(Little(b, at + 1, 2), i) <==> children[i] != CEmpty {
      BitmapBits(children, i);
    }
  }

  lemma StorableChild(n: CNode)
    requires Storable(n)
    ensures (n.CExtension? ==> Storable(n.child)) && (n.CAccount? ==> Storable(n.storage)) && (n.COverflow? ==> n.unit < U32 && n.len < U32) && !n.CRaw?
  {
  }

  /** The writer spells every node the format can hold. */
  lemma {:induction false} WrittenSpells(b: Bytes, at: nat, n: CNode)
    requires Storable(n) && At(b, at, Encode(n))
    ensures Spells(b, at, n)
    decreases n, 1
  {
    hide At, LeafIs, ExtensionIs, BranchIs, OverflowIs, AccountIs, KidsSpell, Present, Table, Kids, Storable;
    StorableChild(n);
    match n
    case CEmpty =>
      NothingBehind(0);
      TagIs(b, at, 0, []);
    case CLeaf(path, value, nref) => LeafSpelled(b, at, path, value, nref);
    case CExtension(path, child, nref) =>
      ExtensionSpelled(b, at, path, child, nref);
      WrittenSpells(b, at + 1 + PathSize(path) + RefSize(nref), child);
    case CBranch(children, nref) =>
      BranchSpelled(b, at, children, nref);
      KidsSpelled(b, at + 3 + RefSize(nref), at + 3 + RefSize(nref) + 4 * Present(children), children);
    case COverflow(unit, len, root) => OverflowSpelled(b, at, unit, len, root);
    case CAccount(path, nonce, balance, codeHash, storage) =>
      AccountSpelled(b, at, path, nonce, balance, codeHash, storage);
      WrittenSpells(b, at + 1 + PathSize(path) + 72, storage);
  }

  lemma {:induction false} KidsSpelled(b: Bytes, t: nat, at: nat, children: seq<CNode>)
    requires AllStorable(children) && At(b, t, Table(children)) && At(b, at, Kids(children))
    ensures KidsSpell(b, t, at, children)
    decreases children, 0
  {
    hide At, Le, NumberIs, Spells, Storable, Encode, Table, Kids, NodeSize;
    if children != [] {
      var c, rest := children[0], children[1..];
      KidsUnfold(children);
      if c != CEmpty {
        AtSplit(b, t, Le(|Encode(c)|, 4), Table(rest));
        AtSplit(b, at, Encode(c), Kids(rest));
        FirstKid(b, t, at, c);
        KidsSpelled(b, t + 4, at + |Encode(c)|, rest);
      } else {
        KidsSpelled(b, t, at, rest);
      }
    }
  }

  lemma {:induction false} FirstKid(b: Bytes, t: nat, at: nat, c: CNode)
    requires Storable(c) && |Encode(c)| < U32 && At(b, t, Le(|Encode(c)|, 4)) && At(b, at, Encode(c))
    ensures NumberIs(b, t, 4, NodeSize(c)) && Spells(b, at, c) && NodeSize(c) == |Encode(c)|
    decreases c, 2
  {
    hide At, Le, NumberIs, Spells, Storable, Encode, NodeSize;
    Pows();
    StorableIsSized(c);
    SizeIsExact(c);
    LittleIs(b, t, |Encode(c)|, 4);
    WrittenSpells(b, at, c);
  }

  lemma KidsUnfold(children: seq<CNode>)
    requires children != []
    ensures var c, rest := children[0], children[1..];
      if c == CEmpty then Table(children) == Table(rest) && Kids(children) == Kids(rest)
      else Table(children) == Le(|Encode(c)|, 4) + Table(rest) && Kids(children) == Encode(c) + Kids(rest)
  {
    hide Le, Encode;
    NothingBefore(Table(children[1..]), Kids(children[1..]));
  }

  lemma NothingBehind(tag: Byte)
    ensures [tag] + [] == [tag]
  {
  }

  lemma NothingBefore(a: Bytes, c: Bytes)
    ensures [] + a == a && [] + c == c
  {
  }

  /** A record is its prefix path and then its node. */
  lemma RecordSpelled(prefix: Path, n: CNode)
    requires |prefix| <= MAX_PATH && Storable(n)
    ensures var b := Serialize(prefix, n); PathIs(b, 0, prefix) && Spells(b, PathSize(prefix), n)
  {
    hide Encode, EncodePath, PathIs, Spells, Storable;
    var b := Serialize(prefix, n);
    assert At(b, 0, EncodePath(prefix) + Encode(n));
    AtSplit(b, 0, EncodePath(prefix), Encode(n));
    PathSpelled(b, 0, prefix);
    WrittenSpells(b, PathSize(prefix), n);
  }

  // ------------------------------------------------------------------------- lazy

  /** A slot of a lazily read branch: leaves, extensions and branches stay serialised, as a
      slice of the record itself. */
  predicate LeftRaw(buf: Bytes, n: CNode) {
    !n.CLeaf? && !n.CExtension? && !n.CBranch? && (n.CRaw? ==> n.buf == buf)
  }

  /** The lazy reader parses no child of a branch that it can leave serialised. */
  lemma {:induction false} KidsStayRaw(buf: Bytes, pos: nat, bitmap: nat, i: nat, lens: seq<nat>)
    requires pos <= |buf| && i <= 16
    ensures var r := LazyKids(buf, pos, bitmap, i, lens);
      r.Parsed? ==> |r.read.value| == 16 - i && forall k :: 0 <= k < |r.read.value| ==> LeftRaw(buf, r.read.value[k])
    decreases 16 - i
  {
    hide LazyNode, ExtractRef, Bit;
    if i < 16 {
      if !Bit(bitmap, i) {
        KidsStayRaw(buf, pos, bitmap, i + 1, lens);
      } else if pos < |buf| && lens != [] {
        if buf[pos] == 1 || buf[pos] == 2 || buf[pos] == 3 {
          if pos + lens[0] <= |buf| {
            KidsStayRaw(buf, pos + lens[0], bitmap, i + 1, lens[1..]);
          }
        } else {
          OtherKinds(buf, pos);
          var kid := LazyNode(buf, pos);
          if kid.Parsed? {
            KidsStayRaw(buf, kid.read.pos, bitmap, i + 1, lens[1..]);
          }
        }
      }
    }
  }

  lemma OtherKinds(buf: Bytes, pos: nat)
    requires pos < |buf| && buf[pos] != 1 && buf[pos] != 2 && buf[pos] != 3
    ensures var r := LazyNode(buf, pos); r.Parsed? ==> LeftRaw(buf, r.read.value)
  {
    hide TakePath, TakeRef, TakeLeaf, LazyKids;
    TagAt(buf, pos, buf[pos]);
  }
}

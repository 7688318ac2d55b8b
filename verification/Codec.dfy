/** The record codec: writing a subtree, its allocation-free size, the eager reader, and
    the lazy reader that leaves branch children as raw slices of the record.

    The storage root and reference cached in an account node are functions of its other
    fields, recomputed on read, so the node here does not carry them.
 */
module Codec {
  import opened Trie
  import opened CursorOrder

  datatype NRef = HashRef(hash: Bytes) | InlineRef(rlp: Bytes)

  datatype CNode =
    | CEmpty
    | CLeaf(path: Path, value: Bytes, nref: NRef)
    | CExtension(path: Path, child: CNode, nref: NRef)
    | CBranch(children: seq<CNode>, nref: NRef)            // an absent slot is CEmpty
    | COverflow(unit: nat, len: nat, root: Bytes)
    | CAccount(path: Path, nonce: nat, balance: nat, codeHash: Bytes, storage: CNode)
    | CRaw(buf: Bytes, off: nat, len: nat, nref: NRef)   // still serialised

  const MAX_PATH: nat := 128
  const U32: nat := 0x1_0000_0000

  // ---------------------------------------------------------------------- writing

  /** `k` bytes of a number, least significant first; and most significant first. */
  function Le(n: nat, k: nat): (b: Bytes)
    ensures |b| == k
    decreases k
  {
    if k == 0 then [] else [n % 256] + Le(n / 256, k - 1)
  }

  function Be(n: nat, k: nat): (b: Bytes)
    ensures |b| == k
    decreases k
  {
    if k == 0 then [] else Be(n / 256, k - 1) + [n % 256]
  }

  function FromLe(b: Bytes): nat {
    if b == [] then 0 else (b[0] as int) + 256 * FromLe(b[1..])
  }

  lemma {:induction false} LeRoundTrip(n: nat, k: nat)
    requires n < Pow(256, k)
    ensures FromLe(Le(n, k)) == n
    decreases k
  {
    if k > 0 {
      assert n / 256 < Pow(256, k - 1);
      LeRoundTrip(n / 256, k - 1);
      assert Le(n, k)[1..] == Le(n / 256, k - 1);
    }
  }

  lemma {:induction false} BeRoundTrip(n: nat, k: nat)
    requires n < Pow(256, k)
    ensures Val(256, Be(n, k)) == n
    decreases k
  {
    if k > 0 {
      assert n / 256 < Pow(256, k - 1);
      BeRoundTrip(n / 256, k - 1);
      assert Be(n, k)[..k - 1] == Be(n / 256, k - 1);
    }
  }

  function PackNibbles(p: Path): (b: Bytes)
    ensures |b| == (|p| + 1) / 2
  {
    if p == [] then []
    else if |p| == 1 then [16 * (p[0] as int)]
    else [16 * (p[0] as int) + (p[1] as int)] + PackNibbles(p[2..])
  }

  function UnpackNibbles(b: Bytes, len: nat): (p: Path)
    requires |b| == (len + 1) / 2
    ensures |p| == len
  {
    if len == 0 then []
    else if len == 1 then [(b[0] as int) / 16]
    else [(b[0] as int) / 16, (b[0] as int) % 16] + UnpackNibbles(b[1..], len - 2)
  }

  lemma {:induction false} NibblesRoundTrip(p: Path)
    ensures UnpackNibbles(PackNibbles(p), |p|) == p
  {
    if |p| >= 2 {
      NibblesRoundTrip(p[2..]);
      var b := PackNibbles(p);
      assert b[1..] == PackNibbles(p[2..]) && (b[0] as int) == 16 * (p[0] as int) + (p[1] as int);
      assert UnpackNibbles(b, |p|) == [p[0], p[1]] + UnpackNibbles(b[1..], |p| - 2);
      hide PackNibbles, UnpackNibbles;
      assert p == [p[0], p[1]] + p[2..];
    }
  }

  /** A length byte, then two nibbles a byte. */
  function EncodePath(p: Path): (b: Bytes)
    ensures |b| == 1 + (|p| + 1) / 2
  {
    Le(|p|, 1) + PackNibbles(p)
  }

  function EncodeRef(r: NRef): Bytes {
    match r
    case HashRef(hash) => [0] + hash
    case InlineRef(rlp) => [1] + (Le(|rlp|, 1) + rlp)
  }

  predicate RefOk(r: NRef) {
    match r case HashRef(hash) => |hash| == 32 case InlineRef(rlp) => |rlp| < 32
  }

  /** Which slots are taken, lowest first, as a number. */
  function Bitmap(children: seq<CNode>): (b: nat)
    ensures b < Pow(2, |children|)
  {
    if children == [] then 0 else (if children[0] != CEmpty then 1 else 0) + 2 * Bitmap(children[1..])
  }

  function Bit(b: nat, i: nat): bool {
    if i == 0 then b % 2 == 1 else Bit(b / 2, i - 1)
  }

  function Ones(b: nat, i: nat): nat {
    if i == 0 then 0 else b % 2 + Ones(b / 2, i - 1)
  }

  lemma {:induction false} BitmapBits(children: seq<CNode>, i: nat)
    requires i < |children|
    ensures Bit(Bitmap(children), i) <==> children[i] != CEmpty
  {
    assert Bitmap(children) / 2 == Bitmap(children[1..]) && (Bitmap(children) % 2 == 1 <==> children[0] != CEmpty);
    hide Bitmap;
    if i > 0 {
      BitmapBits(children[1..], i - 1);
    }
  }

  lemma {:induction false} BitmapOnes(children: seq<CNode>)
    ensures Ones(Bitmap(children), |children|) == Present(children)
  {
    if children != [] {
      BitmapOnes(children[1..]);
    }
  }

  function Present(children: seq<CNode>): nat {
    if children == [] then 0 else (if children[0] != CEmpty then 1 else 0) + Present(children[1..])
  }

  /** The bytes of a node.  A branch puts a table of its children's lengths before them. */
  function Encode(n: CNode): Bytes
    decreases n
  {
    match n
    case CEmpty => [0]
    case CLeaf(path, value, nref) => [1] + (EncodePath(path) + (Le(|value|, 4) + (value + EncodeRef(nref))))
    case CExtension(path, child, nref) => [2] + (EncodePath(path) + (EncodeRef(nref) + Encode(child)))
    case CBranch(children, nref) =>
      [3] + (Le(Bitmap(children), 2) + (EncodeRef(nref) + (Table(children) + Kids(children))))
    case COverflow(unit, len, root) => [4] + (Le(unit, 4) + (Le(len, 4) + root))
    case CAccount(path, nonce, balance, codeHash, storage) =>
      [5] + (EncodePath(path) + (Le(nonce, 8) + (Be(balance, 32) + (codeHash + Encode(storage)))))
    case CRaw(buf, off, len, _) => if off + len <= |buf| then buf[off..off + len] else []
  }

  function Table(children: seq<CNode>): (b: Bytes)
    ensures |b| == 4 * Present(children)
    decreases children
  {
    if children == [] then []
    else (if children[0] != CEmpty then Le(|Encode(children[0])|, 4) else []) + Table(children[1..])
  }

  function Kids(children: seq<CNode>): Bytes
    decreases children
  {
    if children == [] then []
    else (if children[0] != CEmpty then Encode(children[0]) else []) + Kids(children[1..])
  }

  /** A node the format can hold, with no raw part. */
  predicate Storable(n: CNode)
    decreases n
  {
    && !n.CRaw?
    && (n.CLeaf? ==> |n.path| <= MAX_PATH && |n.value| < U32 && RefOk(n.nref))
    && (n.CExtension? ==> |n.path| <= MAX_PATH && RefOk(n.nref) && Storable(n.child))
    && (n.CBranch? ==>
      && |n.children| == 16 && RefOk(n.nref)
      && forall i :: 0 <= i < |n.children| ==> Storable(n.children[i]) && |Encode(n.children[i])| < U32)
    && (n.COverflow? ==> n.unit < U32 && n.len < U32 && |n.root| == 32)
    && (n.CAccount? ==>
      |n.path| <= MAX_PATH && n.nonce < Pow(256, 8) && n.balance < Pow(256, 32) && |n.codeHash| == 32 && Storable(n.storage))
  }

  // ------------------------------------------------------------------------ sizes

  function RefSize(r: NRef): nat {
    1 + match r case HashRef(_) => 32 case InlineRef(rlp) => 1 + |rlp|
  }

  /** The size pass: no bytes are built. */
  function NodeSize(n: CNode): nat
    decreases n
  {
    match n
    case CEmpty => 1
    case CLeaf(path, value, nref) => 1 + (1 + (|path| + 1) / 2) + 4 + |value| + RefSize(nref)
    case CExtension(path, child, nref) => 1 + (1 + (|path| + 1) / 2) + RefSize(nref) + NodeSize(child)
    case CBranch(children, nref) => 1 + 2 + RefSize(nref) + Present(children) * 4 + KidsSize(children)
    case COverflow(_, _, _) => 1 + 4 + 4 + 32
    case CAccount(path, _, _, _, storage) => 1 + (1 + (|path| + 1) / 2) + 8 + 32 + 32 + NodeSize(storage)
    case CRaw(_, _, len, _) => len
  }

  function KidsSize(children: seq<CNode>): nat
    decreases children
  {
    if children == [] then 0 else (if children[0] != CEmpty then NodeSize(children[0]) else 0) + KidsSize(children[1..])
  }

  /** A node whose parts have the widths the format gives them; raw slices are in range. */
  predicate Sized(n: CNode)
    decreases n
  {
    && (n.CLeaf? ==> RefOk(n.nref))
    && (n.CExtension? ==> RefOk(n.nref) && Sized(n.child))
    && (n.CBranch? ==> RefOk(n.nref) && forall i :: 0 <= i < |n.children| ==> Sized(n.children[i]))
    && (n.COverflow? ==> |n.root| == 32)
    && (n.CAccount? ==> |n.codeHash| == 32 && Sized(n.storage))
    && (n.CRaw? ==> n.off + n.len <= |n.buf|)
  }

  /** The size pass predicts exactly the length of the bytes written, raw parts included. */
  lemma {:induction false} SizeIsExact(n: CNode)
    requires Sized(n)
    ensures NodeSize(n) == |Encode(n)|
    decreases n
  {
    match n
    case CExtension(_, child, _) => SizeIsExact(child);
    case CBranch(children, _) => KidsSizeIsExact(children);
    case CAccount(_, _, _, _, storage) => SizeIsExact(storage);
    case _ =>
  }

  lemma {:induction false} KidsSizeIsExact(children: seq<CNode>)
    requires forall i :: 0 <= i < |children| ==> Sized(children[i])
    ensures KidsSize(children) == |Kids(children)|
    decreases children
  {
    if children != [] {
      SizeIsExact(children[0]);
      KidsSizeIsExact(children[1..]);
    }
  }

  // ---------------------------------------------------------------------- reading

  /** A value and the position behind it. */
  datatype Read<+T> = Read(value: T, pos: nat)

  /** The outcome of reading at a position. */
  datatype Parse<+T> = Parsed(read: Read<T>) | Broken

  function Take(buf: Bytes, pos: nat, len: nat): (r: Parse<Bytes>)
    ensures r.Parsed? ==> r.read.pos == pos + len <= |buf| && |r.read.value| == len
  {
    if pos + len > |buf| then Broken else Parsed(Read(buf[pos..pos + len], pos + len))
  }

  function TakeLe(buf: Bytes, pos: nat, k: nat): (r: Parse<nat>)
    ensures r.Parsed? ==> r.read.pos == pos + k <= |buf|
  {
    var bAt := Take(buf, pos, k);
    if bAt.Broken? then Broken else
    var b := bAt.read;
    Parsed(Read(FromLe(b.value), b.pos))
  }

  function TakePath(buf: Bytes, pos: nat): (r: Parse<Path>)
    ensures r.Parsed? ==> pos < r.read.pos <= |buf|
  {
    var lenAt := TakeLe(buf, pos, 1);
    if lenAt.Broken? then Broken else
    var len := lenAt.read;
    if len.value > MAX_PATH then Broken
    else
      var bAt := Take(buf, len.pos, (len.value + 1) / 2);
      if bAt.Broken? then Broken else
      var b := bAt.read;
      Parsed(Read(UnpackNibbles(b.value, len.value), b.pos))
  }

  function TakeRef(buf: Bytes, pos: nat): (r: Parse<NRef>)
    ensures r.Parsed? ==> pos < r.read.pos <= |buf|
  {
    var tagAt := TakeLe(buf, pos, 1);
    if tagAt.Broken? then Broken else
    var tag := tagAt.read;
    if tag.value == 0 then
      var hashAt := Take(buf, tag.pos, 32);
      if hashAt.Broken? then Broken else
      var hash := hashAt.read;
      Parsed(Read(HashRef(hash.value), hash.pos))
    else if tag.value == 1 then
      var lenAt := TakeLe(buf, tag.pos, 1);
      if lenAt.Broken? then Broken else
      var len := lenAt.read;
      var rlpAt := Take(buf, len.pos, len.value);
      if rlpAt.Broken? then Broken else
      var rlp := rlpAt.read;
      Parsed(Read(InlineRef(rlp.value), rlp.pos))
    else Broken
  }

  /** The tags whose body both readers parse alike. */
  function TakeLeaf(buf: Bytes, pos: nat): (r: Parse<CNode>)
    ensures r.Parsed? ==> pos < r.read.pos <= |buf|
  {
    var pathAt := TakePath(buf, pos);
    if pathAt.Broken? then Broken else
    var path := pathAt.read;
    var lenAt := TakeLe(buf, path.pos, 4);
    if lenAt.Broken? then Broken else
    var len := lenAt.read;
    var valueAt := Take(buf, len.pos, len.value);
    if valueAt.Broken? then Broken else
    var value := valueAt.read;
    var nrefAt := TakeRef(buf, value.pos);
    if nrefAt.Broken? then Broken else
    var nref := nrefAt.read;
    Parsed(Read(CLeaf(path.value, value.value, nref.value), nref.pos))
  }

  function TakeOverflow(buf: Bytes, pos: nat): (r: Parse<CNode>)
    ensures r.Parsed? ==> pos < r.read.pos <= |buf|
  {
    var unitAt := TakeLe(buf, pos, 4);
    if unitAt.Broken? then Broken else
    var unit := unitAt.read;
    var lenAt := TakeLe(buf, unit.pos, 4);
    if lenAt.Broken? then Broken else
    var len := lenAt.read;
    var rootAt := Take(buf, len.pos, 32);
    if rootAt.Broken? then Broken else
    var root := rootAt.read;
    Parsed(Read(COverflow(unit.value, len.value, root.value), root.pos))
  }

  datatype AccountHead = AccountHead(path: Path, nonce: nat, balance: nat, codeHash: Bytes)

  function TakeAccountHead(buf: Bytes, pos: nat): (r: Parse<AccountHead>)
    ensures r.Parsed? ==> pos < r.read.pos <= |buf|
  {
    var pathAt := TakePath(buf, pos);
    if pathAt.Broken? then Broken else
    var path := pathAt.read;
    var nonceAt := TakeLe(buf, path.pos, 8);
    if nonceAt.Broken? then Broken else
    var nonce := nonceAt.read;
    var balanceAt := Take(buf, nonce.pos, 32);
    if balanceAt.Broken? then Broken else
    var balance := balanceAt.read;
    var codeHashAt := Take(buf, balance.pos, 32);
    if codeHashAt.Broken? then Broken else
    var codeHash := codeHashAt.read;
    Parsed(Read(AccountHead(path.value, nonce.value, Val(256, balance.value), codeHash.value), codeHash.pos))
  }

  /** The eager reader: the whole subtree at `pos`; it skips the length tables. */
  function ReadNode(buf: Bytes, pos: nat): (r: Parse<CNode>)
    requires pos <= |buf|
    ensures r.Parsed? ==> pos < r.read.pos <= |buf|
    decreases |buf| - pos, 0
  {
    var tagAt := TakeLe(buf, pos, 1);
    if tagAt.Broken? then Broken else
    var tag := tagAt.read;
    if tag.value == 0 then Parsed(Read(CEmpty, tag.pos))
    else if tag.value == 1 then TakeLeaf(buf, tag.pos)
    else if tag.value == 2 then
      var pathAt := TakePath(buf, tag.pos);
      if pathAt.Broken? then Broken else
      var path := pathAt.read;
      var nrefAt := TakeRef(buf, path.pos);
      if nrefAt.Broken? then Broken else
      var nref := nrefAt.read;
      var childAt := ReadNode(buf, nref.pos);
      if childAt.Broken? then Broken else
      var child := childAt.read;
      Parsed(Read(CExtension(path.value, child.value, nref.value), child.pos))
    else if tag.value == 3 then
      var bitmapAt := TakeLe(buf, tag.pos, 2);
      if bitmapAt.Broken? then Broken else
      var bitmap := bitmapAt.read;
      var nrefAt := TakeRef(buf, bitmap.pos);
      if nrefAt.Broken? then Broken else
      var nref := nrefAt.read;
      var tableAt := Take(buf, nref.pos, Ones(bitmap.value, 16) * 4);
      if tableAt.Broken? then Broken else
      var table := tableAt.read;
      var kidsAt := ReadKids(buf, table.pos, bitmap.value, 0);
      if kidsAt.Broken? then Broken else
      var kids := kidsAt.read;
      Parsed(Read(CBranch(kids.value, nref.value), kids.pos))
    else if tag.value == 4 then TakeOverflow(buf, tag.pos)
    else if tag.value == 5 then
      var headAt := TakeAccountHead(buf, tag.pos);
      if headAt.Broken? then Broken else
      var head := headAt.read;
      var storageAt := ReadNode(buf, head.pos);
      if storageAt.Broken? then Broken else
      var storage := storageAt.read;
      Parsed(Read(CAccount(head.value.path, head.value.nonce, head.value.balance, head.value.codeHash, storage.value), storage.pos))
    else Broken
  }

  function ReadKids(buf: Bytes, pos: nat, bitmap: nat, i: nat): (r: Parse<seq<CNode>>)
    requires pos <= |buf| && i <= 16
    ensures r.Parsed? ==> pos <= r.read.pos <= |buf|
    decreases |buf| - pos, 17 - i
  {
    if i == 16 then Parsed(Read([], pos))
    else if !Bit(bitmap, i) then
      var restAt := ReadKids(buf, pos, bitmap, i + 1);
      if restAt.Broken? then Broken else
      var rest := restAt.read;
      Parsed(Read([CEmpty] + rest.value, rest.pos))
    else
      var kidAt := ReadNode(buf, pos);
      if kidAt.Broken? then Broken else
      var kid := kidAt.read;
      var restAt := ReadKids(buf, kid.pos, bitmap, i + 1);
      if restAt.Broken? then Broken else
      var rest := restAt.read;
      Parsed(Read([kid.value] + rest.value, rest.pos))
  }

  /** The reference in a node's header, without parsing below it. */
  function ExtractRef(bytes: Bytes): (r: Parse<NRef>) {
    var tagAt := TakeLe(bytes, 0, 1);
    if tagAt.Broken? then Broken else
    var tag := tagAt.read;
    if tag.value == 1 then
      var pathAt := TakePath(bytes, tag.pos);
      if pathAt.Broken? then Broken else
      var path := pathAt.read;
      var lenAt := TakeLe(bytes, path.pos, 4);
      if lenAt.Broken? then Broken else
      var len := lenAt.read;
      var valueAt := Take(bytes, len.pos, len.value);
      if valueAt.Broken? then Broken else
      var value := valueAt.read;
      TakeRef(bytes, value.pos)
    else if tag.value == 2 then
      var pathAt := TakePath(bytes, tag.pos);
      if pathAt.Broken? then Broken else
      var path := pathAt.read;
      TakeRef(bytes, path.pos)
    else if tag.value == 3 then
      var bitmapAt := TakeLe(bytes, tag.pos, 2);
      if bitmapAt.Broken? then Broken else
      var bitmap := bitmapAt.read;
      TakeRef(bytes, bitmap.pos)
    else Broken
  }

  /** The lazy reader: branch children that are leaves, extensions or branches stay raw
      slices, found through the length table. */
  function LazyNode(buf: Bytes, pos: nat): (r: Parse<CNode>)
    requires pos <= |buf|
    ensures r.Parsed? ==> pos < r.read.pos <= |buf|
    decreases |buf| - pos, 0
  {
    var tagAt := TakeLe(buf, pos, 1);
    if tagAt.Broken? then Broken else
    var tag := tagAt.read;
    if tag.value == 0 then Parsed(Read(CEmpty, tag.pos))
    else if tag.value == 1 then TakeLeaf(buf, tag.pos)
    else if tag.value == 2 then
      var pathAt := TakePath(buf, tag.pos);
      if pathAt.Broken? then Broken else
      var path := pathAt.read;
      var nrefAt := TakeRef(buf, path.pos);
      if nrefAt.Broken? then Broken else
      var nref := nrefAt.read;
      var childAt := LazyNode(buf, nref.pos);
      if childAt.Broken? then Broken else
      var child := childAt.read;
      Parsed(Read(CExtension(path.value, child.value, nref.value), child.pos))
    else if tag.value == 3 then
      var bitmapAt := TakeLe(buf, tag.pos, 2);
      if bitmapAt.Broken? then Broken else
      var bitmap := bitmapAt.read;
      var nrefAt := TakeRef(buf, bitmap.pos);
      if nrefAt.Broken? then Broken else
      var nref := nrefAt.read;
      var lensAt := TakeLens(buf, nref.pos, Ones(bitmap.value, 16));
      if lensAt.Broken? then Broken else
      var lens := lensAt.read;
      var kidsAt := LazyKids(buf, lens.pos, bitmap.value, 0, lens.value);
      if kidsAt.Broken? then Broken else
      var kids := kidsAt.read;
      Parsed(Read(CBranch(kids.value, nref.value), kids.pos))
    else if tag.value == 4 then TakeOverflow(buf, tag.pos)
    else if tag.value == 5 then
      var headAt := TakeAccountHead(buf, tag.pos);
      if headAt.Broken? then Broken else
      var head := headAt.read;
      var storageAt := LazyNode(buf, head.pos);
      if storageAt.Broken? then Broken else
      var storage := storageAt.read;
      Parsed(Read(CAccount(head.value.path, head.value.nonce, head.value.balance, head.value.codeHash, storage.value), storage.pos))
    else Broken
  }

  function TakeLens(buf: Bytes, pos: nat, n: nat): (r: Parse<seq<nat>>)
    requires pos <= |buf|
    ensures r.Parsed? ==> pos <= r.read.pos <= |buf| && |r.read.value| == n
    decreases n
  {
    if n == 0 then Parsed(Read([], pos))
    else
      var lenAt := TakeLe(buf, pos, 4);
      if lenAt.Broken? then Broken else
      var len := lenAt.read;
      var restAt := TakeLens(buf, len.pos, n - 1);
      if restAt.Broken? then Broken else
      var rest := restAt.read;
      Parsed(Read([len.value] + rest.value, rest.pos))
  }

  function LazyKids(buf: Bytes, pos: nat, bitmap: nat, i: nat, lens: seq<nat>): (r: Parse<seq<CNode>>)
    requires pos <= |buf| && i <= 16
    ensures r.Parsed? ==> pos <= r.read.pos <= |buf|
    decreases |buf| - pos, 17 - i
  {
    if i == 16 then Parsed(Read([], pos))
    else if !Bit(bitmap, i) then
      var restAt := LazyKids(buf, pos, bitmap, i + 1, lens);
      if restAt.Broken? then Broken else
      var rest := restAt.read;
      Parsed(Read([CEmpty] + rest.value, rest.pos))
    else if pos == |buf| || lens == [] then Broken
    else if buf[pos] == 1 || buf[pos] == 2 || buf[pos] == 3 then
      if pos + lens[0] > |buf| then Broken
      else
        var nrefAt := ExtractRef(buf[pos..pos + lens[0]]);
        if nrefAt.Broken? then Broken else
        var nref := nrefAt.read;
        var restAt := LazyKids(buf, pos + lens[0], bitmap, i + 1, lens[1..]);
        if restAt.Broken? then Broken else
        var rest := restAt.read;
        Parsed(Read([CRaw(buf, pos, lens[0], nref.value)] + rest.value, rest.pos))
    else
      var kidAt := LazyNode(buf, pos);
      if kidAt.Broken? then Broken else
      var kid := kidAt.read;
      var restAt := LazyKids(buf, kid.pos, bitmap, i + 1, lens[1..]);
      if restAt.Broken? then Broken else
      var rest := restAt.read;
      Parsed(Read([kid.value] + rest.value, rest.pos))
  }

  /** Expand a raw slice one level; it must be used up exactly. */
  function ParseLazy(buf: Bytes, off: nat, len: nat): (r: Parse<CNode>)
    requires off <= |buf|
  {
    var nAt := LazyNode(buf, off);
    if nAt.Broken? then Broken else
    var n := nAt.read;
    if n.pos == off + len then Parsed(n) else Broken
  }
}

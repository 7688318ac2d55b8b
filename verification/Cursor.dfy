/** Ordered leaf cursors as stateless successor walks: a seek descends from the root with
    one path buffer that it pushes and pops, and `next` seeks the successor of the last
    key it returned.
 */
module Cursor {
  import opened Trie
  import opened TrieLaws
  import opened TrieHistory
  import opened TrieRoot
  import opened Frontier
  import opened FrontierFlatten
  import opened FrontierInvariants
  import opened CursorOrder

  /** What a seek surfaces of a leaf. */
  datatype LeafOut = AccountOut(nonce: nat, balance: nat, codeHash: Bytes, storageRoot: Bytes) | ValueOut(bytes: Bytes)

  datatype Found = Found(path: Path, out: LeafOut)

  function Shown(cr: Crypto, item: Item): LeafOut {
    match item
    case Value(bytes) => ValueOut(bytes)
    case Account(nonce, balance, codeHash, storage) => AccountOut(nonce, balance, codeHash, Root(cr, storage))
  }

  // ------------------------------------------------------------------ least keys

  ghost predicate Stored(n: Node, len: nat, k: Path) {
    |k| == len && Get(n, k).Some?
  }

  ghost predicate Admits(from: Option<Path>, k: Path) {
    from.Some? ==> !Less(k, from.value)
  }

  /** `hit` is the least stored key not below `from`, or there is none. */
  ghost predicate LeastFrom(n: Node, len: nat, from: Option<Path>, hit: Option<Path>) {
    if hit.None? then forall k: Path :: Stored(n, len, k) ==> !Admits(from, k)
    else
      && Stored(n, len, hit.value) && Admits(from, hit.value)
      && forall k: Path :: Stored(n, len, k) && Admits(from, k) ==> !Less(k, hit.value)
  }

  lemma {:induction false} LessConcat(p: Path, a: Path, q: Path, b: Path)
    requires |p| == |q|
    ensures Less(p + a, q + b) <==> Less(p, q) || (p == q && Less(a, b))
  {
    if p == [] {
      assert p + a == a && q + b == b;
    } else {
      assert (p + a)[1..] == p[1..] + a && (q + b)[1..] == q[1..] + b;
      LessConcat(p[1..], a, q[1..], b);
      assert p == [p[0]] + p[1..] && q == [q[0]] + q[1..];
    }
  }

  lemma {:induction false} LessTotal(a: Path, b: Path)
    requires |a| == |b|
    ensures Less(a, b) || Less(b, a) || a == b
  {
    if a != [] {
      LessTotal(a[1..], b[1..]);
      assert a == [a[0]] + a[1..] && b == [b[0]] + b[1..];
    }
  }

  function Put(p: Path, hit: Option<Path>): Option<Path> {
    if hit.Some? then Some(p + hit.value) else None
  }

  /** The part of a target left below `p`: the whole subtree when it lies above. */
  ghost function Below(p: Path, from: Option<Path>): Option<Path>
    requires from.Some? ==> |p| <= |from.value|
  {
    if from.Some? && p == from.value[..|p|] then Some(from.value[|p|..]) else None
  }

  lemma AdmitsUnder(p: Path, from: Option<Path>, k: Path)
    requires from.Some? ==> |from.value| == |p| + |k|
    ensures Admits(from, p + k) <==> from.None? || (!Less(p, from.value[..|p|]) && Admits(Below(p, from), k))
  {
    if from.Some? {
      var t := from.value;
      assert t == t[..|p|] + t[|p|..];
      LessConcat(p, k, t[..|p|], t[|p|..]);
      LessTotal(p, t[..|p|]);
      LessIrreflexive(p, t[..|p|]);
    }
  }

  lemma StoredUnder(n: Node, p: Path, c: Node, len: nat, k: Path)
    requires |p| <= len && (forall q: Path :: Get(n, q) == if p <= q then Get(c, q[|p|..]) else None)
    ensures Stored(n, len, k) <==> p <= k && Stored(c, len - |p|, k[|p|..])
  {
  }

  lemma UnderKey(n: Node, p: Path, c: Node, len: nat, from: Option<Path>, k: Path)
    requires |p| <= len && (from.Some? ==> |from.value| == len && !Less(p, from.value[..|p|]))
    requires forall q: Path :: Get(n, q) == if p <= q then Get(c, q[|p|..]) else None
    ensures Stored(n, len, p + k) <==> Stored(c, len - |p|, k)
    ensures |p + k| == len ==> (Admits(from, p + k) <==> Admits(Below(p, from), k))
  {
    hide Get, Less, Below;
    assert (p + k)[|p|..] == k;
    StoredUnder(n, p, c, len, p + k);
    if |p + k| == len {
      AdmitsUnder(p, from, k);
      assert from.None? ==> Below(p, from).None? by { BelowNone(p); }
    }
  }

  lemma BelowNone(p: Path)
    ensures Below(p, None) == None
  {
  }

  /** A node all of whose keys run through one child. */
  lemma LeastUnder(n: Node, p: Path, c: Node, len: nat, from: Option<Path>, hit: Option<Path>)
    requires |p| <= len && (from.Some? ==> |from.value| == len && !Less(p, from.value[..|p|]))
    requires forall q: Path :: Get(n, q) == if p <= q then Get(c, q[|p|..]) else None
    requires LeastFrom(c, len - |p|, Below(p, from), hit)
    ensures LeastFrom(n, len, from, Put(p, hit))
  {
    hide Get, Less, Below, Admits;
    if hit.Some? {
      UnderKey(n, p, c, len, from, hit.value);
    }
    forall k: Path | Stored(n, len, k) && Admits(from, k)
      ensures hit.Some? && !Less(k, p + hit.value) {
      StoredUnder(n, p, c, len, k);
      var rest := k[|p|..];
      assert k == p + rest;
      UnderKey(n, p, c, len, from, rest);
      assert Stored(c, len - |p|, rest) && Admits(Below(p, from), rest);
      LessConcat(p, rest, p, hit.value);
      LessIrreflexive(p, p);
    }
  }

  lemma NoneUnder(n: Node, p: Path, c: Node, len: nat, t: Path)
    requires |p| <= len == |t| && Less(p, t[..|p|])
    requires forall q: Path :: Get(n, q) == if p <= q then Get(c, q[|p|..]) else None
    ensures LeastFrom(n, len, Some(t), None)
  {
    hide Get;
    forall k: Path | Stored(n, len, k) ensures !Admits(Some(t), k) {
      StoredUnder(n, p, c, len, k);
      assert k == p + k[|p|..];
      AdmitsUnder(p, Some(t), k[|p|..]);
    }
  }

  lemma LeastLeaf(path: Path, item: Item, from: Option<Path>)
    ensures LeastFrom(Leaf(path, item), |path|, from, if Admits(from, path) then Some(path) else None)
  {
    LessIrreflexive(path, path);
  }

  // ------------------------------------------------------------------- branches

  /** No stored key with a first nibble below `i` is admitted. */
  ghost predicate Passed(children: seq<Node>, len: nat, from: Option<Path>, i: nat) {
    forall k: Path :: Stored(Branch(children), len, k) && k[0] < i ==> !Admits(from, k)
  }

  lemma PassedStart(children: seq<Node>, len: nat, from: Option<Path>)
    requires |children| == 16 && 0 < len && (from.Some? ==> |from.value| == len)
    ensures Passed(children, len, from, if from.Some? then from.value[0] else 0)
  {
  }

  lemma StoredChild(children: seq<Node>, len: nat, k: Path)
    requires |children| == 16 && 0 < len
    ensures Stored(Branch(children), len, k) <==> |k| == len && k == [k[0]] + k[1..] && Stored(children[k[0]], len - 1, k[1..])
  {
  }

  lemma PassedNext(children: seq<Node>, len: nat, from: Option<Path>, i: Nibble)
    requires |children| == 16 && 0 < len && (from.Some? ==> |from.value| == len && from.value[0] <= i)
    requires Passed(children, len, from, i) && LeastFrom(children[i], len - 1, Below([i], from), None)
    ensures Passed(children, len, from, i + 1)
  {
    hide Get;
    forall k: Path | Stored(Branch(children), len, k) && k[0] < i + 1 ensures !Admits(from, k) {
      if k[0] == i {
        StoredChild(children, len, k);
        NibbleOnPath(i, from);
        AdmitsUnder([i], from, k[1..]);
      }
    }
  }

  lemma NibbleOnPath(i: Nibble, from: Option<Path>)
    requires from.Some? ==> from.value != [] && from.value[0] <= i
    ensures from.Some? ==> !Less([i], from.value[..1])
  {
  }

  lemma PassedHit(children: seq<Node>, len: nat, from: Option<Path>, i: Nibble, h: Path)
    requires |children| == 16 && 0 < len && (from.Some? ==> |from.value| == len && from.value[0] <= i)
    requires Passed(children, len, from, i) && LeastFrom(children[i], len - 1, Below([i], from), Some(h))
    ensures LeastFrom(Branch(children), len, from, Some([i] + h))
  {
    hide Get;
    NibbleOnPath(i, from);
    StoredChild(children, len, [i] + h);
    assert ([i] + h)[1..] == h;
    AdmitsUnder([i], from, h);
    forall k: Path | Stored(Branch(children), len, k) && Admits(from, k) ensures !Less(k, [i] + h) {
      StoredChild(children, len, k);
      if k[0] == i {
        AdmitsUnder([i], from, k[1..]);
        LessConcat([i], k[1..], [i], h);
        LessIrreflexive([i], [i]);
      }
    }
  }

  lemma PassedAll(children: seq<Node>, len: nat, from: Option<Path>)
    requires Passed(children, len, from, 16) && 0 < len
    ensures LeastFrom(Branch(children), len, from, None)
  {
  }

  // ----------------------------------------------------------------------- walks

  datatype Rel = OnPath | AllGreater | AllLess

  /** Where the subtree at `prefix` lies relative to the target. */
  function RelOf(prefix: Path, target: Path): Rel {
    var n := if |prefix| < |target| then |prefix| else |target|;
    if Less(prefix[..n], target[..n]) then AllLess
    else if Less(target[..n], prefix[..n]) then AllGreater
    else OnPath
  }

  ghost function From(prefix: Path, target: Path, minMode: bool): Option<Path>
    requires |prefix| <= |target|
  {
    if minMode then None else Some(target[|prefix|..])
  }

  function Rest(hit: Option<Found>, d: nat): Option<Path> {
    if hit.Some? && d <= |hit.value.path| then Some(hit.value.path[d..]) else None
  }

  /** A walk at `prefix` found the least admitted leaf of the subtree, as an absolute path. */
  ghost predicate SeekOk(n: Node, prefix: Path, target: Path, minMode: bool, hit: Option<Found>)
    requires |prefix| <= |target|
  {
    && (hit.Some? ==> prefix <= hit.value.path)
    && LeastFrom(n, |target| - |prefix|, From(prefix, target, minMode), Rest(hit, |prefix|))
  }

  /** The leaf surfaced is the one stored. */
  ghost predicate Tells(cr: Crypto, n: Node, d: nat, hit: Option<Found>) {
    hit.Some? ==>
      && d <= |hit.value.path| && Get(n, hit.value.path[d..]).Some?
      && hit.value.out == Shown(cr, Get(n, hit.value.path[d..]).value)
  }

  lemma RelDecides(prefix: Path, path: Path, target: Path)
    requires prefix <= target && |prefix| + |path| <= |target|
    ensures var r, t := RelOf(prefix + path, target), target[|prefix|..][..|path|];
      && (r.AllLess? <==> Less(path, t)) && (r.OnPath? <==> path == t) && (r.OnPath? <==> prefix + path <= target)
  {
    var t := target[|prefix|..][..|path|];
    var n := |prefix| + |path|;
    assert target[..n] == prefix + t && (prefix + path)[..n] == prefix + path;
    LessConcat(prefix, path, prefix, t);
    LessConcat(prefix, t, prefix, path);
    LessIrreflexive(prefix, prefix);
    LessTotal(path, t);
    LessIrreflexive(path, t);
    assert path == t ==> prefix + path == target[..n];
    assert prefix + path == target[..n] ==> (prefix + path)[|prefix|..] == (prefix + t)[|prefix|..];
  }

  lemma SeekLeaf(prefix: Path, path: Path, item: Item, target: Path, minMode: bool, out: LeafOut)
    requires |prefix| + |path| == |target| && (minMode || prefix <= target)
    ensures SeekOk(Leaf(path, item), prefix, target, minMode,
                   if minMode || !Less(prefix + path, target) then Some(Found(prefix + path, out)) else None)
  {
    var from := From(prefix, target, minMode);
    LeastLeaf(path, item, from);
    assert (prefix + path)[|prefix|..] == path;
    if !minMode {
      assert target == prefix + target[|prefix|..];
      LessConcat(prefix, path, prefix, target[|prefix|..]);
      LessIrreflexive(prefix, prefix);
    }
  }

  lemma BelowIsFrom(prefix: Path, path: Path, target: Path, minMode: bool)
    requires |prefix| + |path| <= |target| && (minMode || prefix <= target)
    requires minMode || !RelOf(prefix + path, target).AllLess?
    ensures var from := From(prefix, target, minMode);
      && (from.Some? ==> |from.value| == |target| - |prefix| && !Less(path, from.value[..|path|]))
      && Below(path, from) == From(prefix + path, target, minMode || RelOf(prefix + path, target).AllGreater?)
  {
    hide Less, RelOf;
    if !minMode {
      RelDecides(prefix, path, target);
      assert target[|prefix|..][|path|..] == target[|prefix + path|..];
    }
  }

  lemma SeekThrough(n: Node, prefix: Path, path: Path, c: Node, target: Path, minMode: bool, hit: Option<Found>)
    requires |prefix| + |path| <= |target| && (minMode || prefix <= target)
    requires forall q: Path :: Get(n, q) == if path <= q then Get(c, q[|path|..]) else None
    requires minMode || !RelOf(prefix + path, target).AllLess?
    requires SeekOk(c, prefix + path, target, minMode || RelOf(prefix + path, target).AllGreater?, hit)
    ensures SeekOk(n, prefix, target, minMode, hit)
  {
    hide Get, LeastFrom, RelOf, Below, From, Less;
    var from := From(prefix, target, minMode);
    BelowIsFrom(prefix, path, target, minMode);
    LeastUnder(n, path, c, |target| - |prefix|, from, Rest(hit, |prefix + path|));
    if hit.Some? {
      CutPath(prefix, path, hit.value.path);
    }
  }

  lemma CutPath(prefix: Path, path: Path, q: Path)
    requires prefix + path <= q
    ensures q[|prefix|..] == path + q[|prefix + path|..]
  {
    assert q == (prefix + path) + q[|prefix + path|..];
    assert q == prefix + (path + q[|prefix + path|..]);
  }

  lemma SeekLess(n: Node, prefix: Path, path: Path, c: Node, target: Path)
    requires |prefix| + |path| <= |target| && prefix <= target && RelOf(prefix + path, target).AllLess?
    requires forall q: Path :: Get(n, q) == if path <= q then Get(c, q[|path|..]) else None
    ensures SeekOk(n, prefix, target, false, None)
  {
    hide Get, LeastFrom;
    RelDecides(prefix, path, target);
    NoneUnder(n, path, c, |target| - |prefix|, target[|prefix|..]);
  }

  lemma TellsThrough(cr: Crypto, n: Node, d: nat, path: Path, c: Node, hit: Option<Found>)
    requires forall q: Path :: Get(n, q) == if path <= q then Get(c, q[|path|..]) else None
    requires Tells(cr, c, d + |path|, hit) && (hit.Some? ==> path <= hit.value.path[d..])
    ensures Tells(cr, n, d, hit)
  {
    if hit.Some? {
      assert hit.value.path[d..][|path|..] == hit.value.path[d + |path|..];
    }
  }

  /** One nibble of the branch loop: the child at `i` answers, or is passed. */
  lemma SeekChild(children: seq<Node>, prefix: Path, target: Path, minMode: bool, i: Nibble, hit: Option<Found>)
    requires |children| == 16 && |prefix| < |target| && (minMode || (prefix <= target && target[|prefix|] <= i))
    requires Passed(children, |target| - |prefix|, From(prefix, target, minMode), i)
    requires SeekOk(children[i], prefix + [i], target, minMode || i > target[|prefix|], hit)
    ensures hit.None? ==> Passed(children, |target| - |prefix|, From(prefix, target, minMode), i + 1)
    ensures hit.Some? ==> SeekOk(Branch(children), prefix, target, minMode, hit)
  {
    hide Get, LeastFrom, Passed;
    var from, len := From(prefix, target, minMode), |target| - |prefix|;
    if !minMode {
      var t := target[|prefix|..];
      assert t[0] == target[|prefix|] && t[..1] == [t[0]] && t[1..] == target[|prefix + [i]|..];
    }
    assert Below([i], from) == From(prefix + [i], target, minMode || i > target[|prefix|]);
    if hit.None? {
      PassedNext(children, len, from, i);
    } else {
      PassedHit(children, len, from, i, hit.value.path[|prefix + [i]|..]);
      CutPath(prefix, [i], hit.value.path);
    }
  }

  lemma ExtensionGets(path: Path, c: Node)
    ensures forall q: Path :: Get(Extension(path, c), q) == if path <= q then Get(c, q[|path|..]) else None
  {
  }

  lemma TellsBranch(cr: Crypto, children: seq<Node>, d: nat, i: Nibble, hit: Option<Found>)
    requires |children| == 16 && Tells(cr, children[i], d + 1, hit) && (hit.Some? ==> [i] <= hit.value.path[d..])
    ensures Tells(cr, Branch(children), d, hit)
  {
    if hit.Some? {
      assert hit.value.path[d..][1..] == hit.value.path[d + 1..];
    }
  }

  lemma FrontierShape(cr: Crypto, f: RamNode, len: nat)
    requires RamOk(f, len)
    ensures Canonical(Flatten(f), len)
    ensures f.RExt? ==> Flatten(f) == Extension(f.path, Flatten(f.child)) && |f.path| <= len && RamOk(f.child, len - |f.path|)
    ensures f.RBranch? ==>
      && 0 < len && |f.slots| == 16 && Flatten(f).Branch? && |Flatten(f).children| == 16
      && forall i :: 0 <= i < 16 ==> SlotOk(f.slots[i], len - 1) && Flatten(f).children[i] == FlattenSlot(f.slots[i])
  {
    FlattenOk(f, len);
  }

  lemma HashedShape(cr: Crypto, f: RamNode)
    requires MemoOk(cr, f) && AllHashed(cr, f)
    ensures f.RExt? ==> MemoOk(cr, f.child) && AllHashed(cr, f.child)
    ensures f.RBranch? ==> forall i :: 0 <= i < |f.slots| ==> SlotMemoOk(cr, f.slots[i]) && SlotAllHashed(cr, f.slots[i])
  {
    if f.RBranch? {
      forall i | 0 <= i < |f.slots| ensures SlotAllHashed(cr, f.slots[i]) {
        if f.slots[i] == Free {
          assert SlotAllHashed(cr, Free);
        }
      }
    }
  }

  lemma SeekEmpty(prefix: Path, target: Path, minMode: bool)
    requires |prefix| <= |target|
    ensures SeekOk(Empty, prefix, target, minMode, None)
  {
  }

  lemma EmptyFlattens()
    ensures Flatten(REmpty) == Empty
  {
  }

  lemma TellsLeaf(cr: Crypto, path: Path, item: Item, prefix: Path, target: Path, minMode: bool)
    ensures Tells(cr, Leaf(path, item), |prefix|,
                  if minMode || !Less(prefix + path, target) then Some(Found(prefix + path, Shown(cr, item))) else None)
  {
    assert (prefix + path)[|prefix|..] == path;
  }

  lemma HitUnder(prefix: Path, path: Path, hit: Option<Found>)
    requires hit.Some? ==> prefix + path <= hit.value.path
    ensures hit.Some? ==> path <= hit.value.path[|prefix|..]
  {
    if hit.Some? {
      assert hit.value.path[|prefix|..][..|path|] == hit.value.path[..|prefix + path|][|prefix|..];
    }
  }

  lemma BranchStart(children: seq<Node>, prefix: Path, target: Path, minMode: bool)
    requires |children| == 16 && |prefix| < |target|
    ensures Passed(children, |target| - |prefix|, From(prefix, target, minMode), if minMode then 0 else target[|prefix|])
  {
    PassedStart(children, |target| - |prefix|, From(prefix, target, minMode));
  }

  lemma PassedEmpty(children: seq<Node>, prefix: Path, target: Path, minMode: bool, i: Nibble)
    requires |children| == 16 && |prefix| < |target| && children[i] == Empty && (minMode || (prefix <= target && target[|prefix|] <= i))
    requires Passed(children, |target| - |prefix|, From(prefix, target, minMode), i)
    ensures Passed(children, |target| - |prefix|, From(prefix, target, minMode), i + 1)
  {
    hide Passed;
    SeekEmpty(prefix + [i], target, minMode || i > target[|prefix|]);
    SeekChild(children, prefix, target, minMode, i, None);
  }

  /** The descent of one seek, over the path buffer it pushes and pops. */
  class Walk {
    var prefix: Path

    constructor ()
      ensures prefix == []
    {
      prefix := [];
    }

    method NodeSeek(cr: Crypto, n: Node, target: Path, minMode: bool) returns (hit: Option<Found>)
      requires |prefix| <= |target| && Canonical(n, |target| - |prefix|) && (minMode || prefix <= target)
      modifies this
      ensures prefix == old(prefix) && SeekOk(n, prefix, target, minMode, hit) && Tells(cr, n, |prefix|, hit)
      decreases n
    {
      hide Canonical, LeastFrom, Get, RelOf, Passed, Root;
      ghost var was := prefix;
      var depth := |prefix|;
      match n
      case Empty =>
        hit := None;
        SeekEmpty(prefix, target, minMode);
      case Leaf(path, item) =>
        LeafShape(path, item, |target| - depth);
        prefix := prefix + path;
        hit := if minMode || !Less(prefix, target) then Some(Found(prefix, Shown(cr, item))) else None;
        SeekLeaf(was, path, item, target, minMode, Shown(cr, item));
        TellsLeaf(cr, path, item, was, target, minMode);
        prefix := prefix[..depth];
      case Extension(path, child) =>
        ExtensionShape(path, child, |target| - depth);
        ExtensionGets(path, child);
        prefix := prefix + path;
        var rel := RelOf(prefix, target);
        if !minMode && rel.AllLess? {
          hit := None;
          SeekLess(n, was, path, child, target);
        } else {
          if !minMode {
            RelDecides(was, path, target);
          }
          hit := NodeSeek(cr, child, target, minMode || rel.AllGreater?);
          SeekThrough(n, was, path, child, target, minMode, hit);
          HitUnder(was, path, hit);
          TellsThrough(cr, n, depth, path, child, hit);
        }
        prefix := prefix[..depth];
      case Branch(children) =>
        BranchShape(children, |target| - depth);
        var start: Nibble := if minMode || depth >= |target| then 0 else target[depth];
        BranchStart(children, prefix, target, minMode);
        for i := start to 16
          invariant prefix == was && Passed(children, |target| - depth, From(was, target, minMode), i)
        {
          if children[i] == Empty {
            PassedEmpty(children, was, target, minMode, i);
          } else {
            prefix := prefix + [i];
            hit := NodeSeek(cr, children[i], target, minMode || i > start);
            prefix := prefix[..depth];
            SeekChild(children, was, target, minMode, i, hit);
            HitUnder(was, [i], hit);
            if hit.Some? {
              TellsBranch(cr, children, depth, i, hit);
              return;
            }
          }
        }
        hit := None;
        PassedAll(children, |target| - depth, From(was, target, minMode));
    }

    method RamSeek(cr: Crypto, f: RamNode, target: Path, minMode: bool) returns (hit: Option<Found>)
      requires |prefix| <= |target| && RamOk(f, |target| - |prefix|) && (minMode || prefix <= target)
      modifies this
      ensures prefix == old(prefix) && SeekOk(Flatten(f), prefix, target, minMode, hit)
      ensures MemoOk(cr, f) && AllHashed(cr, f) ==> Tells(cr, Flatten(f), |prefix|, hit)
      decreases f
    {
      hide Canonical, LeastFrom, Get, RelOf, Passed, RamOk, SlotOk, Flatten, FlattenSlot, MemoOk, AllHashed, SlotMemoOk, SlotAllHashed, Root;
      ghost var was := prefix;
      var depth := |prefix|;
      FrontierShape(cr, f, |target| - depth);
      if MemoOk(cr, f) && AllHashed(cr, f) {
        HashedShape(cr, f);
      }
      match f
      case REmpty =>
        hit := None;
        EmptyFlattens();
        SeekEmpty(prefix, target, minMode);
      case RExt(path, child, _) =>
        ExtensionGets(path, Flatten(child));
        prefix := prefix + path;
        var rel := RelOf(prefix, target);
        if !minMode && rel.AllLess? {
          hit := None;
          SeekLess(Flatten(f), was, path, Flatten(child), target);
        } else {
          if !minMode {
            RelDecides(was, path, target);
          }
          hit := RamSeek(cr, child, target, minMode || rel.AllGreater?);
          SeekThrough(Flatten(f), was, path, Flatten(child), target, minMode, hit);
          HitUnder(was, path, hit);
          if MemoOk(cr, f) && AllHashed(cr, f) {
            TellsThrough(cr, Flatten(f), depth, path, Flatten(child), hit);
          }
        }
        prefix := prefix[..depth];
      case RBranch(slots, _) =>
        ghost var children := Flatten(f).children;
        var start: Nibble := if minMode || depth >= |target| then 0 else target[depth];
        BranchStart(children, prefix, target, minMode);
        for i := start to 16
          invariant prefix == was && Passed(children, |target| - depth, From(was, target, minMode), i)
        {
          if slots[i] == Free {
            FreeFlattens();
            PassedEmpty(children, was, target, minMode, i);
          } else {
            prefix := prefix + [i];
            hit := ChildSeek(cr, slots[i], target, minMode || i > start);
            prefix := prefix[..depth];
            SeekChild(children, was, target, minMode, i, hit);
            HitUnder(was, [i], hit);
            if hit.Some? {
              if MemoOk(cr, f) && AllHashed(cr, f) {
                TellsBranch(cr, children, depth, i, hit);
              }
              return;
            }
          }
        }
        hit := None;
        PassedAll(children, |target| - depth, From(was, target, minMode));
    }

    method ChildSeek(cr: Crypto, s: Slot, target: Path, minMode: bool) returns (hit: Option<Found>)
      requires |prefix| <= |target| && SlotOk(s, |target| - |prefix|) && s != Free && (minMode || prefix <= target)
      modifies this
      ensures prefix == old(prefix) && SeekOk(FlattenSlot(s), prefix, target, minMode, hit)
      ensures SlotMemoOk(cr, s) && SlotAllHashed(cr, s) ==> Tells(cr, FlattenSlot(s), |prefix|, hit)
      decreases s
    {
      hide Canonical, LeastFrom, Get, RamOk, Flatten, MemoOk, AllHashed, Root, RamHash;
      match s
      case Ram(sub) => hit := RamSeek(cr, sub, target, minMode);
      case Disk(_, _, rec) => hit := NodeSeek(cr, rec.node, target, minMode);
      case Mem(_, rec) => hit := NodeSeek(cr, rec.node, target, minMode);
      case Promoted(path, nonce, balance, codeHash, storage) =>
        ghost var was := prefix;
        prefix := prefix + path;
        var out := AccountOut(nonce, balance, codeHash, RamHash(cr, storage));
        hit := if minMode || !Less(prefix, target) then Some(Found(prefix, out)) else None;
        ghost var item := Account(nonce, balance, codeHash, Flatten(storage));
        SeekLeaf(was, path, item, target, minMode, out);
        if MemoOk(cr, storage) && AllHashed(cr, storage) {
          HashIsFlatRoot(cr, storage, KEY_NIBBLES);
          TellsLeaf(cr, path, item, was, target, minMode);
        }
        prefix := prefix[..|prefix| - |path|];
    }
  }

  // --------------------------------------------------------------------- cursors

  /** `hit` is the least stored key above `p`, or there is none. */
  ghost predicate LeastAbove(n: Node, p: Path, hit: Option<Path>) {
    if hit.None? then forall k: Path :: Stored(n, |p|, k) ==> !Less(p, k)
    else
      && Stored(n, |p|, hit.value) && Less(p, hit.value)
      && forall k: Path :: Stored(n, |p|, k) && Less(p, k) ==> !Less(k, hit.value)
  }

  lemma SeekSuccessor(n: Node, key: Bytes, succ: Bytes, hit: Option<Path>)
    requires |succ| == |key| && Val(256, succ) == Val(256, key) + 1
    requires LeastFrom(n, 2 * |key|, Some(Nibbles(succ)), hit)
    ensures LeastAbove(n, Nibbles(key), hit)
  {
    hide Get, Less, Nibbles, Val;
    forall k: Path | |k| == 2 * |key| ensures Admits(Some(Nibbles(succ)), k) <==> Less(Nibbles(key), k) {
      SuccessorIsNext(key, succ, k);
    }
  }

  lemma NoSuccessor(n: Node, key: Bytes)
    requires forall i :: 0 <= i < |key| ==> key[i] == 255
    ensures LeastAbove(n, Nibbles(key), None)
  {
    hide Get, Less, Nibbles;
    forall k: Path | Stored(n, 2 * |key|, k) ensures !Less(Nibbles(key), k) {
      LastIsGreatest(key, k);
    }
  }

  datatype CursorEntry = CursorEntry(key: Bytes, out: LeafOut)

  function KeyOf(hit: Option<CursorEntry>): Option<Path> {
    if hit.Some? then Some(Nibbles(hit.value.key)) else None
  }

  /** An ordered cursor over the leaves of a frontier. */
  class AccountCursor {
    const cr: Crypto
    const upper: RamNode
    var last: Option<Bytes>

    ghost predicate Valid()
      reads this
    {
      RamOk(upper, KEY_NIBBLES) && (last.Some? ==> 2 * |last.value| == KEY_NIBBLES)
    }

    constructor (cr: Crypto, upper: RamNode)
      requires RamOk(upper, KEY_NIBBLES)
      ensures Valid() && this.cr == cr && this.upper == upper && last.None?
    {
      this.cr, this.upper, last := cr, upper, None;
    }

    /** The entry of the least key not below `key`. */
    method Seek(key: Bytes) returns (hit: Option<CursorEntry>)
      requires Valid() && 2 * |key| == KEY_NIBBLES
      modifies this
      ensures Valid() && last == if hit.Some? then Some(hit.value.key) else None
      ensures LeastFrom(Flatten(upper), KEY_NIBBLES, Some(Nibbles(key)), KeyOf(hit))
      ensures MemoOk(cr, upper) && AllHashed(cr, upper) && hit.Some? ==>
        Get(Flatten(upper), Nibbles(hit.value.key)).Some? && hit.value.out == Shown(cr, Get(Flatten(upper), Nibbles(hit.value.key)).value)
    {
      hide RamOk, Get, Flatten, LeastFrom, Less, MemoOk, AllHashed, Nibbles, PackKey, Root;
      var walk := new Walk();
      var target := Nibbles(key);
      var found := walk.RamSeek(cr, upper, target, false);
      assert target[0..] == target;
      if found.Some? {
        assert found.value.path[0..] == found.value.path;
        FoundFull(Flatten(upper), target, found.value.path);
        NibblesOfPacked(found.value.path);
        hit := Some(CursorEntry(PackKey(found.value.path), found.value.out));
        last := Some(hit.value.key);
      } else {
        hit, last := None, None;
      }
    }

    /** The entry of the least key above the one returned last. */
    method Next() returns (hit: Option<CursorEntry>)
      requires Valid()
      modifies this
      ensures Valid() && last == if hit.Some? then Some(hit.value.key) else None
      ensures old(last).None? ==> hit.None?
      ensures old(last).Some? ==> LeastAbove(Flatten(upper), Nibbles(old(last).value), KeyOf(hit))
      ensures MemoOk(cr, upper) && AllHashed(cr, upper) && hit.Some? ==>
        Get(Flatten(upper), Nibbles(hit.value.key)).Some? && hit.value.out == Shown(cr, Get(Flatten(upper), Nibbles(hit.value.key)).value)
    {
      hide RamOk, Get, Flatten, LeastFrom, LeastAbove, Less, MemoOk, AllHashed, Nibbles, Root, Val;
      hit := None;
      if last.Some? {
        var succ := KeySuccessor(last.value);
        if succ.None? {
          NoSuccessor(Flatten(upper), last.value);
          last := None;
        } else {
          hit := Seek(succ.value);
          SeekSuccessor(Flatten(upper), old(last).value, succ.value, KeyOf(hit));
        }
      }
    }

    /** Seek the zero key, then take what comes next until nothing is left: exactly the stored
        keys, each once, ascending, each with what the trie holds there. */
    method ListAll() returns (es: seq<CursorEntry>)
      requires Valid()
      modifies this
      ensures forall k: Path :: |k| == KEY_NIBBLES ==> (k in KeysOf(es) <==> Get(Flatten(upper), k).Some?)
      ensures forall i, j :: 0 <= i < j < |es| ==> Less(KeysOf(es)[i], KeysOf(es)[j])
      ensures MemoOk(cr, upper) && AllHashed(cr, upper) ==> forall i :: 0 <= i < |es| ==> Shows(cr, Flatten(upper), es[i])
    {
      hide RamOk, Get, Flatten, LeastFrom, LeastAbove, Less, MemoOk, AllHashed, Nibbles, Root, Listed, Number, Pow, KeysOf;
      var zero: Bytes := seq(KEY_NIBBLES / 2, _ => 0);
      ghost var n, start := Flatten(upper), Nibbles(zero);
      NoKeys();
      ZeroNibbles(zero);
      es := [];
      var hit := Seek(zero);
      ListedNone(n, start, KeyOf(hit));
      while hit.Some?
        invariant Valid() && last == (if hit.Some? then Some(hit.value.key) else None)
        invariant Listed(n, start, KeysOf(es), KeyOf(hit))
        invariant MemoOk(cr, upper) && AllHashed(cr, upper) ==> forall i :: 0 <= i < |es| ==> Shows(cr, n, es[i])
        invariant MemoOk(cr, upper) && AllHashed(cr, upper) && hit.Some? ==> Shows(cr, n, hit.value)
        decreases Left(KeyOf(hit))
      {
        var e := hit.value;
        es := es + [e];
        KeysSnoc(es[..|es| - 1], e);
        assert es[..|es| - 1] + [e] == es;
        hit := Next();
        ListedMore(n, start, KeysOf(es[..|es| - 1]), Nibbles(e.key), KeyOf(hit));
        LessLeft(n, Nibbles(e.key), KeyOf(hit));
      }
      ListedAll(n, start, KeysOf(es));
      ListingIsComplete(n, start, KeysOf(es));
    }
  }

  /** The entry tells what the trie holds at its key. */
  ghost predicate Shows(cr: Crypto, n: Node, e: CursorEntry) {
    Get(n, Nibbles(e.key)).Some? && e.out == Shown(cr, Get(n, Nibbles(e.key)).value)
  }

  function KeysOf(es: seq<CursorEntry>): (ks: seq<Path>)
    ensures |ks| == |es|
  {
    if es == [] then [] else KeysOf(es[..|es| - 1]) + [Nibbles(es[|es| - 1].key)]
  }

  lemma NoKeys()
    ensures KeysOf([]) == []
  {
  }

  lemma KeysSnoc(es: seq<CursorEntry>, e: CursorEntry)
    ensures KeysOf(es + [e]) == KeysOf(es) + [Nibbles(e.key)]
  {
    assert (es + [e])[..|es|] == es;
  }

  lemma {:induction false} ZeroNibbles(key: Bytes)
    requires forall i :: 0 <= i < |key| ==> key[i] == 0
    ensures forall i :: 0 <= i < |Nibbles(key)| ==> Nibbles(key)[i] == 0
  {
    if key != [] {
      ZeroNibbles(key[..|key| - 1]);
    }
  }

  /** How many keys can still come. */
  function Left(hit: Option<Path>): nat {
    if hit.Some? && Number(hit.value) < Pow(16, KEY_NIBBLES) then Pow(16, KEY_NIBBLES) - Number(hit.value) else 0
  }

  lemma LessLeft(n: Node, p: Path, hit: Option<Path>)
    requires |p| == KEY_NIBBLES && LeastAbove(n, p, hit)
    ensures Left(hit) < Left(Some(p))
  {
    hide Pow, Number, Less, Get;
    NumberBound(p);
    if hit.Some? {
      NumberBound(hit.value);
      LessIsNumber(p, hit.value);
    }
  }

  lemma NumberBound(p: Path)
    ensures Number(p) < Pow(16, |p|)
  {
    ValBound(16, p);
  }

  /** The keys so far, and what comes after them. */
  ghost predicate Listed(n: Node, zero: Path, ks: seq<Path>, next: Option<Path>) {
    && LeastFrom(n, |zero|, Some(zero), if ks == [] then next else Some(ks[0]))
    && (forall i :: 0 <= i < |ks| ==> |ks[i]| == |zero|)
    && (forall i :: 0 <= i < |ks| ==> LeastAbove(n, ks[i], NextOf(ks, i, next)))
  }

  function NextOf(ks: seq<Path>, i: nat, next: Option<Path>): Option<Path> {
    if i + 1 < |ks| then Some(ks[i + 1]) else next
  }

  lemma ListedNone(n: Node, zero: Path, next: Option<Path>)
    requires LeastFrom(n, |zero|, Some(zero), next)
    ensures Listed(n, zero, [], next)
  {
  }

  lemma ListedMore(n: Node, zero: Path, ks: seq<Path>, k: Path, next: Option<Path>)
    requires Listed(n, zero, ks, Some(k)) && |k| == |zero| && LeastAbove(n, k, next)
    ensures Listed(n, zero, ks + [k], next)
  {
    hide LeastFrom, LeastAbove;
    var all := ks + [k];
    forall i | 0 <= i < |all| ensures LeastAbove(n, all[i], NextOf(all, i, next)) {
      if i < |ks| {
        assert LeastAbove(n, ks[i], NextOf(ks, i, Some(k)));
      }
    }
  }

  lemma ListedAll(n: Node, zero: Path, ks: seq<Path>)
    requires Listed(n, zero, ks, None)
    ensures Listing(n, zero, ks)
  {
    hide LeastFrom, LeastAbove;
    forall i | 0 <= i < |ks| ensures LeastAbove(n, ks[i], After(ks, i)) {
      assert LeastAbove(n, ks[i], NextOf(ks, i, None));
    }
  }

  lemma FoundFull(n: Node, target: Path, path: Path)
    requires LeastFrom(n, |target|, Some(target), Some(path))
    ensures |path| == |target|
  {
  }

  // --------------------------------------------------------------------- listing

  /** What `seek` on the zero key and then `next` until nothing is left return. */
  ghost predicate Listing(n: Node, zero: Path, ks: seq<Path>) {
    && LeastFrom(n, |zero|, Some(zero), if ks == [] then None else Some(ks[0]))
    && (forall i :: 0 <= i < |ks| ==> |ks[i]| == |zero|)
    && (forall i :: 0 <= i < |ks| ==> LeastAbove(n, ks[i], After(ks, i)))
  }

  function After(ks: seq<Path>, i: nat): Option<Path> {
    if i + 1 < |ks| then Some(ks[i + 1]) else None
  }

  lemma {:induction false} LessTransitive(a: Path, b: Path, c: Path)
    requires Less(a, b) && Less(b, c)
    ensures Less(a, c)
  {
    if a[0] == b[0] == c[0] {
      LessTransitive(a[1..], b[1..], c[1..]);
    }
  }

  lemma {:induction false} NothingBelowZero(zero: Path, k: Path)
    requires |k| == |zero| && forall i :: 0 <= i < |zero| ==> zero[i] == 0
    ensures !Less(k, zero)
  {
    if k != [] {
      NothingBelowZero(zero[1..], k[1..]);
    }
  }

  lemma ListingFirst(n: Node, zero: Path, ks: seq<Path>)
    requires Listing(n, zero, ks) && ks != []
    ensures LeastFrom(n, |zero|, Some(zero), Some(ks[0]))
  {
  }

  lemma ListingStep(n: Node, zero: Path, ks: seq<Path>, i: nat)
    requires Listing(n, zero, ks) && i + 1 < |ks|
    ensures |ks[i]| == |ks[i + 1]| == |zero| && LeastAbove(n, ks[i], Some(ks[i + 1]))
  {
    hide LeastAbove, LeastFrom;
    assert LeastAbove(n, ks[i], After(ks, i));
  }

  /** Listing returns keys in ascending order, so none twice. */
  lemma {:induction false} ListingAscends(n: Node, zero: Path, ks: seq<Path>, i: nat, j: nat)
    requires Listing(n, zero, ks) && i < j < |ks|
    ensures Less(ks[i], ks[j])
    decreases j
  {
    hide Get, Less, Listing;
    ListingStep(n, zero, ks, j - 1);
    if i < j - 1 {
      ListingAscends(n, zero, ks, i, j - 1);
      LessTransitive(ks[i], ks[j - 1], ks[j]);
    }
  }

  /** A key the listing has not reached yet lies above what it returned last. */
  lemma {:induction false} ListingReaches(n: Node, zero: Path, ks: seq<Path>, k: Path, i: nat)
    requires Listing(n, zero, ks) && Stored(n, |zero|, k) && i < |ks|
    requires forall j :: 0 <= j < |zero| ==> zero[j] == 0
    ensures k in ks[..i + 1] || Less(ks[i], k)
    decreases i
  {
    hide Get, Less, Listing;
    ListingFirst(n, zero, ks);
    if i == 0 {
      NothingBelowZero(zero, k);
      LessTotal(k, ks[0]);
      assert ks[..1] == [ks[0]];
    } else {
      ListingReaches(n, zero, ks, k, i - 1);
      ListingStep(n, zero, ks, i - 1);
      LessTotal(k, ks[i]);
      assert ks[..i + 1] == ks[..i] + [ks[i]];
    }
  }

  /** `seek(0)` and repeated `next` return exactly the stored keys, each once, ascending. */
  lemma ListingIsComplete(n: Node, zero: Path, ks: seq<Path>)
    requires Listing(n, zero, ks) && forall i :: 0 <= i < |zero| ==> zero[i] == 0
    ensures forall k: Path :: |k| == |zero| ==> (k in ks <==> Get(n, k).Some?)
    ensures forall i, j :: 0 <= i < j < |ks| ==> Less(ks[i], ks[j])
  {
    hide Get;
    forall i, j | 0 <= i < j < |ks| ensures Less(ks[i], ks[j]) {
      ListingAscends(n, zero, ks, i, j);
    }
    forall k: Path | |k| == |zero| ensures k in ks <==> Get(n, k).Some? {
      if Get(n, k).Some? {
        assert Stored(n, |zero|, k);
        if ks == [] {
          NothingBelowZero(zero, k);
        } else {
          ListingReaches(n, zero, ks, k, |ks| - 1);
          assert ks[..|ks|] == ks;
          NothingLeft(n, zero, ks);
        }
      }
      if k in ks {
        var i :| 0 <= i < |ks| && ks[i] == k;
        ListedIsStored(n, zero, ks, i);
      }
    }
  }

  lemma NothingLeft(n: Node, zero: Path, ks: seq<Path>)
    requires Listing(n, zero, ks) && ks != []
    ensures LeastAbove(n, ks[|ks| - 1], None)
  {
    assert LeastAbove(n, ks[|ks| - 1], After(ks, |ks| - 1));
  }

  lemma ListedIsStored(n: Node, zero: Path, ks: seq<Path>, i: nat)
    requires Listing(n, zero, ks) && i < |ks|
    ensures Get(n, ks[i]).Some?
  {
    if i > 0 {
      ListingStep(n, zero, ks, i - 1);
    }
  }
}

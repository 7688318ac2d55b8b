/** The branch cursor: a pre-order walk over the positions of branch nodes, each with the
    masks of its children.  Masks are the sets of their bits; the hashes of the masked
    children are a map from the child's nibble.
 */
module BranchCursor {
  import opened Trie
  import opened TrieLaws
  import opened TrieHistory
  import opened TrieRoot
  import opened Frontier
  import opened FrontierFlatten
  import opened FrontierInvariants
  import C = CursorOrder

  // -------------------------------------------------------------------- pre-order

  /** Lexicographic order of nibble paths, a parent before its children. */
  predicate Lt(a: Path, b: Path) {
    b != [] && (a == [] || a[0] < b[0] || (a[0] == b[0] && Lt(a[1..], b[1..])))
  }

  lemma {:induction false} LtConcat(p: Path, a: Path, b: Path)
    ensures Lt(p + a, p + b) <==> Lt(a, b)
  {
    if p == [] {
      assert p + a == a && p + b == b;
    } else {
      assert (p + a)[1..] == p[1..] + a && (p + b)[1..] == p[1..] + b;
      LtConcat(p[1..], a, b);
    }
  }

  lemma {:induction false} LtOrder(a: Path, b: Path)
    ensures !(Lt(a, b) && Lt(b, a)) && !Lt(a, a) && (Lt(a, b) || Lt(b, a) || a == b)
  {
    if a != [] && b != [] {
      LtOrder(a[1..], b[1..]);
      assert a == [a[0]] + a[1..] && b == [b[0]] + b[1..];
    } else if a != [] {
      LtOrder(a[1..], a[1..]);
    }
  }

  lemma {:induction false} LtTransitive(a: Path, b: Path, c: Path)
    requires Lt(a, b) && Lt(b, c)
    ensures Lt(a, c)
  {
    if a != [] && a[0] == b[0] == c[0] {
      LtTransitive(a[1..], b[1..], c[1..]);
    }
  }

  /** Stepping by one nibble: not before `p` with a zero nibble appended is after `p`. */
  lemma {:induction false} StepIsNext(p: Path, q: Path)
    ensures !Lt(q, p + [0]) <==> Lt(p, q)
  {
    if p == [] {
      assert p + [0] == [0];
      if q != [] {
        assert [0][1..] == [];
      }
    } else {
      assert (p + [0])[1..] == p[1..] + [0] && (p + [0])[0] == p[0];
      if q != [] {
        StepIsNext(p[1..], q[1..]);
      }
    }
  }

  function Shorter(a: Path, b: Path): nat {
    if |a| < |b| then |a| else |b|
  }

  predicate LexGe(path: Path, target: Path) {
    var n := Shorter(path, target);
    if Less(target[..n], path[..n]) then true
    else if Less(path[..n], target[..n]) then false
    else |path| >= |target|
  }

  /** Everything at and below `prefix` comes before the target. */
  predicate AllLess(prefix: Path, target: Path) {
    var n := Shorter(prefix, target);
    Less(prefix[..n], target[..n])
  }

  lemma {:induction false} LexGeIsOrder(path: Path, target: Path)
    ensures LexGe(path, target) <==> !Lt(path, target)
  {
    var n := Shorter(path, target);
    if path != [] && target != [] {
      LexGeIsOrder(path[1..], target[1..]);
      assert path[..n][1..] == path[1..][..n - 1] && target[..n][1..] == target[1..][..n - 1];
    }
  }

  lemma {:induction false} AllLessIsOrder(prefix: Path, target: Path, q: Path)
    requires AllLess(prefix, target)
    ensures Lt(prefix + q, target)
  {
    var n := Shorter(prefix, target);
    assert (prefix + q)[1..] == prefix[1..] + q;
    if prefix[0] == target[0] {
      assert prefix[..n][1..] == prefix[1..][..n - 1] && target[..n][1..] == target[1..][..n - 1];
      AllLessIsOrder(prefix[1..], target[1..], q);
    }
  }

  // ------------------------------------------------------------------- positions

  /** A branch node sits exactly `q` nibbles below the node. */
  predicate BranchAt(n: Node, q: Path) {
    match n
    case Empty => false
    case Leaf(_, _) => false
    case Extension(path, child) => path <= q && BranchAt(child, q[|path|..])
    case Branch(children) => q == [] || (|children| == 16 && BranchAt(children[q[0]], q[1..]))
  }

  ghost predicate HasBranch(n: Node) {
    exists q :: BranchAt(n, q)
  }

  lemma HasBranchShape(n: Node, len: nat)
    requires Canonical(n, len)
    ensures HasBranch(n) <==> n.Branch? || n.Extension?
  {
    if n.Branch? {
      assert BranchAt(n, []);
    } else if n.Extension? {
      assert n.path[|n.path|..] == [];
      assert BranchAt(n, n.path);
    }
  }

  /** `hit` is the least branch position below `prefix`, read as an absolute path, that is
      not before the target. */
  ghost predicate LeastBranch(n: Node, prefix: Path, target: Path, hit: Option<Path>) {
    if hit.None? then forall q: Path :: BranchAt(n, q) ==> Lt(prefix + q, target)
    else
      && prefix <= hit.value && BranchAt(n, hit.value[|prefix|..]) && !Lt(hit.value, target)
      && forall q: Path :: BranchAt(n, q) ==> Lt(prefix + q, target) || !Lt(prefix + q, hit.value)
  }

  lemma ThroughExtension(path: Path, child: Node, prefix: Path, target: Path, hit: Option<Path>)
    requires LeastBranch(child, prefix + path, target, hit)
    ensures LeastBranch(Extension(path, child), prefix, target, hit)
  {
    hide Lt;
    var n := Extension(path, child);
    forall q: Path | BranchAt(n, q) ensures prefix + q == (prefix + path) + q[|path|..] && BranchAt(child, q[|path|..]) {
    }
    if hit.Some? {
      var h := hit.value;
      assert h == (prefix + path) + h[|prefix + path|..];
      assert h[|prefix|..] == path + h[|prefix + path|..];
      assert h[|prefix|..][|path|..] == h[|prefix + path|..];
    }
  }

  lemma SkippedNode(n: Node, prefix: Path, target: Path)
    requires AllLess(prefix, target)
    ensures LeastBranch(n, prefix, target, None)
  {
    hide Lt, AllLess, BranchAt;
    forall q: Path ensures Lt(prefix + q, target) {
      AllLessIsOrder(prefix, target, q);
    }
  }

  lemma HereFirst(children: seq<Node>, prefix: Path, target: Path)
    requires !Lt(prefix, target)
    ensures LeastBranch(Branch(children), prefix, target, Some(prefix))
  {
    assert prefix[|prefix|..] == [];
    forall q: Path ensures !Lt(prefix + q, prefix) {
      assert prefix + [] == prefix;
      LtConcat(prefix, q, []);
    }
  }

  /** No position under a nibble below `i` reaches the target. */
  ghost predicate Passed(children: seq<Node>, prefix: Path, target: Path, i: nat) {
    forall q: Path :: BranchAt(Branch(children), q) && (q == [] || q[0] < i) ==> Lt(prefix + q, target)
  }

  lemma PassedStart(children: seq<Node>, prefix: Path, target: Path)
    requires Lt(prefix, target)
    ensures Passed(children, prefix, target, 0)
  {
    assert prefix + [] == prefix;
  }

  lemma PassedChild(children: seq<Node>, prefix: Path, target: Path, i: Nibble, hit: Option<Path>)
    requires |children| == 16 && Passed(children, prefix, target, i) && LeastBranch(children[i], prefix + [i], target, hit)
    ensures hit.None? ==> Passed(children, prefix, target, i + 1)
    ensures hit.Some? ==> LeastBranch(Branch(children), prefix, target, hit)
  {
    hide Lt;
    var n := Branch(children);
    forall q: Path | BranchAt(n, q) && q != [] && q[0] == i
      ensures prefix + q == (prefix + [i]) + q[1..] && BranchAt(children[i], q[1..]) {
      assert q == [i] + q[1..];
    }
    if hit.Some? {
      var h := hit.value;
      assert h == prefix + ([i] + h[|prefix| + 1..]);
      assert h[|prefix|..][1..] == h[|prefix + [i]|..] && h[|prefix|..][0] == i;
      forall q: Path | BranchAt(n, q) ensures Lt(prefix + q, target) || !Lt(prefix + q, h) {
        if q != [] && q[0] > i {
          LtConcat(prefix, q, [i] + h[|prefix| + 1..]);
          LaterNibble(q, [i] + h[|prefix| + 1..]);
        }
      }
    }
  }

  lemma LaterNibble(a: Path, b: Path)
    requires a != [] && b != [] && a[0] > b[0]
    ensures !Lt(a, b)
  {
  }

  lemma PassedAll(children: seq<Node>, prefix: Path, target: Path)
    requires Passed(children, prefix, target, 16)
    ensures LeastBranch(Branch(children), prefix, target, None)
  {
  }

  // -------------------------------------------------------------------- entries

  datatype BranchEntry = BranchEntry(path: Path, state: set<int>, tree: set<int>, hashes: map<int, Bytes>)

  datatype ChildInfo = ChildInfo(hash: Option<Bytes>, below: bool)

  function RefHash(r: Ref): Option<Bytes> {
    if r.Hash? then Some(r.hash) else None
  }

  function ClassifyNode(cr: Crypto, n: Node): ChildInfo {
    match n
    case Empty => ChildInfo(None, false)
    case Leaf(_, _) => ChildInfo(RefHash(NodeRef(cr, n)), false)
    case Extension(_, child) => ChildInfo(RefHash(NodeRef(cr, n)), ClassifyNode(cr, child).below || child.Branch?)
    case Branch(_) => ChildInfo(RefHash(NodeRef(cr, n)), true)
  }

  function ClassifySlot(cr: Crypto, s: Slot): ChildInfo {
    match s
    case Ram(sub) => ChildInfo(Some(RamHash(cr, sub)), sub.RBranch? || sub.RExt?)
    case Disk(_, root, rec) => ChildInfo(Some(root), ClassifyNode(cr, rec.node).below || rec.node.Branch?)
    case Mem(root, rec) => ChildInfo(Some(root), ClassifyNode(cr, rec.node).below || rec.node.Branch?)
    case Promoted(_, _, _, _, _) => ChildInfo(None, false)
    case Free => ChildInfo(None, false)
  }

  /** The masks say which children there are and under which the cursor lists a path. */
  ghost predicate MasksOk(children: seq<Node>, e: BranchEntry) {
    && |children| == 16
    && (forall i :: i in e.state <==> 0 <= i < 16 && children[i] != Empty)
    && (forall i :: i in e.tree <==> 0 <= i < 16 && HasBranch(children[i]))
    && (forall i :: i in e.hashes ==> i in e.state)
  }

  /** Every hash given is the child's own reference. */
  ghost predicate HashesOk(cr: Crypto, children: seq<Node>, e: BranchEntry) {
    forall i :: i in e.hashes ==> 0 <= i < |children| && NodeRef(cr, children[i]) == Hash(e.hashes[i])
  }

  /** Assemble an entry from the children's classification. */
  method BuildEntry(path: Path, infos: seq<Option<ChildInfo>>) returns (e: BranchEntry)
    ensures e.path == path
    ensures forall i :: i in e.state <==> 0 <= i < |infos| && infos[i].Some?
    ensures forall i :: i in e.tree <==> 0 <= i < |infos| && infos[i].Some? && infos[i].value.below
    ensures forall i :: i in e.hashes <==> 0 <= i < |infos| && infos[i].Some? && infos[i].value.hash.Some?
    ensures forall i :: i in e.hashes ==> infos[i].value.hash == Some(e.hashes[i])
  {
    e := BranchEntry(path, {}, {}, map[]);
    for k := 0 to |infos|
      invariant e.path == path
      invariant forall i :: i in e.state <==> 0 <= i < k && infos[i].Some?
      invariant forall i :: i in e.tree <==> 0 <= i < k && infos[i].Some? && infos[i].value.below
      invariant forall i :: i in e.hashes <==> 0 <= i < k && infos[i].Some? && infos[i].value.hash.Some?
      invariant forall i :: i in e.hashes ==> infos[i].value.hash == Some(e.hashes[i])
    {
      if infos[k].Some? {
        var info := infos[k].value;
        e := e.(state := e.state + {k});
        if info.below {
          e := e.(tree := e.tree + {k});
        }
        if info.hash.Some? {
          e := e.(hashes := e.hashes[k := info.hash.value]);
        }
      }
    }
  }

  /** What the classification must say of a present child. */
  ghost predicate InfoOk(cr: Crypto, n: Node, info: ChildInfo) {
    (info.below <==> HasBranch(n)) && (info.hash.Some? ==> NodeRef(cr, n) == Hash(info.hash.value))
  }

  lemma NodeInfo(cr: Crypto, n: Node, len: nat)
    requires Canonical(n, len) && n != Empty
    ensures InfoOk(cr, n, ClassifyNode(cr, n)) && (ClassifyNode(cr, n).below <==> n.Branch? || n.Extension?)
    ensures ClassifyNode(cr, n).hash.Some? <==> NodeRef(cr, n).Hash?
  {
    hide NodeRef, HasBranch;
    HasBranchShape(n, len);
  }

  lemma SlotInfo(cr: Crypto, s: Slot, len: nat)
    requires SlotOk(s, len) && s != Free
    ensures ClassifySlot(cr, s).below <==> HasBranch(FlattenSlot(s))
    ensures ClassifySlot(cr, s).hash == if s.Promoted? then None else Some(SlotHash(cr, s))
    ensures SlotMemoOk(cr, s) && SlotAllHashed(cr, s) && NodeRef(cr, FlattenSlot(s)).Hash? ==> InfoOk(cr, FlattenSlot(s), ClassifySlot(cr, s))
  {
    hide NodeRef, HasBranch, RamHash, Flatten;
    FlattenSlotOk(s, len);
    HasBranchShape(FlattenSlot(s), len);
    match s
    case Ram(n) =>
      FlattenOk(n, len);
      if MemoOk(cr, n) && AllHashed(cr, n) {
        HashIsFlatRoot(cr, n, len);
      }
      RootIsHash(cr, Flatten(n), len);
    case Disk(_, _, rec) =>
      NodeInfo(cr, rec.node, len);
      RootIsHash(cr, rec.node, len);
    case Mem(_, rec) =>
      NodeInfo(cr, rec.node, len);
      RootIsHash(cr, rec.node, len);
    case Promoted(_, _, _, _, _) =>
  }

  lemma RootIsHash(cr: Crypto, n: Node, len: nat)
    requires n != Empty
    ensures NodeRef(cr, n).Hash? ==> NodeRef(cr, n) == Hash(Root(cr, n))
  {
  }

  // ------------------------------------------------------------- which hashes it gives

  /** A record branch gives the hash of exactly the children that are referenced by hash. */
  ghost function ChildHashes(cr: Crypto, children: seq<Node>): map<int, Bytes> {
    map i | 0 <= i < |children| && children[i] != Empty && NodeRef(cr, children[i]).Hash? :: NodeRef(cr, children[i]).hash
  }

  /** A frontier branch gives the hash of every child but promoted accounts. */
  ghost function SlotHashMap(cr: Crypto, slots: seq<Slot>): map<int, Bytes> {
    map i | 0 <= i < |slots| && slots[i] != Free && !slots[i].Promoted? :: SlotHash(cr, slots[i])
  }

  /** The hashes at the branch `q` below a record node. */
  ghost function NodeHashes(cr: Crypto, n: Node, q: Path): map<int, Bytes> {
    var b := NodeAt(n, q);
    if b.Branch? then ChildHashes(cr, b.children) else map[]
  }

  /** The hashes at the branch `q` below a frontier node, wherever that branch lives. */
  ghost function RamHashes(cr: Crypto, f: RamNode, q: Path): map<int, Bytes>
    decreases f
  {
    match f
    case REmpty => map[]
    case RExt(path, child, _) => if path <= q then RamHashes(cr, child, q[|path|..]) else map[]
    case RBranch(slots, _) =>
      if q == [] then SlotHashMap(cr, slots) else if |slots| == 16 then HashesInSlot(cr, slots[q[0]], q[1..]) else map[]
  }

  ghost function HashesInSlot(cr: Crypto, s: Slot, q: Path): map<int, Bytes>
    decreases s
  {
    match s
    case Ram(n) => RamHashes(cr, n, q)
    case Disk(_, _, rec) => NodeHashes(cr, rec.node, q)
    case Mem(_, rec) => NodeHashes(cr, rec.node, q)
    case _ => map[]
  }

  ghost predicate NodeGives(cr: Crypto, n: Node, d: nat, e: Option<BranchEntry>) {
    e.Some? ==> d <= |e.value.path| && e.value.hashes == NodeHashes(cr, n, e.value.path[d..])
  }

  ghost predicate RamGives(cr: Crypto, f: RamNode, d: nat, e: Option<BranchEntry>) {
    e.Some? ==> d <= |e.value.path| && e.value.hashes == RamHashes(cr, f, e.value.path[d..])
  }

  ghost predicate SlotGives(cr: Crypto, s: Slot, d: nat, e: Option<BranchEntry>) {
    e.Some? ==> d <= |e.value.path| && e.value.hashes == HashesInSlot(cr, s, e.value.path[d..])
  }

  lemma GivesThrough(cr: Crypto, path: Path, n: Node, f: RamNode, memo: Option<Bytes>, d: nat, e: Option<BranchEntry>)
    requires e.Some? ==> path <= e.value.path[if d <= |e.value.path| then d else 0..]
    ensures NodeGives(cr, n, d + |path|, e) ==> NodeGives(cr, Extension(path, n), d, e)
    ensures RamGives(cr, f, d + |path|, e) ==> RamGives(cr, RExt(path, f, memo), d, e)
  {
    hide ChildHashes;
    if e.Some? && d + |path| <= |e.value.path| {
      assert e.value.path[d..][|path|..] == e.value.path[d + |path|..];
    }
  }

  lemma GivesChild(cr: Crypto, children: seq<Node>, slots: seq<Slot>, memo: Option<Bytes>, i: Nibble, d: nat, e: Option<BranchEntry>)
    requires e.Some? ==> [i] <= e.value.path[if d <= |e.value.path| then d else 0..]
    ensures |children| == 16 && NodeGives(cr, children[i], d + 1, e) ==> NodeGives(cr, Branch(children), d, e)
    ensures |slots| == 16 && SlotGives(cr, slots[i], d + 1, e) ==> RamGives(cr, RBranch(slots, memo), d, e)
  {
    hide ChildHashes, SlotHashMap;
    if e.Some? && d + 1 <= |e.value.path| {
      assert e.value.path[d..][1..] == e.value.path[d + 1..];
    }
  }

  lemma NothingGiven(cr: Crypto)
    ensures forall n: Node, d: nat :: NodeGives(cr, n, d, None)
    ensures forall f: RamNode, d: nat :: RamGives(cr, f, d, None)
  {
  }

  lemma GivesHere(cr: Crypto, children: seq<Node>, slots: seq<Slot>, memo: Option<Bytes>, e: BranchEntry)
    ensures e.hashes == ChildHashes(cr, children) ==> NodeGives(cr, Branch(children), |e.path|, Some(e))
    ensures e.hashes == SlotHashMap(cr, slots) ==> RamGives(cr, RBranch(slots, memo), |e.path|, Some(e))
  {
    hide ChildHashes, SlotHashMap;
    assert e.path[|e.path|..] == [];
  }

  // ---------------------------------------------------------------------- walks

  function NodeAt(n: Node, q: Path): Node {
    match n
    case Empty => Empty
    case Leaf(_, _) => Empty
    case Extension(path, child) => if path <= q then NodeAt(child, q[|path|..]) else Empty
    case Branch(children) => if q == [] then n else if |children| == 16 then NodeAt(children[q[0]], q[1..]) else Empty
  }

  function PathOf(e: Option<BranchEntry>): Option<Path> {
    if e.Some? then Some(e.value.path) else None
  }

  /** The entry describes the branch it names. */
  ghost predicate Describes(n: Node, d: nat, e: Option<BranchEntry>) {
    e.Some? ==>
      d <= |e.value.path| && NodeAt(n, e.value.path[d..]).Branch? && MasksOk(NodeAt(n, e.value.path[d..]).children, e.value)
  }

  ghost predicate Vouches(cr: Crypto, n: Node, d: nat, e: Option<BranchEntry>) {
    e.Some? ==>
      d <= |e.value.path| && NodeAt(n, e.value.path[d..]).Branch? && HashesOk(cr, NodeAt(n, e.value.path[d..]).children, e.value)
  }

  lemma DescribesThrough(cr: Crypto, path: Path, child: Node, d: nat, e: Option<BranchEntry>)
    requires Describes(child, d + |path|, e) && (e.Some? ==> path <= e.value.path[d..])
    ensures Describes(Extension(path, child), d, e)
    ensures Vouches(cr, child, d + |path|, e) ==> Vouches(cr, Extension(path, child), d, e)
  {
    hide MasksOk, HashesOk;
    if e.Some? {
      assert e.value.path[d..][|path|..] == e.value.path[d + |path|..];
    }
  }

  lemma DescribesChild(cr: Crypto, children: seq<Node>, i: Nibble, d: nat, e: Option<BranchEntry>)
    requires |children| == 16 && Describes(children[i], d + 1, e) && (e.Some? ==> [i] <= e.value.path[d..])
    ensures Describes(Branch(children), d, e)
    ensures Vouches(cr, children[i], d + 1, e) ==> Vouches(cr, Branch(children), d, e)
  {
    hide MasksOk, HashesOk;
    if e.Some? {
      assert e.value.path[d..][1..] == e.value.path[d + 1..];
    }
  }

  lemma UnderPrefix(prefix: Path, path: Path, n: Node, target: Path, e: Option<BranchEntry>)
    requires LeastBranch(n, prefix + path, target, PathOf(e))
    ensures e.Some? ==> path <= e.value.path[|prefix|..]
  {
    hide Lt, BranchAt;
    if e.Some? {
      var h := e.value.path;
      assert h[|prefix|..][..|path|] == h[..|prefix + path|][|prefix|..];
    }
  }

  class BranchWalk {
    var prefix: Path

    constructor ()
      ensures prefix == []
    {
      prefix := [];
    }

    /** The entry of a branch from its children's classification. */
    method NodeEntry(cr: Crypto, children: seq<Node>, ghost len: nat) returns (e: BranchEntry)
      requires Canonical(Branch(children), len)
      ensures e.path == prefix && MasksOk(children, e) && HashesOk(cr, children, e) && e.hashes == ChildHashes(cr, children)
    {
      hide Canonical, HasBranch, NodeRef, ClassifyNode;
      BranchShape(children, len);
      var infos: seq<Option<ChildInfo>> :=
        seq(16, i requires 0 <= i < 16 => if children[i] == Empty then None else Some(ClassifyNode(cr, children[i])));
      e := BuildEntry(prefix, infos);
      forall i | 0 <= i < 16 && children[i] != Empty
        ensures InfoOk(cr, children[i], ClassifyNode(cr, children[i]))
        ensures ClassifyNode(cr, children[i]).hash.Some? <==> NodeRef(cr, children[i]).Hash? {
        NodeInfo(cr, children[i], len - 1);
      }
      NoBranchInEmpty();
    }

    method NodeSeek(cr: Crypto, n: Node, target: Path, ghost len: nat) returns (e: Option<BranchEntry>)
      requires Canonical(n, len)
      modifies this
      ensures prefix == old(prefix) && LeastBranch(n, prefix, target, PathOf(e))
      ensures Describes(n, |prefix|, e) && Vouches(cr, n, |prefix|, e) && NodeGives(cr, n, |prefix|, e)
      decreases n
    {
      hide Canonical, LeastBranch, BranchAt, Lt, AllLess, LexGe, Passed, MasksOk, HashesOk, NodeAt, NodeGives, ChildHashes;
      ghost var was := prefix;
      var depth := |prefix|;
      NothingGiven(cr);
      match n
      case Empty =>
        e := None;
        NothingBelow(n, prefix, target);
      case Leaf(_, _) =>
        e := None;
        NothingBelow(n, prefix, target);
      case Extension(path, child) =>
        ExtensionShape(path, child, len);
        prefix := prefix + path;
        if AllLess(prefix, target) {
          e := None;
          SkippedNode(child, prefix, target);
        } else {
          e := NodeSeek(cr, child, target, len - |path|);
        }
        ThroughExtension(path, child, was, target, PathOf(e));
        UnderPrefix(was, path, child, target, e);
        DescribesThrough(cr, path, child, depth, e);
        GivesThrough(cr, path, child, REmpty, None, depth, e);
        prefix := prefix[..depth];
      case Branch(children) =>
        BranchShape(children, len);
        LexGeIsOrder(prefix, target);
        if LexGe(prefix, target) {
          var entry := NodeEntry(cr, children, len);
          e := Some(entry);
          HereFirst(children, prefix, target);
          HereAt(children, prefix);
          GivesHere(cr, children, [], None, entry);
          return;
        }
        PassedStart(children, prefix, target);
        for i := 0 to 16
          invariant prefix == was && Passed(children, was, target, i)
        {
          prefix := prefix + [i];
          if children[i] == Empty || AllLess(prefix, target) {
            e := None;
            if children[i] == Empty {
              NothingBelow(children[i], prefix, target);
            } else {
              SkippedNode(children[i], prefix, target);
            }
          } else {
            e := NodeSeek(cr, children[i], target, len - 1);
          }
          prefix := prefix[..depth];
          PassedChild(children, was, target, i, PathOf(e));
          if e.Some? {
            UnderPrefix(was, [i], children[i], target, e);
            DescribesChild(cr, children, i, depth, e);
            GivesChild(cr, children, [], None, i, depth, e);
            return;
          }
        }
        e := None;
        PassedAll(children, was, target);
    }

    /** The entry of a frontier branch. */
    method RamEntry(cr: Crypto, slots: seq<Slot>, ghost len: nat) returns (e: BranchEntry)
      requires 0 < len && |slots| == 16 && forall i :: 0 <= i < 16 ==> SlotOk(slots[i], len - 1)
      ensures e.path == prefix && MasksOk(FlattenSlots(slots), e) && e.hashes == SlotHashMap(cr, slots)
      ensures SlotsHashed(cr, slots) ==> HashesOk(cr, FlattenSlots(slots), e)
    {
      hide SlotOk, HasBranch, NodeRef, ClassifySlot, FlattenSlot, FlattenSlots, SlotMemoOk, SlotAllHashed, SlotHash;
      var infos: seq<Option<ChildInfo>> :=
        seq(16, i requires 0 <= i < 16 => if slots[i] == Free then None else Some(ClassifySlot(cr, slots[i])));
      e := BuildEntry(prefix, infos);
      forall i | 0 <= i < 16
        ensures slots[i] == Free <==> FlattenSlot(slots[i]) == Empty
        ensures slots[i] != Free ==> (ClassifySlot(cr, slots[i]).below <==> HasBranch(FlattenSlot(slots[i])))
        ensures slots[i] != Free ==> ClassifySlot(cr, slots[i]).hash == if slots[i].Promoted? then None else Some(SlotHash(cr, slots[i]))
        ensures slots[i] != Free && SlotsHashed(cr, slots) ==> InfoOk(cr, FlattenSlot(slots[i]), ClassifySlot(cr, slots[i])) {
        FlattenSlotOk(slots[i], len - 1);
        if slots[i] != Free {
          SlotInfo(cr, slots[i], len - 1);
        }
      }
      NoBranchInEmpty();
    }

    method RamSeek(cr: Crypto, f: RamNode, target: Path, ghost len: nat) returns (e: Option<BranchEntry>)
      requires RamOk(f, len)
      modifies this
      ensures prefix == old(prefix) && LeastBranch(Flatten(f), prefix, target, PathOf(e))
      ensures Describes(Flatten(f), |prefix|, e) && RamGives(cr, f, |prefix|, e)
      ensures MemoOk(cr, f) && AllHashed(cr, f) ==> Vouches(cr, Flatten(f), |prefix|, e)
      decreases f
    {
      hide RamOk, SlotOk, LeastBranch, BranchAt, Lt, AllLess, LexGe, Passed, MasksOk, HashesOk, NodeAt, Flatten, FlattenSlot, FlattenSlots,
        MemoOk, SlotMemoOk, AllHashed, SlotAllHashed, SlotsHashed, RamGives, SlotGives, SlotHashMap;
      ghost var was := prefix;
      var depth := |prefix|;
      NothingGiven(cr);
      FrontierParts(f, len);
      HashedParts(cr, f);
      match f
      case REmpty =>
        e := None;
        NothingBelow(Flatten(f), prefix, target);
      case RExt(path, child, _) =>
        prefix := prefix + path;
        if AllLess(prefix, target) {
          e := None;
          SkippedNode(Flatten(child), prefix, target);
        } else {
          e := RamSeek(cr, child, target, len - |path|);
        }
        ThroughExtension(path, Flatten(child), was, target, PathOf(e));
        UnderPrefix(was, path, Flatten(child), target, e);
        DescribesThrough(cr, path, Flatten(child), depth, e);
        GivesThrough(cr, path, Empty, child, f.memo, depth, e);
        prefix := prefix[..depth];
      case RBranch(slots, _) =>
        ghost var children := FlattenSlots(slots);
        LexGeIsOrder(prefix, target);
        if LexGe(prefix, target) {
          var entry := RamEntry(cr, slots, len);
          e := Some(entry);
          HereFirst(children, prefix, target);
          HereAt(children, prefix);
          GivesHere(cr, [], slots, f.memo, entry);
          return;
        }
        PassedStart(children, prefix, target);
        for i := 0 to 16
          invariant prefix == was && Passed(children, was, target, i)
        {
          prefix := prefix + [i];
          if slots[i] == Free || AllLess(prefix, target) {
            e := None;
            if slots[i] == Free {
              FreeFlattens();
              NothingBelow(children[i], prefix, target);
            } else {
              SkippedNode(children[i], prefix, target);
            }
          } else {
            e := SlotSeek(cr, slots[i], target, len - 1);
          }
          prefix := prefix[..depth];
          PassedChild(children, was, target, i, PathOf(e));
          if e.Some? {
            UnderPrefix(was, [i], children[i], target, e);
            DescribesChild(cr, children, i, depth, e);
            GivesChild(cr, [], slots, f.memo, i, depth, e);
            return;
          }
        }
        e := None;
        PassedAll(children, was, target);
    }

    method SlotSeek(cr: Crypto, s: Slot, target: Path, ghost len: nat) returns (e: Option<BranchEntry>)
      requires SlotOk(s, len) && s != Free
      modifies this
      ensures prefix == old(prefix) && LeastBranch(FlattenSlot(s), prefix, target, PathOf(e))
      ensures Describes(FlattenSlot(s), |prefix|, e) && SlotGives(cr, s, |prefix|, e)
      ensures SlotMemoOk(cr, s) && SlotAllHashed(cr, s) ==> Vouches(cr, FlattenSlot(s), |prefix|, e)
      decreases s
    {
      hide Canonical, LeastBranch, BranchAt, Lt, MasksOk, HashesOk, NodeAt, Flatten, MemoOk, AllHashed;
      match s
      case Ram(sub) => e := RamSeek(cr, sub, target, len);
      case Disk(_, _, rec) => e := NodeSeek(cr, rec.node, target, len);
      case Mem(_, rec) => e := NodeSeek(cr, rec.node, target, len);
      case Promoted(_, _, _, _, _) =>
        e := None;
        NothingBelow(FlattenSlot(s), prefix, target);
    }
  }

  /** Every record root is cached right and no child is small enough to be inlined. */
  ghost predicate SlotsHashed(cr: Crypto, slots: seq<Slot>) {
    forall i :: 0 <= i < |slots| && slots[i] != Free ==>
      SlotMemoOk(cr, slots[i]) && SlotAllHashed(cr, slots[i]) && NodeRef(cr, FlattenSlot(slots[i])).Hash?
  }

  lemma FrontierParts(f: RamNode, len: nat)
    requires RamOk(f, len)
    ensures f.REmpty? ==> Flatten(f) == Empty
    ensures f.RExt? ==> Flatten(f) == Extension(f.path, Flatten(f.child)) && |f.path| <= len && RamOk(f.child, len - |f.path|)
    ensures f.RBranch? ==>
      && 0 < len && |f.slots| == 16 && Flatten(f) == Branch(FlattenSlots(f.slots))
      && forall i :: 0 <= i < 16 ==> SlotOk(f.slots[i], len - 1) && FlattenSlots(f.slots)[i] == FlattenSlot(f.slots[i])
  {
  }

  lemma HashedParts(cr: Crypto, f: RamNode)
    ensures MemoOk(cr, f) && AllHashed(cr, f) && f.RExt? ==> MemoOk(cr, f.child) && AllHashed(cr, f.child)
    ensures MemoOk(cr, f) && AllHashed(cr, f) && f.RBranch? ==>
      SlotsHashed(cr, f.slots) && forall i :: 0 <= i < |f.slots| && f.slots[i] != Free ==> SlotMemoOk(cr, f.slots[i]) && SlotAllHashed(cr, f.slots[i])
  {
  }

  // --------------------------------------------------------------------- cursor

  /** `hit` is the least branch position after `p`, or there is none. */
  ghost predicate LeastAfter(n: Node, p: Path, hit: Option<Path>) {
    if hit.None? then forall q: Path :: BranchAt(n, q) ==> !Lt(p, q)
    else
      && BranchAt(n, hit.value) && Lt(p, hit.value)
      && forall q: Path :: BranchAt(n, q) && Lt(p, q) ==> !Lt(q, hit.value)
  }

  lemma SeekStep(n: Node, p: Path, hit: Option<Path>)
    requires LeastBranch(n, [], p + [0], hit)
    ensures LeastAfter(n, p, hit)
  {
    hide Lt, BranchAt;
    forall q: Path ensures [] + q == q && (!Lt(q, p + [0]) <==> Lt(p, q)) {
      StepIsNext(p, q);
    }
    if hit.Some? {
      assert hit.value[0..] == hit.value;
    }
  }

  /** The cursor over branch positions; the root branch is never returned. */
  class TrieNodeCursor {
    const cr: Crypto
    const upper: RamNode
    var last: Option<Path>

    constructor (cr: Crypto, upper: RamNode)
      ensures this.cr == cr && this.upper == upper && last.None?
    {
      this.cr, this.upper, last := cr, upper, None;
    }

    method Seek(path: Path) returns (e: Option<BranchEntry>)
      requires RamOk(upper, KEY_NIBBLES)
      modifies this
      ensures last == PathOf(e) && Describes(Flatten(upper), 0, e) && RamGives(cr, upper, 0, e)
      ensures path == [] ==> LeastAfter(Flatten(upper), [], PathOf(e))
      ensures path != [] ==> LeastBranch(Flatten(upper), [], path, PathOf(e))
      ensures MemoOk(cr, upper) && AllHashed(cr, upper) ==> Vouches(cr, Flatten(upper), 0, e)
    {
      hide RamOk, LeastBranch, BranchAt, Lt, MasksOk, HashesOk, NodeAt, Flatten, MemoOk, AllHashed, LeastAfter, RamHashes;
      var walk := new BranchWalk();
      var target: Path := if path == [] then [0] else path;
      e := walk.RamSeek(cr, upper, target, KEY_NIBBLES);
      last := PathOf(e);
      if path == [] {
        assert [] + [0] == target;
        SeekStep(Flatten(upper), [], PathOf(e));
      }
    }

    method Next() returns (e: Option<BranchEntry>)
      requires RamOk(upper, KEY_NIBBLES)
      modifies this
      ensures last == PathOf(e) && Describes(Flatten(upper), 0, e) && RamGives(cr, upper, 0, e)
      ensures old(last).None? ==> e.None?
      ensures old(last).Some? ==> LeastAfter(Flatten(upper), old(last).value, PathOf(e))
      ensures MemoOk(cr, upper) && AllHashed(cr, upper) ==> Vouches(cr, Flatten(upper), 0, e)
    {
      hide RamOk, LeastBranch, BranchAt, Lt, MasksOk, HashesOk, NodeAt, Flatten, MemoOk, AllHashed, LeastAfter, RamHashes;
      e := None;
      if last.Some? {
        e := Seek(last.value + [0]);
        SeekStep(Flatten(upper), old(last).value, PathOf(e));
      }
    }

    /** Seek the empty path, then take what comes next until nothing is left: every branch
        position but the root, each once, in pre-order, with right masks and hashes. */
    method ListAll() returns (es: seq<BranchEntry>)
      requires RamOk(upper, KEY_NIBBLES)
      modifies this
      ensures forall q: Path :: q in Paths(es) <==> q != [] && BranchAt(Flatten(upper), q)
      ensures forall i, j :: 0 <= i < j < |es| ==> Lt(Paths(es)[i], Paths(es)[j])
      ensures forall i :: 0 <= i < |es| ==> Describes(Flatten(upper), 0, Some(es[i])) && RamGives(cr, upper, 0, Some(es[i]))
      ensures MemoOk(cr, upper) && AllHashed(cr, upper) ==> forall i :: 0 <= i < |es| ==> Vouches(cr, Flatten(upper), 0, Some(es[i]))
    {
      hide RamOk, BranchAt, Lt, MasksOk, HashesOk, NodeAt, Flatten, MemoOk, AllHashed, LeastAfter, Describes, Vouches, RamGives, Listed, PreRank, Paths, Canonical, C.Pow;
      ghost var n := Flatten(upper);
      FlattenOk(upper, KEY_NIBBLES);
      NoPaths();
      es := [];
      var e := Seek([]);
      ListedNone(n, PathOf(e));
      while e.Some?
        invariant last == PathOf(e) && Describes(n, 0, e) && RamGives(cr, upper, 0, e) && Listed(n, Paths(es), PathOf(e))
        invariant forall i :: 0 <= i < |es| ==> Describes(n, 0, Some(es[i])) && RamGives(cr, upper, 0, Some(es[i]))
        invariant MemoOk(cr, upper) && AllHashed(cr, upper) ==>
          Vouches(cr, n, 0, e) && forall i :: 0 <= i < |es| ==> Vouches(cr, n, 0, Some(es[i]))
        decreases Left(PathOf(e))
      {
        var now := e.value;
        es := es + [now];
        PathsSnoc(es[..|es| - 1], now);
        assert es[..|es| - 1] + [now] == es;
        e := Next();
        ListedMore(n, Paths(es[..|es| - 1]), now.path, PathOf(e));
        LessLeft(n, Paths(es), PathOf(e));
      }
      ListedAll(n, Paths(es));
      BranchListing(n, Paths(es));
    }
  }

  function Paths(es: seq<BranchEntry>): (ks: seq<Path>)
    ensures |ks| == |es|
  {
    if es == [] then [] else Paths(es[..|es| - 1]) + [es[|es| - 1].path]
  }

  lemma NoPaths()
    ensures Paths([]) == []
  {
  }

  lemma PathsSnoc(es: seq<BranchEntry>, e: BranchEntry)
    ensures Paths(es + [e]) == Paths(es) + [e.path]
  {
    assert (es + [e])[..|es|] == es;
  }

  // --------------------------------------------------------------- how far it goes

  /** The place of a path of at most `len` nibbles in pre-order: a base-17 number in which a
      missing nibble is the least digit. */
  function PreRank(p: Path, len: nat): nat {
    if len == 0 || p == [] then 0 else ((p[0] as int) + 1) * C.Pow(17, len - 1) + PreRank(p[1..], len - 1)
  }

  lemma {:induction false} PreRankBound(p: Path, len: nat)
    ensures PreRank(p, len) < C.Pow(17, len)
    decreases len
  {
    if len > 0 {
      PreRankBound(if p == [] then [] else p[1..], len - 1);
      if p != [] {
        AtMost((p[0] as int) + 1, 16, C.Pow(17, len - 1));
      }
    }
  }

  lemma AtMost(a: nat, b: nat, m: nat)
    requires a <= b
    ensures a * m <= b * m
  {
  }

  lemma {:induction false} PreRankIsOrder(a: Path, b: Path, len: nat)
    requires Lt(a, b) && |a| <= len && |b| <= len
    ensures PreRank(a, len) < PreRank(b, len)
    decreases len
  {
    var m := C.Pow(17, len - 1);
    PreRankBound([], len - 1);
    if a == [] {
      AtMost(1, (b[0] as int) + 1, m);
    } else {
      PreRankBound(a[1..], len - 1);
      if a[0] < b[0] {
        AtMost((a[0] as int) + 2, (b[0] as int) + 1, m);
        assert ((a[0] as int) + 2) * m == ((a[0] as int) + 1) * m + m;
      } else {
        PreRankIsOrder(a[1..], b[1..], len - 1);
      }
    }
  }

  lemma {:induction false} BranchDepth(n: Node, len: nat, q: Path)
    requires Canonical(n, len) && BranchAt(n, q)
    ensures |q| < len
    decreases n
  {
    match n
    case Extension(path, child) => BranchDepth(child, len - |path|, q[|path|..]);
    case Branch(children) =>
      if q != [] {
        BranchDepth(children[q[0]], len - 1, q[1..]);
      }
  }

  /** How many positions can still come. */
  function Left(hit: Option<Path>): nat {
    if hit.Some? && PreRank(hit.value, KEY_NIBBLES) < C.Pow(17, KEY_NIBBLES) then C.Pow(17, KEY_NIBBLES) - PreRank(hit.value, KEY_NIBBLES) else 0
  }

  lemma LessLeft(n: Node, ks: seq<Path>, hit: Option<Path>)
    requires Canonical(n, KEY_NIBBLES) && ks != [] && Listed(n, ks, hit)
    ensures Left(hit) < Left(Some(ks[|ks| - 1]))
  {
    hide C.Pow, PreRank, Lt, Canonical, BranchAt;
    var k := |ks| - 1;
    assert LeastAfter(n, Prev(ks, k), NextOf(ks, k, hit)) && LeastAfter(n, Prev(ks, k + 1), NextOf(ks, k + 1, hit));
    BranchDepth(n, KEY_NIBBLES, ks[k]);
    PreRankBound(ks[k], KEY_NIBBLES);
    if hit.Some? {
      BranchDepth(n, KEY_NIBBLES, hit.value);
      PreRankBound(hit.value, KEY_NIBBLES);
      PreRankIsOrder(ks[k], hit.value, KEY_NIBBLES);
    }
  }

  function NextOf(ks: seq<Path>, i: nat, next: Option<Path>): Option<Path> {
    if i < |ks| then Some(ks[i]) else next
  }

  /** The positions so far, and what comes after them. */
  ghost predicate Listed(n: Node, ks: seq<Path>, next: Option<Path>) {
    forall i :: 0 <= i <= |ks| ==> LeastAfter(n, Prev(ks, i), NextOf(ks, i, next))
  }

  lemma ListedNone(n: Node, next: Option<Path>)
    requires LeastAfter(n, [], next)
    ensures Listed(n, [], next)
  {
    hide LeastAfter;
    assert Prev([], 0) == [] && NextOf([], 0, next) == next;
  }

  lemma ListedMore(n: Node, ks: seq<Path>, k: Path, next: Option<Path>)
    requires Listed(n, ks, Some(k)) && LeastAfter(n, k, next)
    ensures Listed(n, ks + [k], next)
  {
    hide LeastAfter;
    var all := ks + [k];
    forall i | 0 <= i <= |all| ensures LeastAfter(n, Prev(all, i), NextOf(all, i, next)) {
      if i <= |ks| {
        assert LeastAfter(n, Prev(ks, i), NextOf(ks, i, Some(k)));
        assert Prev(all, i) == Prev(ks, i) && NextOf(all, i, next) == NextOf(ks, i, Some(k));
      }
    }
  }

  lemma ListedAll(n: Node, ks: seq<Path>)
    requires Listed(n, ks, None)
    ensures Listing(n, ks)
  {
    hide LeastAfter;
    forall i | 0 <= i <= |ks| ensures LeastAfter(n, Prev(ks, i), Nth(ks, i)) {
      assert LeastAfter(n, Prev(ks, i), NextOf(ks, i, None));
    }
  }

  // -------------------------------------------------------------------- listing

  function Prev(ks: seq<Path>, i: nat): Path
    requires i <= |ks|
  {
    if i == 0 then [] else ks[i - 1]
  }

  function Nth(ks: seq<Path>, i: nat): Option<Path> {
    if i < |ks| then Some(ks[i]) else None
  }

  /** What `seek` on the empty path and then `next` until nothing is left return. */
  ghost predicate Listing(n: Node, ks: seq<Path>) {
    forall i :: 0 <= i <= |ks| ==> LeastAfter(n, Prev(ks, i), Nth(ks, i))
  }

  lemma {:induction false} ListingAscends(n: Node, ks: seq<Path>, i: nat, j: nat)
    requires Listing(n, ks) && i < j < |ks|
    ensures Lt(ks[i], ks[j])
    decreases j
  {
    hide Lt, BranchAt;
    assert LeastAfter(n, Prev(ks, j), Nth(ks, j));
    if i < j - 1 {
      ListingAscends(n, ks, i, j - 1);
      LtTransitive(ks[i], ks[j - 1], ks[j]);
    }
  }

  lemma {:induction false} ListingReaches(n: Node, ks: seq<Path>, q: Path, i: nat)
    requires Listing(n, ks) && BranchAt(n, q) && q != [] && i <= |ks|
    ensures q in ks[..i] || Lt(Prev(ks, i), q)
    decreases i
  {
    if i > 0 {
      hide Lt, BranchAt;
      ListingReaches(n, ks, q, i - 1);
      assert LeastAfter(n, Prev(ks, i - 1), Nth(ks, i - 1));
      LtOrder(q, ks[i - 1]);
      assert ks[..i] == ks[..i - 1] + [ks[i - 1]];
    }
  }

  /** The branch cursor lists every branch position but the root, each once, in pre-order. */
  lemma BranchListing(n: Node, ks: seq<Path>)
    requires Listing(n, ks)
    ensures forall q: Path :: q in ks <==> q != [] && BranchAt(n, q)
    ensures forall i, j :: 0 <= i < j < |ks| ==> Lt(ks[i], ks[j]) && ks[i] != ks[j]
  {
    hide BranchAt;
    forall i, j | 0 <= i < j < |ks| ensures Lt(ks[i], ks[j]) && ks[i] != ks[j] {
      ListingAscends(n, ks, i, j);
      LtOrder(ks[i], ks[i]);
    }
    forall q: Path ensures q in ks <==> q != [] && BranchAt(n, q) {
      if q != [] && BranchAt(n, q) {
        ListingReaches(n, ks, q, |ks|);
        assert ks[..|ks|] == ks;
        ListingEnds(n, ks, q);
      }
      if q in ks {
        var i :| 0 <= i < |ks| && ks[i] == q;
        ListedIsBranch(n, ks, i);
      }
    }
  }

  lemma ListingEnds(n: Node, ks: seq<Path>, q: Path)
    requires Listing(n, ks) && BranchAt(n, q)
    ensures !Lt(Prev(ks, |ks|), q)
  {
    hide Lt, BranchAt;
    assert LeastAfter(n, Prev(ks, |ks|), Nth(ks, |ks|));
  }

  lemma ListedIsBranch(n: Node, ks: seq<Path>, i: nat)
    requires Listing(n, ks) && i < |ks|
    ensures ks[i] != [] && BranchAt(n, ks[i])
  {
    assert LeastAfter(n, Prev(ks, i), Nth(ks, i));
  }

  lemma NoBranchInEmpty()
    ensures !HasBranch(Empty)
  {
  }

  lemma NothingBelow(n: Node, prefix: Path, target: Path)
    requires n.Empty? || n.Leaf?
    ensures LeastBranch(n, prefix, target, None)
  {
  }

  lemma HereAt(children: seq<Node>, prefix: Path)
    ensures prefix[|prefix|..] == [] && NodeAt(Branch(children), []) == Branch(children)
  {
  }
}

/** Insert and delete are exact point updates that keep the canonical shape, and the
    canonical shape is unique: two canonical tries with the same lookups are equal.
    Hence the trie, and its root, depend only on the final contents.
 */
module TrieLaws {
  import opened Trie

  ghost predicate ItemOk(o: Option<Item>) {
    o.Some? && o.value.Account? ==> Canonical(o.value.storage, KEY_NIBBLES)
  }

  /** `n'` looks up like `n`, except that `key` now holds `o`. */
  ghost predicate Updated(n: Node, n': Node, key: Path, o: Option<Item>) {
    forall k: Path :: |k| == |key| ==> Get(n', k) == if k == key then o else Get(n, k)
  }

  ghost predicate SameLookups(n: Node, m: Node, len: nat) {
    forall k: Path :: |k| == len ==> Get(n, k) == Get(m, k)
  }

  // --------------------------------------------------------------------- helpers

  lemma LiveSlotsUpdate(cs: seq<Node>, i: nat, x: Node)
    requires i < |cs|
    ensures LiveSlots(cs[i := x]) == if x != Empty then LiveSlots(cs) + {i} else LiveSlots(cs) - {i}
    ensures x != Empty ==> |LiveSlots(cs)| <= |LiveSlots(cs[i := x])|
  {
    if x != Empty && i in LiveSlots(cs) {
      assert LiveSlots(cs) + {i} == LiveSlots(cs);
    }
  }

  lemma UpdatedUnderPath(path: Path, c: Node, c': Node, key: Path, o: Option<Item>, n': Node)
    requires path <= key && Updated(c, c', key[|path|..], o)
    requires forall k: Path :: Get(n', k) == if path <= k then Get(c', k[|path|..]) else None
    ensures Updated(Extension(path, c), n', key, o)
  {
    forall k: Path | |k| == |key| ensures Get(n', k) == if k == key then o else Get(Extension(path, c), k) {
      if path <= k {
        assert k == path + k[|path|..] && key == path + key[|path|..];
        assert |k[|path|..]| == |key[|path|..]|;
      }
    }
  }

  lemma UpdatedUnderExtension(path: Path, c: Node, c': Node, key: Path, o: Option<Item>)
    requires path <= key && Updated(c, c', key[|path|..], o)
    ensures Updated(Extension(path, c), Extension(path, c'), key, o)
  {
    hide Updated;
    UpdatedUnderPath(path, c, c', key, o, Extension(path, c'));
  }

  lemma UpdatedUnderBranch(cs: seq<Node>, x: Node, key: Path, o: Option<Item>)
    requires |cs| == 16 && key != [] && Updated(cs[key[0]], x, key[1..], o)
    ensures Updated(Branch(cs), Branch(cs[key[0] := x]), key, o)
  {
    forall k: Path | |k| == |key|
      ensures Get(Branch(cs[key[0] := x]), k) == if k == key then o else Get(Branch(cs), k) {
      assert k == [k[0]] + k[1..] && key == [key[0]] + key[1..];
      assert |k[1..]| == |key[1..]|;
    }
  }

  lemma {:induction false} GetCanonical(n: Node, key: Path)
    requires Canonical(n, |key|)
    ensures ItemOk(Get(n, key))
  {
    match n
    case Empty =>
    case Leaf(_, _) =>
    case Extension(path, child) => if path <= key { GetCanonical(child, key[|path|..]); }
    case Branch(children) => GetCanonical(children[key[0]], key[1..]);
  }

  lemma GetPrepend(n: Node, edge: Path, key: Path)
    requires n != Empty || edge == []
    ensures Get(PrependPath(n, edge), key) == if edge <= key then Get(n, key[|edge|..]) else None
  {
    if edge == [] {
      assert key[0..] == key;
    } else {
      match n
      case Leaf(path, item) =>
        if edge <= key {
          assert key == edge + key[|edge|..];
        }
      case Extension(path, child) =>
        if edge + path <= key {
          assert key[|edge|..][..|path|] == path;
          assert key[|edge + path|..] == key[|edge|..][|path|..];
        } else if edge <= key {
          assert key == edge + key[|edge|..];
          assert |edge| + |path| <= |key| ==> key[..|edge + path|] == edge + key[|edge|..][..|path|];
        }
      case Branch(_) =>
    }
  }

  lemma CanonicalPrepend(n: Node, edge: Path, len: nat)
    requires Canonical(n, len) && n != Empty
    ensures Canonical(PrependPath(n, edge), |edge| + len) && PrependPath(n, edge) != Empty
  {
  }

  lemma PrependBranch(path: Path, cs: seq<Node>)
    ensures ExtensionOver(path, Branch(cs)) == PrependPath(Branch(cs), path)
  {
  }

  // ------------------------------------------------------------------------ fork

  lemma ForkCanonical(prefix: Path, i: Nibble, x: Node, j: Nibble, y: Node, len: nat)
    requires i != j && x != Empty && y != Empty && Canonical(x, len) && Canonical(y, len)
    ensures Canonical(Fork(prefix, i, x, j, y), |prefix| + 1 + len)
    ensures Fork(prefix, i, x, j, y) != Empty
  {
    hide Canonical, LiveSlots;
    var cs := NO_CHILDREN[i := x][j := y];
    ForkSlots(i, x, j, y);
    forall k | 0 <= k < 16 ensures Canonical(cs[k], len) {
      EmptyCanonical(len);
    }
    BranchCanonical(cs, 1 + len);
    PrependBranch(prefix, cs);
    CanonicalPrepend(Branch(cs), prefix, 1 + len);
  }

  lemma EmptyCanonical(len: nat)
    ensures Canonical(Empty, len)
  {
  }

  lemma BranchCanonical(cs: seq<Node>, len: nat)
    requires 0 < len && |cs| == 16 && (forall i :: 0 <= i < 16 ==> Canonical(cs[i], len - 1)) && 2 <= |LiveSlots(cs)|
    ensures Canonical(Branch(cs), len)
  {
  }

  lemma ForkSlots(i: Nibble, x: Node, j: Nibble, y: Node)
    requires i != j && x != Empty && y != Empty
    ensures |LiveSlots(NO_CHILDREN[i := x][j := y])| == 2
  {
    assert LiveSlots(NO_CHILDREN[i := x][j := y]) == {i, j};
  }

  lemma GetFork(prefix: Path, i: Nibble, x: Node, j: Nibble, y: Node, key: Path)
    requires i != j && |prefix| < |key|
    ensures Get(Fork(prefix, i, x, j, y), key) == (
      if !(prefix <= key) then None
      else if key[|prefix|] == i then Get(x, key[|prefix| + 1..])
      else if key[|prefix|] == j then Get(y, key[|prefix| + 1..])
      else None)
  {
    var cs := NO_CHILDREN[i := x][j := y];
    PrependBranch(prefix, cs);
    GetPrepend(Branch(cs), prefix, key);
    if prefix <= key {
      assert key[|prefix|..][1..] == key[|prefix| + 1..];
    }
  }

  /** A key splits at `c` into prefix, nibble and rest, and equality splits with it. */
  lemma SplitEqual(k: Path, p: Path, c: nat)
    requires |k| == |p| && c < |p|
    ensures k == p <==> p[..c] <= k && k[c] == p[c] && k[c + 1..] == p[c + 1..]
  {
    if p[..c] <= k && k[c] == p[c] && k[c + 1..] == p[c + 1..] {
      assert k == k[..c] + [k[c]] + k[c + 1..];
      assert p == p[..c] + [p[c]] + p[c + 1..];
    }
  }

  lemma SplitPrefix(k: Path, p: Path, c: nat)
    requires c < |p| <= |k|
    ensures p <= k <==> p[..c] <= k && k[c] == p[c] && p[c + 1..] <= k[c + 1..]
    ensures k[|p|..] == k[c + 1..][|p[c + 1..]|..]
  {
    if p <= k {
      assert p[..c] == k[..c];
      assert p[c + 1..] == k[c + 1..][..|p| - c - 1];
    }
    if p[..c] <= k && k[c] == p[c] && p[c + 1..] <= k[c + 1..] {
      assert p == p[..c] + [p[c]] + p[c + 1..];
      assert k[..|p|] == k[..c] + [k[c]] + k[c + 1..][..|p| - c - 1];
    }
  }

  lemma SplitLeaf(path: Path, item: Item, key: Path, it: Item)
    requires |path| == |key| && path != key
    requires item.Account? ==> Canonical(item.storage, KEY_NIBBLES)
    requires it.Account? ==> Canonical(it.storage, KEY_NIBBLES)
    ensures var c := CommonPrefix(path, key);
      && c < |path|
      && var n' := Fork(path[..c], path[c], Leaf(path[c + 1..], item), key[c], Leaf(key[c + 1..], it));
         Canonical(n', |key|) && n' != Empty && Updated(Leaf(path, item), n', key, Some(it))
  {
    hide CommonPrefix, Fork, Canonical;
    var c := CommonPrefix(path, key);
    assert path[..|path|] == path && key[..|key|] == key;
    var x, y := Leaf(path[c + 1..], item), Leaf(key[c + 1..], it);
    var n' := Fork(path[..c], path[c], x, key[c], y);
    LeafCanonical(path[c + 1..], item);
    LeafCanonical(key[c + 1..], it);
    ForkCanonical(path[..c], path[c], x, key[c], y, |path| - c - 1);
    forall k: Path | |k| == |key| ensures Get(n', k) == if k == key then Some(it) else Get(Leaf(path, item), k) {
      GetFork(path[..c], path[c], x, key[c], y, k);
      SplitEqual(k, path, c);
      SplitEqual(k, key, c);
    }
  }

  lemma SplitExtensionCanonical(path: Path, child: Node, key: Path, it: Item, c: nat)
    requires Canonical(Extension(path, child), |key|) && c < |path| && path[c] != key[c]
    requires it.Account? ==> Canonical(it.storage, KEY_NIBBLES)
    ensures Canonical(Fork(path[..c], path[c], ExtensionOver(path[c + 1..], child), key[c], Leaf(key[c + 1..], it)), |key|)
    ensures Fork(path[..c], path[c], ExtensionOver(path[c + 1..], child), key[c], Leaf(key[c + 1..], it)) != Empty
  {
    hide Fork, ExtensionOver, Canonical;
    ExtensionShape(path, child, |key|);
    SplitExtensionChild(path, child, c, |key|);
    LeafCanonical(key[c + 1..], it);
    ForkCanonical(path[..c], path[c], ExtensionOver(path[c + 1..], child), key[c], Leaf(key[c + 1..], it), |key| - c - 1);
  }

  lemma SplitExtensionChild(path: Path, child: Node, c: nat, len: nat)
    requires Canonical(Extension(path, child), len) && c < |path|
    ensures Canonical(ExtensionOver(path[c + 1..], child), len - c - 1) && ExtensionOver(path[c + 1..], child) != Empty
  {
    PrependBranch(path[c + 1..], child.children);
    CanonicalPrepend(child, path[c + 1..], len - |path|);
  }

  lemma SplitExtensionLookups(path: Path, child: Node, key: Path, it: Item)
    requires Canonical(Extension(path, child), |key|) && CommonPrefix(path, key) < |path|
    ensures var c := CommonPrefix(path, key);
      var n' := Fork(path[..c], path[c], ExtensionOver(path[c + 1..], child), key[c], Leaf(key[c + 1..], it));
      Updated(Extension(path, child), n', key, Some(it))
  {
    hide Fork, ExtensionOver, Canonical, CommonPrefix;
    var c := CommonPrefix(path, key);
    var rest := path[c + 1..];
    assert child.Branch? && |path| < |key| by { ExtensionShape(path, child, |key|); }
    var x, y := ExtensionOver(rest, child), Leaf(key[c + 1..], it);
    PrependBranch(rest, child.children);
    var n' := Fork(path[..c], path[c], x, key[c], y);
    forall k: Path | |k| == |key| ensures Get(n', k) == if k == key then Some(it) else Get(Extension(path, child), k) {
      GetFork(path[..c], path[c], x, key[c], y, k);
      GetPrepend(child, rest, k[c + 1..]);
      SplitPrefix(k, path, c);
      SplitEqual(k, key, c);
    }
  }

  lemma LeafCanonical(path: Path, it: Item)
    requires it.Account? ==> Canonical(it.storage, KEY_NIBBLES)
    ensures Canonical(Leaf(path, it), |path|)
  {
  }

  lemma ExtensionShape(path: Path, child: Node, len: nat)
    requires Canonical(Extension(path, child), len)
    ensures child.Branch? && 0 < |path| < len && Canonical(child, len - |path|)
  {
  }

  lemma ExtensionCanonical(path: Path, child: Node, len: nat)
    requires child.Branch? && 0 < |path| < len && Canonical(child, len - |path|)
    ensures Canonical(Extension(path, child), len)
  {
  }

  // ---------------------------------------------------------------------- insert

  lemma {:induction false} ResolveCanonical(before: Option<Item>, op: LeafOp)
    requires OpOk(op) && ItemOk(before)
    ensures Resolve(before, op).Ok? ==> ItemOk(Some(Resolve(before, op).value))
    decreases Rank(op), 0
  {
    if op.SetSlot? {
      InsertSpec(Empty, op.slot, SetValue(op.bytes));
      if before.Some? && before.value.Account? {
        InsertSpec(before.value.storage, op.slot, SetValue(op.bytes));
      }
    }
  }

  ghost predicate InsertOk(n: Node, key: Path, op: LeafOp)
    requires OpOk(op) && Canonical(n, |key|)
  {
    && ItemOk(Get(n, key))
    && (Insert(n, key, op).Ok? <==> Resolve(Get(n, key), op).Ok?)
    && (Insert(n, key, op).Ok? ==>
      var n' := Insert(n, key, op).value;
      && Canonical(n', |key|) && n' != Empty && (n.Branch? ==> n'.Branch?)
      && Updated(n, n', key, Some(Resolve(Get(n, key), op).value)))
  }

  /** Insert puts exactly the resolved item at exactly the key, keeps the canonical
      shape, and fails exactly when the operation does not fit what is there. */
  lemma {:induction false} InsertSpec(n: Node, key: Path, op: LeafOp)
    requires OpOk(op) && Canonical(n, |key|)
    ensures InsertOk(n, key, op)
    decreases Rank(op), 1, n
  {
    match n
    case Empty =>
      InsertEmpty(key, op);
    case Leaf(path, item) =>
      InsertLeaf(path, item, key, op);
    case Extension(path, child) =>
      if CommonPrefix(path, key) == |path| {
        InsertExtension(path, child, key, op);
      } else {
        InsertAside(path, child, key, op);
      }
    case Branch(children) =>
      InsertBranch(children, key, op);
  }

  lemma InsertEmpty(key: Path, op: LeafOp)
    requires OpOk(op)
    ensures InsertOk(Empty, key, op)
    decreases Rank(op), 1, Empty, 0
  {
    ResolveCanonical(None, op);
  }

  lemma InsertLeaf(path: Path, item: Item, key: Path, op: LeafOp)
    requires OpOk(op) && Canonical(Leaf(path, item), |key|)
    ensures InsertOk(Leaf(path, item), key, op)
    decreases Rank(op), 1, Leaf(path, item), 0
  {
    ResolveCanonical(None, op);
    ResolveCanonical(Some(item), op);
    if path == key {
      InsertSame(path, item, op);
    } else {
      InsertBeside(path, item, key, op);
    }
  }

  lemma InsertSame(path: Path, item: Item, op: LeafOp)
    requires OpOk(op) && Canonical(Leaf(path, item), |path|)
    requires Resolve(Some(item), op).Ok? ==> ItemOk(Some(Resolve(Some(item), op).value))
    ensures InsertOk(Leaf(path, item), path, op)
  {
    hide Fork, Resolve, PlaceNew, Updated, Canonical;
    LeafShape(path, item, |path|);
    assert CommonPrefix(path, path) == |path|;
    var r := Resolve(Some(item), op);
    assert Insert(Leaf(path, item), path, op) == if r.Ok? then Ok(Leaf(path, r.value)) else Err;
    if r.Ok? {
      LeafCanonical(path, r.value);
      UpdatedLeaf(path, item, r.value);
    }
  }

  lemma UpdatedLeaf(path: Path, item: Item, it: Item)
    ensures Updated(Leaf(path, item), Leaf(path, it), path, Some(it))
  {
  }

  lemma InsertBeside(path: Path, item: Item, key: Path, op: LeafOp)
    requires OpOk(op) && Canonical(Leaf(path, item), |key|) && path != key
    requires Resolve(None, op).Ok? ==> ItemOk(Some(Resolve(None, op).value))
    ensures InsertOk(Leaf(path, item), key, op)
  {
    hide Fork, Resolve, Updated, Canonical, CommonPrefix, Insert;
    LeafShape(path, item, |key|);
    assert path[..|path|] == path && key[..|key|] == key;
    LeafSplits(path, item, key, op);
    if Resolve(None, op).Ok? {
      SplitLeaf(path, item, key, Resolve(None, op).value);
    }
  }

  lemma LeafSplits(path: Path, item: Item, key: Path, op: LeafOp)
    requires OpOk(op) && Canonical(Leaf(path, item), |key|) && CommonPrefix(path, key) < |path|
    ensures var c := CommonPrefix(path, key);
      && |path| == |key| && path[c] != key[c]
      && Insert(Leaf(path, item), key, op) == (
      var r := PlaceNew(key[c + 1..], op);
      if r.Err? then Err else Ok(Fork(path[..c], path[c], Leaf(path[c + 1..], item), key[c], r.value)))
  {
    LeafShape(path, item, |key|);
    hide CommonPrefix, PlaceNew, Fork, Canonical;
  }

  lemma LeafShape(path: Path, item: Item, len: nat)
    requires Canonical(Leaf(path, item), len)
    ensures |path| == len && ItemOk(Some(item))
  {
  }

  lemma InsertAside(path: Path, child: Node, key: Path, op: LeafOp)
    requires OpOk(op) && Canonical(Extension(path, child), |key|) && CommonPrefix(path, key) < |path|
    ensures InsertOk(Extension(path, child), key, op)
    decreases Rank(op), 1, Extension(path, child), 0
  {
    hide Fork, Updated, ExtensionOver, CommonPrefix, Insert, Canonical, Get, Resolve;
    ResolveCanonical(None, op);
    AsideMissing(path, child, key);
    InsertSplits(path, child, key, op);
    var c := CommonPrefix(path, key);
    if Resolve(None, op).Ok? {
      var it := Resolve(None, op).value;
      SplitExtensionCanonical(path, child, key, it, c);
      SplitExtensionLookups(path, child, key, it);
    }
  }

  /** Where an insert leaves an extension's path, the extension is split there. */
  lemma InsertSplits(path: Path, child: Node, key: Path, op: LeafOp)
    requires OpOk(op) && Canonical(Extension(path, child), |key|) && CommonPrefix(path, key) < |path|
    ensures var c := CommonPrefix(path, key);
      && c < |key| && path[c] != key[c]
      && Insert(Extension(path, child), key, op) == (
      var r := PlaceNew(key[c + 1..], op);
      if r.Err? then Err else Ok(Fork(path[..c], path[c], ExtensionOver(path[c + 1..], child), key[c], r.value)))
  {
    ExtensionLen(path, child, |key|);
    hide CommonPrefix, PlaceNew, Fork, ExtensionOver, Canonical;
  }

  lemma ExtensionLen(path: Path, child: Node, len: nat)
    requires Canonical(Extension(path, child), len)
    ensures |path| <= len
  {
  }

  lemma AsideMissing(path: Path, child: Node, key: Path)
    requires CommonPrefix(path, key) < |path|
    ensures Get(Extension(path, child), key) == None
  {
  }

  lemma InsertExtension(path: Path, child: Node, key: Path, op: LeafOp)
    requires OpOk(op) && Canonical(Extension(path, child), |key|) && CommonPrefix(path, key) == |path|
    ensures InsertOk(Extension(path, child), key, op)
    decreases Rank(op), 1, Extension(path, child), 0
  {
    hide Updated, Canonical, Resolve, PlaceNew, Fork, CommonPrefix;
    assert path[..|path|] == path && path <= key;
    ExtensionShape(path, child, |key|);
    InsertSpec(child, key[|path|..], op);
    var n := Extension(path, child);
    assert Get(n, key) == Get(child, key[|path|..]);
    assert Insert(n, key, op).Ok? == Insert(child, key[|path|..], op).Ok?;
    if Insert(n, key, op).Ok? {
      var c' := Insert(child, key[|path|..], op).value;
      assert Insert(n, key, op).value == Extension(path, c');
      ExtensionCanonical(path, c', |key|);
      UpdatedUnderExtension(path, child, c', key, Some(Resolve(Get(n, key), op).value));
    }
  }

  lemma InsertBranch(children: seq<Node>, key: Path, op: LeafOp)
    requires OpOk(op) && Canonical(Branch(children), |key|)
    ensures InsertOk(Branch(children), key, op)
    decreases Rank(op), 1, Branch(children), 0
  {
    hide Updated;
    var n, i := Branch(children), key[0];
    InsertSpec(children[i], key[1..], op);
    if Insert(n, key, op).Ok? {
      var x := Insert(children[i], key[1..], op).value;
      assert Insert(n, key, op).value == Branch(children[i := x]);
      LiveSlotsUpdate(children, i, x);
      UpdatedUnderBranch(children, x, key, Some(Resolve(Get(n, key), op).value));
    }
  }
}

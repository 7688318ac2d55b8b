/** Layout never changes content: every frontier operation, with promotion decided
    arbitrarily, commutes with flattening the frontier into one record trie.
 */
module FrontierFlatten {
  import opened Trie
  import opened TrieLaws
  import opened TrieHistory
  import opened TrieRoot
  import opened Frontier

  // --------------------------------------------------------------------- helpers

  lemma FlattenUpdate(slots: seq<Slot>, i: nat, x: Slot)
    requires i < |slots|
    ensures FlattenSlots(slots[i := x]) == FlattenSlots(slots)[i := FlattenSlot(x)]
  {
    hide FlattenSlots, FlattenSlot;
    var a, b := FlattenSlots(slots[i := x]), FlattenSlots(slots)[i := FlattenSlot(x)];
    forall k | 0 <= k < |a| ensures a[k] == b[k] {
    }
  }

  lemma {:induction false} FlattenOk(f: RamNode, len: nat)
    requires RamOk(f, len)
    ensures Canonical(Flatten(f), len)
    ensures (f.REmpty? <==> Flatten(f).Empty?) && (f.RBranch? <==> Flatten(f).Branch?) && (f.RExt? <==> Flatten(f).Extension?)
    decreases f
  {
    match f
    case REmpty =>
    case RExt(path, child, _) =>
      FlattenOk(child, len - |path|);
      ExtensionCanonical(path, Flatten(child), len);
    case RBranch(slots, _) =>
      forall i | 0 <= i < 16 ensures Canonical(FlattenSlot(slots[i]), len - 1) && (slots[i] == Free <==> FlattenSlot(slots[i]) == Empty) {
        FlattenSlotOk(slots[i], len - 1);
      }
      LiveAgree(slots);
      BranchCanonical(FlattenSlots(slots), len);
  }

  lemma {:induction false} FlattenSlotOk(s: Slot, len: nat)
    requires SlotOk(s, len)
    ensures Canonical(FlattenSlot(s), len) && (s == Free <==> FlattenSlot(s) == Empty)
    decreases s
  {
    match s
    case Free =>
    case Ram(n) => FlattenOk(n, len);
    case Disk(_, _, _) =>
    case Mem(_, _) =>
    case Promoted(path, _, _, _, storage) => FlattenOk(storage, KEY_NIBBLES);
  }

  lemma LiveAgree(slots: seq<Slot>)
    requires forall i :: 0 <= i < |slots| ==> (slots[i] == Free <==> FlattenSlot(slots[i]) == Empty)
    ensures LiveSlots(FlattenSlots(slots)) == LiveRam(slots)
  {
    hide FlattenSlots, FlattenSlot;
  }

  lemma FlattenExtOver(path: Path, f: RamNode)
    ensures Flatten(RExtOver(path, f)) == ExtensionOver(path, Flatten(f))
  {
  }

  lemma FlattenMerge(path: Path, f: RamNode)
    requires path != [] && f != REmpty
    ensures Flatten(RMerge(path, f)) == PrependPath(Flatten(f), path)
  {
  }

  lemma MergeOk(path: Path, f: RamNode, len: nat)
    requires path != [] && f != REmpty && RamOk(f, len) && 0 < len
    ensures RamOk(RMerge(path, f), |path| + len) && RMerge(path, f) != REmpty
  {
  }

  lemma FlattenNoSlots()
    ensures FlattenSlots(NO_SLOTS) == NO_CHILDREN
  {
    hide FlattenSlots;
    var a := FlattenSlots(NO_SLOTS);
    forall i | 0 <= i < 16 ensures a[i] == NO_CHILDREN[i] {
    }
  }

  lemma FlattenFork(path: Path, i: Nibble, x: Slot, j: Nibble, y: Slot)
    ensures Flatten(RFork(path, i, x, j, y)) == Fork(path, i, FlattenSlot(x), j, FlattenSlot(y))
  {
    hide FlattenSlots, FlattenSlot;
    FlattenNoSlots();
    FlattenUpdate(NO_SLOTS, i, x);
    FlattenUpdate(NO_SLOTS[i := x], j, y);
    FlattenExtOver(path, RBranch(NO_SLOTS[i := x][j := y], None));
  }

  lemma RForkOk(path: Path, i: Nibble, x: Slot, j: Nibble, y: Slot, len: nat)
    requires i != j && x != Free && y != Free && SlotOk(x, len) && SlotOk(y, len)
    ensures RamOk(RFork(path, i, x, j, y), |path| + 1 + len) && RFork(path, i, x, j, y) != REmpty
  {
    hide SlotOk, RamOk, LiveRam;
    var slots := NO_SLOTS[i := x][j := y];
    ForkLive(i, x, j, y);
    FreeOk(len);
    forall k | 0 <= k < 16 ensures SlotOk(slots[k], len) {
    }
    BranchOk(slots, None, 1 + len);
    ExtOverOk(path, RBranch(slots, None), 1 + len);
  }

  lemma ForkLive(i: Nibble, x: Slot, j: Nibble, y: Slot)
    requires i != j && x != Free && y != Free
    ensures |LiveRam(NO_SLOTS[i := x][j := y])| == 2
  {
    assert LiveRam(NO_SLOTS[i := x][j := y]) == {i, j};
  }

  lemma BranchOk(slots: seq<Slot>, memo: Option<Bytes>, len: nat)
    requires 0 < len && |slots| == 16 && (forall i :: 0 <= i < 16 ==> SlotOk(slots[i], len - 1)) && 2 <= |LiveRam(slots)|
    ensures RamOk(RBranch(slots, memo), len)
  {
  }

  lemma ExtOverOk(path: Path, f: RamNode, len: nat)
    requires f.RBranch? && 0 < len && RamOk(f, len)
    ensures RamOk(RExtOver(path, f), |path| + len) && RExtOver(path, f) != REmpty
  {
  }

  lemma FreeOk(len: nat)
    ensures SlotOk(Free, len)
  {
  }

  lemma LiveRamUpdate(slots: seq<Slot>, i: nat, x: Slot)
    requires i < |slots|
    ensures LiveRam(slots[i := x]) == if x != Free then LiveRam(slots) + {i} else LiveRam(slots) - {i}
    ensures x != Free ==> |LiveRam(slots)| <= |LiveRam(slots[i := x])|
  {
    if x != Free && i in LiveRam(slots) {
      assert LiveRam(slots) + {i} == LiveRam(slots);
    }
  }

  // ------------------------------------------------------------------- promotion

  /** Promotion lifts a record into the frontier without changing what it flattens to. */
  lemma {:induction false} PromoteFlattens(cr: Crypto, pol: Policy, rec: Rec, len: nat)
    requires HasTopBranch(rec.node) && Canonical(rec.node, len)
    ensures Flatten(Promote(cr, pol, rec)) == rec.node
    ensures RamOk(Promote(cr, pol, rec), len) && Promote(cr, pol, rec) != REmpty
    decreases rec.node, 2
  {
    hide Canonical, Flatten, FlattenSlots, FlattenSlot, RamOk, SlotOk, PromoteChildren, LiveRam, LiveSlots, RExtOver;
    var path := if rec.node.Extension? then rec.node.path else [];
    var branch := if rec.node.Extension? then rec.node.child else rec.node;
    TopShape(rec.node, len);
    PromoteChildrenFlatten(cr, pol, rec.prefix + path, branch, len - |path|, 0);
    var slots := PromoteChildren(cr, pol, rec.prefix + path, branch, 0);
    assert FlattenSlots(slots) == branch.children;
    LiveAgree(slots);
    BranchOk(slots, None, len - |path|);
    FlattenExtOver(path, RBranch(slots, None));
    FlattenBranch(slots, path, branch);
    ExtOverOk(path, RBranch(slots, None), len - |path|);
  }

  lemma TopShape(n: Node, len: nat)
    requires HasTopBranch(n) && Canonical(n, len)
    ensures var path, branch := if n.Extension? then n.path else [], if n.Extension? then n.child else n;
      && |path| < len && branch.Branch? && Canonical(branch, len - |path|) && |branch.children| == 16
      && 2 <= |LiveSlots(branch.children)| && n == ExtensionOver(path, branch)
  {
  }

  lemma FlattenBranch(slots: seq<Slot>, path: Path, branch: Node)
    requires branch.Branch? && FlattenSlots(slots) == branch.children
    ensures Flatten(RBranch(slots, None)) == branch
  {
    hide FlattenSlots;
  }

  lemma {:induction false} PromoteChildrenFlatten(cr: Crypto, pol: Policy, prefix: Path, branch: Node, len: nat, i: nat)
    requires branch.Branch? && Canonical(branch, len) && i <= 16
    ensures var slots := PromoteChildren(cr, pol, prefix, branch, i);
      && |slots| == 16 - i
      && forall k :: 0 <= k < |slots| ==>
           FlattenSlot(slots[k]) == branch.children[i + k] && SlotOk(slots[k], len - 1)
           && (slots[k] == Free <==> branch.children[i + k] == Empty)
    decreases branch, 1, 16 - i
  {
    BranchShape(branch.children, len);
    FreeOk(len - 1);
    FreeFlattens();
    if i < 16 {
      hide Settle, Canonical, FlattenSlot, SlotOk;
      if branch.children[i] != Empty {
        SettleFlattens(cr, pol, pol.oversized, Rec(prefix + [i], branch.children[i]), len - 1);
      }
      PromoteChildrenFlatten(cr, pol, prefix, branch, len, i + 1);
      var slots, rest := PromoteChildren(cr, pol, prefix, branch, i), PromoteChildren(cr, pol, prefix, branch, i + 1);
      hide PromoteChildren;
      assert forall k :: 0 < k < |slots| ==> slots[k] == rest[k - 1];
    }
  }

  lemma {:induction false} SettleFlattens(cr: Crypto, pol: Policy, split: Rec -> bool, rec: Rec, len: nat)
    requires rec.node != Empty && Canonical(rec.node, len)
    ensures FlattenSlot(Settle(cr, pol, split, rec)) == rec.node
    ensures SlotOk(Settle(cr, pol, split, rec), len) && Settle(cr, pol, split, rec) != Free
    decreases rec.node, 3
  {
    if split(rec) && HasTopBranch(rec.node) {
      PromoteFlattens(cr, pol, rec, len);
    } else if split(rec) && Liftable(rec.node) {
      PromoteFlattens(cr, pol, Rec(rec.prefix + rec.node.path, rec.node.item.storage), KEY_NIBBLES);
    }
  }

  // ---------------------------------------------------------------------- insert

  /** The slot or frontier insert succeeds exactly when the flattened one does, and then
      flattens to its result. */
  ghost predicate RamInsertOk(cr: Crypto, pol: Policy, f: RamNode, prefix: Path, key: Path, op: LeafOp)
    requires OpOk(op) && RamOk(f, |key|) && Canonical(Flatten(f), |key|)
  {
    var r, n := RamInsert(cr, pol, f, prefix, key, op), Insert(Flatten(f), key, op);
    && (r.Ok? <==> n.Ok?)
    && (r.Ok? ==> Flatten(r.value) == n.value && RamOk(r.value, |key|) && r.value != REmpty && (f.RBranch? ==> r.value.RBranch?))
  }

  ghost predicate SlotInsertOk(cr: Crypto, pol: Policy, s: Slot, prefix: Path, key: Path, op: LeafOp)
    requires OpOk(op) && SlotOk(s, |key|) && Canonical(FlattenSlot(s), |key|)
  {
    var r, n := SlotInsert(cr, pol, s, prefix, key, op), Insert(FlattenSlot(s), key, op);
    && (r.Ok? <==> n.Ok?)
    && (r.Ok? ==> FlattenSlot(r.value) == n.value && SlotOk(r.value, |key|) && r.value != Free)
  }

  lemma {:induction false} InsertCommutes(cr: Crypto, pol: Policy, f: RamNode, prefix: Path, key: Path, op: LeafOp)
    requires OpOk(op) && RamOk(f, |key|) && f != REmpty
    ensures Canonical(Flatten(f), |key|) && RamInsertOk(cr, pol, f, prefix, key, op)
    decreases f
  {
    hide Canonical, RamInsertOk, SlotInsertOk, CommonPrefix, Flatten, RamInsert, Insert;
    FlattenOk(f, |key|);
    match f
    case RExt(path, child, _) =>
      if CommonPrefix(path, key) < |path| {
        InsertSplitsExt(cr, pol, f, prefix, key, op);
      } else {
        assert path[..|path|] == path && path <= key;
        InsertCommutes(cr, pol, child, prefix + path, key[|path|..], op);
        InsertThroughExt(cr, pol, f, prefix, key, op);
      }
    case RBranch(slots, _) =>
      SlotInsertCommutes(cr, pol, slots[key[0]], prefix + [key[0]], key[1..], op);
      InsertThroughBranch(cr, pol, f, prefix, key, op);
  }

  lemma InsertThroughExt(cr: Crypto, pol: Policy, f: RamNode, prefix: Path, key: Path, op: LeafOp)
    requires OpOk(op) && RamOk(f, |key|) && f.RExt? && CommonPrefix(f.path, key) == |f.path|
    requires Canonical(Flatten(f), |key|) && Canonical(Flatten(f.child), |key| - |f.path|)
    requires RamInsertOk(cr, pol, f.child, prefix + f.path, key[|f.path|..], op)
    ensures RamInsertOk(cr, pol, f, prefix, key, op)
  {
    hide CommonPrefix, Canonical, Insert, Flatten, RamInsert, RamOk;
    ExtFlattens(f);
    ExtInserts(f.path, Flatten(f.child), key, op);
    ExtRamInserts(cr, pol, f, prefix, key, op);
    var r := RamInsert(cr, pol, f.child, prefix + f.path, key[|f.path|..], op);
    if r.Ok? {
      ExtFlattens(RExt(f.path, r.value, None));
      ExtRamOk(f, r.value, |key|);
    }
  }

  lemma ExtRamInserts(cr: Crypto, pol: Policy, f: RamNode, prefix: Path, key: Path, op: LeafOp)
    requires OpOk(op) && RamOk(f, |key|) && f.RExt? && CommonPrefix(f.path, key) == |f.path|
    ensures |f.path| < |key| && f.child.RBranch? && RamOk(f.child, |key| - |f.path|)
    ensures var r := RamInsert(cr, pol, f.child, prefix + f.path, key[|f.path|..], op);
      RamInsert(cr, pol, f, prefix, key, op) == if r.Ok? then Ok(RExt(f.path, r.value, None)) else Err
  {
    hide CommonPrefix, Canonical;
  }

  lemma ExtRamOk(f: RamNode, child: RamNode, len: nat)
    requires f.RExt? && RamOk(f, len) && child.RBranch? && RamOk(child, len - |f.path|)
    ensures RamOk(RExt(f.path, child, None), len)
  {
  }

  lemma ExtFlattens(f: RamNode)
    requires f.RExt?
    ensures Flatten(f) == Extension(f.path, Flatten(f.child))
  {
  }

  lemma ExtInserts(path: Path, child: Node, key: Path, op: LeafOp)
    requires OpOk(op) && Canonical(Extension(path, child), |key|) && CommonPrefix(path, key) == |path|
    ensures Canonical(child, |key| - |path|)
    ensures var n := Insert(child, key[|path|..], op);
      Insert(Extension(path, child), key, op) == if n.Ok? then Ok(Extension(path, n.value)) else Err
  {
    hide CommonPrefix, PlaceNew, Resolve;
  }

  lemma InsertThroughBranch(cr: Crypto, pol: Policy, f: RamNode, prefix: Path, key: Path, op: LeafOp)
    requires OpOk(op) && RamOk(f, |key|) && f.RBranch? && Canonical(Flatten(f), |key|)
    requires Canonical(FlattenSlot(f.slots[key[0]]), |key| - 1)
    requires SlotInsertOk(cr, pol, f.slots[key[0]], prefix + [key[0]], key[1..], op)
    ensures RamInsertOk(cr, pol, f, prefix, key, op)
  {
    hide Canonical, Resolve, SlotInsert, FlattenSlot, FlattenSlots, SlotOk, LiveRam;
    var i, s := key[0], f.slots[key[0]];
    var r, n := SlotInsert(cr, pol, s, prefix + [i], key[1..], op), Insert(FlattenSlot(s), key[1..], op);
    assert Flatten(f) == Branch(FlattenSlots(f.slots));
    BranchInserts(FlattenSlots(f.slots), key, op);
    if r.Ok? {
      FlattenUpdate(f.slots, i, r.value);
      LiveRamUpdate(f.slots, i, r.value);
    }
  }

  lemma BranchInserts(children: seq<Node>, key: Path, op: LeafOp)
    requires OpOk(op) && Canonical(Branch(children), |key|)
    ensures |children| == 16 && key != [] && Canonical(children[key[0]], |key| - 1)
    ensures Insert(Branch(children), key, op) ==
      var r := Insert(children[key[0]], key[1..], op);
      if r.Ok? then Ok(Branch(children[key[0] := r.value])) else Err
  {
  }

  lemma NewSlotFlattens(cr: Crypto, pol: Policy, prefix: Path, key: Path, op: LeafOp)
    requires OpOk(op)
    ensures var r, n := NewSlot(cr, pol, prefix, key, op), PlaceNew(key, op);
      && (r.Ok? <==> n.Ok?)
      && (r.Ok? ==> FlattenSlot(r.value) == n.value && SlotOk(r.value, |key|) && r.value != Free)
  {
    hide Resolve, Canonical, Insert;
    EmptyCanonical(|key|);
    InsertSpec(Empty, key, op);
    assert Insert(Empty, key, op) == PlaceNew(key, op) by { InsertsEmpty(key, op); }
  }

  lemma InsertsEmpty(key: Path, op: LeafOp)
    requires OpOk(op)
    ensures Insert(Empty, key, op) == PlaceNew(key, op)
  {
  }

  lemma InsertSplitsExt(cr: Crypto, pol: Policy, f: RamNode, prefix: Path, key: Path, op: LeafOp)
    requires OpOk(op) && RamOk(f, |key|) && f.RExt? && CommonPrefix(f.path, key) < |f.path|
    requires Canonical(Flatten(f), |key|)
    ensures RamInsertOk(cr, pol, f, prefix, key, op)
  {
    hide CommonPrefix, Canonical, Resolve, PlaceNew, NewSlot, FlattenSlot, RFork, Fork, ExtensionOver, RExtOver;
    var c := CommonPrefix(f.path, key);
    NewSlotFlattens(cr, pol, prefix + f.path[..c] + [key[c]], key[c + 1..], op);
    var r := NewSlot(cr, pol, prefix + f.path[..c] + [key[c]], key[c + 1..], op);
    assert Flatten(f) == Extension(f.path, Flatten(f.child));
    InsertSplits(f.path, Flatten(f.child), key, op);
    if r.Ok? {
      var x := Ram(RExtOver(f.path[c + 1..], f.child));
      FlattenFork(f.path[..c], f.path[c], x, key[c], r.value);
      FlattenExtOver(f.path[c + 1..], f.child);
      assert FlattenSlot(x) == Flatten(x.node) by { RamSlotFlattens(x.node); }
      assert SlotOk(x, |key| - c - 1) by { SplitChildOk(f.path, f.child, c, |key|); }
      RForkOk(f.path[..c], f.path[c], x, key[c], r.value, |key| - c - 1);
    }
  }

  lemma RamSlotFlattens(f: RamNode)
    ensures FlattenSlot(Ram(f)) == Flatten(f)
  {
  }

  lemma SplitChildOk(path: Path, child: RamNode, c: nat, len: nat)
    requires RamOk(RExt(path, child, None), len) && c < |path|
    ensures SlotOk(Ram(RExtOver(path[c + 1..], child)), len - c - 1)
  {
  }

  lemma {:induction false} SlotInsertCommutes(cr: Crypto, pol: Policy, s: Slot, prefix: Path, key: Path, op: LeafOp)
    requires OpOk(op) && SlotOk(s, |key|)
    ensures Canonical(FlattenSlot(s), |key|) && SlotInsertOk(cr, pol, s, prefix, key, op)
    decreases s
  {
    FlattenSlotOk(s, |key|);
    match s
    case Free =>
      NewSlotFlattens(cr, pol, prefix, key, op);
      InsertsEmpty(key, op);
    case Ram(n) => InsertCommutes(cr, pol, n, prefix, key, op);
    case Disk(_, _, rec) => RecInsertCommutes(cr, pol, rec, key, op);
    case Mem(_, rec) => RecInsertCommutes(cr, pol, rec, key, op);
    case Promoted(path, _, _, _, storage) =>
      if path == key {
        if op.SetSlot? {
          InsertCommutes(cr, pol, storage, prefix + path, op.slot, SetValue(op.bytes));
        }
        PromotedInPlace(cr, pol, s, prefix, op);
      } else {
        PromotedSplits(cr, pol, s, prefix, key, op);
      }
  }

  lemma RecInsertCommutes(cr: Crypto, pol: Policy, rec: Rec, key: Path, op: LeafOp)
    requires OpOk(op) && rec.node != Empty && Canonical(rec.node, |key|)
    ensures var r, n := RecInsert(cr, pol, rec, key, op), Insert(rec.node, key, op);
      && (r.Ok? <==> n.Ok?)
      && (r.Ok? ==> FlattenSlot(r.value) == n.value && SlotOk(r.value, |key|) && r.value != Free)
  {
    hide Insert, Canonical, Settle;
    InsertSpec(rec.node, key, op);
    if Insert(rec.node, key, op).Ok? {
      SettleFlattens(cr, pol, pol.promote, Rec(rec.prefix, Insert(rec.node, key, op).value), |key|);
    }
  }

  lemma PromotedInPlace(cr: Crypto, pol: Policy, s: Slot, prefix: Path, op: LeafOp)
    requires OpOk(op) && s.Promoted? && SlotOk(s, |s.path|) && Canonical(FlattenSlot(s), |s.path|)
    requires Canonical(Flatten(s.storage), KEY_NIBBLES)
    requires op.SetSlot? ==> RamInsertOk(cr, pol, s.storage, prefix + s.path, op.slot, SetValue(op.bytes))
    ensures SlotInsertOk(cr, pol, s, prefix, s.path, op)
  {
    hide Canonical, RamInsert, Flatten;
    assert CommonPrefix(s.path, s.path) == |s.path|;
    var item := Account(s.nonce, s.balance, s.codeHash, Flatten(s.storage));
    assert FlattenSlot(s) == Leaf(s.path, item);
    LeafInserts(s.path, item, op);
  }

  lemma LeafInserts(path: Path, item: Item, op: LeafOp)
    requires OpOk(op) && Canonical(Leaf(path, item), |path|) && ItemOk(Some(item))
    ensures Insert(Leaf(path, item), path, op) ==
      var r := Resolve(Some(item), op);
      if r.Ok? then Ok(Leaf(path, r.value)) else Err
  {
    assert CommonPrefix(path, path) == |path|;
  }

  lemma PromotedSplits(cr: Crypto, pol: Policy, s: Slot, prefix: Path, key: Path, op: LeafOp)
    requires OpOk(op) && s.Promoted? && SlotOk(s, |key|) && Canonical(FlattenSlot(s), |key|) && s.path != key
    ensures SlotInsertOk(cr, pol, s, prefix, key, op)
  {
    hide CommonPrefix, Canonical, Resolve, PlaceNew, NewSlot, RFork, Fork, Flatten, RamInsert;
    var path, c := s.path, CommonPrefix(s.path, key);
    assert path[..|path|] == path && key[..|key|] == key;
    assert c < |path|;
    var item := Account(s.nonce, s.balance, s.codeHash, Flatten(s.storage));
    NewSlotFlattens(cr, pol, prefix + key[..c + 1], key[c + 1..], op);
    var r := NewSlot(cr, pol, prefix + key[..c + 1], key[c + 1..], op);
    LeafSplits(path, item, key, op);
    if r.Ok? {
      var x := s.(path := path[c + 1..]);
      FlattenFork(path[..c], path[c], x, key[c], r.value);
      assert SlotOk(x, |key| - c - 1);
      RForkOk(path[..c], path[c], x, key[c], r.value, |key| - c - 1);
      assert SlotInsert(cr, pol, s, prefix, key, op) == Ok(Ram(RFork(path[..c], path[c], x, key[c], r.value)));
    }
  }

  // ---------------------------------------------------------------------- delete

  /** No account nested in a storage trie: storage tries hold plain values. */
  ghost predicate ValuesOnly(n: Node) {
    forall k: Path :: |k| == KEY_NIBBLES && Get(n, k).Some? ==> Get(n, k).value.Value?
  }

  ghost predicate AccountsPlain(n: Node, len: nat) {
    forall k: Path :: |k| == len && Get(n, k).Some? && Get(n, k).value.Account? ==> ValuesOnly(Get(n, k).value.storage)
  }

  lemma ValuesArePlain(n: Node)
    requires ValuesOnly(n)
    ensures AccountsPlain(n, KEY_NIBBLES)
  {
  }

  lemma PlainUnderExt(path: Path, child: Node, len: nat)
    requires AccountsPlain(Extension(path, child), len) && |path| <= len
    ensures AccountsPlain(child, len - |path|)
  {
    forall k: Path | |k| == len - |path| && Get(child, k).Some? && Get(child, k).value.Account?
      ensures ValuesOnly(Get(child, k).value.storage) {
      assert path <= path + k && (path + k)[|path|..] == k;
      assert Get(Extension(path, child), path + k) == Get(child, k);
    }
  }

  lemma PlainUnderBranch(children: seq<Node>, len: nat, i: Nibble)
    requires AccountsPlain(Branch(children), len) && 0 < len && |children| == 16
    ensures AccountsPlain(children[i], len - 1)
  {
    forall k: Path | |k| == len - 1 && Get(children[i], k).Some? && Get(children[i], k).value.Account?
      ensures ValuesOnly(Get(children[i], k).value.storage) {
      assert ([i] + k)[1..] == k;
      assert Get(Branch(children), [i] + k) == Get(children[i], k);
    }
  }

  lemma PlainUnderLeaf(path: Path, item: Item)
    requires AccountsPlain(Leaf(path, item), |path|) && item.Account?
    ensures ValuesOnly(item.storage)
  {
    assert Get(Leaf(path, item), path) == Some(item);
  }

  /** What a frontier delete reports, read on the flattened trie. */
  ghost predicate DeletesAs(r: Result<RamDeleted>, n: Result<Deleted<Node>>, len: nat) {
    if r.Err? then n.Err?
    else match r.value
      case RAbsent => n == Ok(Absent)
      case RRemoved => n == Ok(Removed)
      case RChanged(now) => now != REmpty && RamOk(now, len) && n == Ok(Changed(Flatten(now)))
      case RCollapsed(edge, survivor) =>
        && 0 < |edge| <= len && survivor != Free && !survivor.Ram? && SlotOk(survivor, len - |edge|)
        && n == Ok(Changed(PrependPath(FlattenSlot(survivor), edge)))
  }

  ghost predicate SlotDeletesAs(r: Result<Deleted<Slot>>, n: Result<Deleted<Node>>, len: nat) {
    if r.Err? then n.Err?
    else match r.value
      case Absent => n == Ok(Absent)
      case Removed => n == Ok(Removed)
      case Changed(now) => now != Free && SlotOk(now, len) && n == Ok(Changed(FlattenSlot(now)))
  }

  lemma {:induction false} DeleteCommutes(cr: Crypto, pol: Policy, f: RamNode, prefix: Path, key: Path, op: DeleteOp)
    requires DeleteOpOk(op) && RamOk(f, |key|) && AccountsPlain(Flatten(f), |key|)
    ensures Canonical(Flatten(f), |key|)
    ensures DeletesAs(RamDelete(cr, pol, f, prefix, key, op), Delete(Flatten(f), key, op), |key|)
    decreases f
  {
    hide Canonical, AccountsPlain, DeletesAs, SlotDeletesAs;
    FlattenOk(f, |key|);
    match f
    case REmpty => DeletesNothing(cr, pol, f, prefix, key, op);
    case RExt(path, child, _) =>
      PlainUnderExt(path, Flatten(child), |key|);
      if path <= key {
        DeleteCommutes(cr, pol, child, prefix + path, key[|path|..], op);
        DeleteThroughExt(cr, pol, f, prefix, key, op);
      } else {
        DeletesNothing(cr, pol, f, prefix, key, op);
      }
    case RBranch(slots, _) =>
      PlainUnderBranch(FlattenSlots(slots), |key|, key[0]);
      SlotDeleteCommutes(cr, pol, slots[key[0]], prefix + [key[0]], key[1..], op);
      DeleteThroughBranch(cr, pol, f, prefix, key, op);
  }

  lemma DeletesNothing(cr: Crypto, pol: Policy, f: RamNode, prefix: Path, key: Path, op: DeleteOp)
    requires DeleteOpOk(op) && RamOk(f, |key|) && Canonical(Flatten(f), |key|) && (f.REmpty? || (f.RExt? && !(f.path <= key)))
    ensures DeletesAs(RamDelete(cr, pol, f, prefix, key, op), Delete(Flatten(f), key, op), |key|)
  {
    hide Canonical, RamOk;
  }

  lemma DeleteThroughExt(cr: Crypto, pol: Policy, f: RamNode, prefix: Path, key: Path, op: DeleteOp)
    requires DeleteOpOk(op) && RamOk(f, |key|) && f.RExt? && f.path <= key
    requires Canonical(Flatten(f), |key|) && Canonical(Flatten(f.child), |key| - |f.path|)
    requires DeletesAs(RamDelete(cr, pol, f.child, prefix + f.path, key[|f.path|..], op),
                       Delete(Flatten(f.child), key[|f.path|..], op), |key| - |f.path|)
    ensures DeletesAs(RamDelete(cr, pol, f, prefix, key, op), Delete(Flatten(f), key, op), |key|)
  {
    hide Canonical, ApplyDelete, SlotDelete, SlotOk, FlattenSlot, PrependPath;
    var r := RamDelete(cr, pol, f.child, prefix + f.path, key[|f.path|..], op);
    ExtDeletes(f.path, Flatten(f.child), key, op);
    if r.Ok? {
      match r.value
      case RChanged(now) =>
        FlattenMerge(f.path, now);
        MergeOk(f.path, now, |key| - |f.path|);
      case RCollapsed(edge, survivor) =>
        PrependTwice(FlattenSlot(survivor), edge, f.path);
      case _ =>
    }
  }

  lemma PrependTwice(n: Node, inner: Path, outer: Path)
    ensures PrependPath(PrependPath(n, inner), outer) == PrependPath(n, outer + inner)
  {
    match n
    case Empty =>
    case Leaf(path, _) => assert outer + (inner + path) == (outer + inner) + path; assert outer + inner == outer || inner != [];
    case Extension(path, _) => assert outer + (inner + path) == (outer + inner) + path;
    case Branch(_) =>
      assert outer + [] == outer && [] + inner == inner;
  }

  lemma ExtDeletes(path: Path, child: Node, key: Path, op: DeleteOp)
    requires DeleteOpOk(op) && Canonical(Extension(path, child), |key|) && path <= key
    ensures Canonical(child, |key| - |path|)
    ensures Delete(Extension(path, child), key, op) ==
      var r := Delete(child, key[|path|..], op);
      if r.Ok? && r.value.Changed? then Ok(Changed(PrependPath(r.value.now, path))) else r
  {
    hide PrependPath;
  }

  lemma BranchDeletes(children: seq<Node>, key: Path, op: DeleteOp)
    requires DeleteOpOk(op) && Canonical(Branch(children), |key|)
    ensures |children| == 16 && key != [] && Canonical(children[key[0]], |key| - 1)
    ensures Delete(Branch(children), key, op) ==
      var r := Delete(children[key[0]], key[1..], op);
      if r.Ok? && r.value.Changed? then Ok(Changed(Branch(children[key[0] := r.value.now])))
      else if r.Ok? && r.value.Removed? then Ok(Collapse(children[key[0] := Empty]))
      else r
  {
    hide Collapse;
  }

  lemma DeleteThroughBranch(cr: Crypto, pol: Policy, f: RamNode, prefix: Path, key: Path, op: DeleteOp)
    requires DeleteOpOk(op) && RamOk(f, |key|) && f.RBranch? && Canonical(Flatten(f), |key|)
    requires Canonical(FlattenSlot(f.slots[key[0]]), |key| - 1)
    requires SlotDeletesAs(SlotDelete(cr, pol, f.slots[key[0]], prefix + [key[0]], key[1..], op),
                           Delete(FlattenSlot(f.slots[key[0]]), key[1..], op), |key| - 1)
    ensures DeletesAs(RamDelete(cr, pol, f, prefix, key, op), Delete(Flatten(f), key, op), |key|)
  {
    hide Canonical, ApplyDelete, SlotDelete, SlotOk, FlattenSlot, FlattenSlots, PrependPath, LiveRam, RCollapse, Collapse;
    var slots, i := f.slots, key[0];
    var r := SlotDelete(cr, pol, slots[i], prefix + [i], key[1..], op);
    assert Flatten(f) == Branch(FlattenSlots(slots));
    BranchDeletes(FlattenSlots(slots), key, op);
    if r.Ok? {
      match r.value
      case Changed(now) =>
        FlattenUpdate(slots, i, now);
        LiveRamUpdate(slots, i, now);
        BranchOk(slots[i := now], None, |key|);
      case Removed =>
        FreeFlattens();
        FlattenUpdate(slots, i, Free);
        RemovedSlotLive(cr, pol, f, prefix, key, op);
        RCollapseOk(slots, i, |key|);
      case Absent =>
    }
  }

  lemma FreeFlattens()
    ensures FlattenSlot(Free) == Empty
  {
  }

  lemma RemovedSlotLive(cr: Crypto, pol: Policy, f: RamNode, prefix: Path, key: Path, op: DeleteOp)
    requires DeleteOpOk(op) && RamOk(f, |key|) && f.RBranch?
    requires SlotDelete(cr, pol, f.slots[key[0]], prefix + [key[0]], key[1..], op) == Ok(Removed)
    ensures f.slots[key[0]] != Free
  {
  }

  lemma {:induction false} FirstAgrees(slots: seq<Slot>)
    requires forall i :: 0 <= i < |slots| ==> (slots[i] == Free <==> FlattenSlot(slots[i]) == Empty)
    ensures FirstRam(slots) == FirstLive(FlattenSlots(slots))
  {
    if slots != [] {
      assert FlattenSlots(slots)[1..] == FlattenSlots(slots[1..]);
      if slots[0] == Free {
        FirstAgrees(slots[1..]);
      }
    }
  }

  /** Collapsing a frontier branch flattens to collapsing the flattened branch. */
  lemma RCollapseOk(slots: seq<Slot>, i: Nibble, len: nat)
    requires RamOk(RBranch(slots, None), len) && slots[i] != Free
    ensures DeletesAs(Ok(RCollapse(slots[i := Free])), Ok(Collapse(FlattenSlots(slots[i := Free]))), len)
  {
    var ss := slots[i := Free];
    LiveRamUpdate(slots, i, Free);
    assert |LiveRam(ss)| == |LiveRam(slots)| - 1;
    forall k | 0 <= k < 16 ensures SlotOk(ss[k], len - 1) && (ss[k] == Free <==> FlattenSlot(ss[k]) == Empty) {
      FreeOk(len - 1);
      FlattenSlotOk(ss[k], len - 1);
    }
    RCollapseCases(ss, len);
  }

  lemma RCollapseCases(ss: seq<Slot>, len: nat)
    requires |ss| == 16 && 0 < len && 1 <= |LiveRam(ss)|
    requires forall k :: 0 <= k < 16 ==> SlotOk(ss[k], len - 1) && (ss[k] == Free <==> FlattenSlot(ss[k]) == Empty)
    ensures DeletesAs(Ok(RCollapse(ss)), Ok(Collapse(FlattenSlots(ss))), len)
  {
    hide FlattenSlot, FlattenSlots, SlotOk, LiveRam, LiveSlots, PrependPath, RMerge;
    LiveAgree(ss);
    if |LiveRam(ss)| == 1 {
      FirstAgrees(ss);
      FirstRamFound(ss);
      var j := FirstRam(ss);
      if ss[j].Ram? {
        SlotOkRam(ss[j].node, len - 1);
        FlattenMerge([j as Nibble], ss[j].node);
        RamSlotFlattens(ss[j].node);
        MergeOk([j as Nibble], ss[j].node, len - 1);
      }
    } else {
      BranchOk(ss, None, len);
    }
  }

  lemma SlotOkRam(f: RamNode, len: nat)
    requires SlotOk(Ram(f), len)
    ensures f != REmpty && RamOk(f, len) && 0 < len
  {
  }

  lemma FirstRamFound(ss: seq<Slot>)
    requires |LiveRam(ss)| >= 1
    ensures FirstRam(ss) < |ss| && ss[FirstRam(ss)] != Free
  {
    assert LiveRam(ss) != {};
    var j :| j in LiveRam(ss);
    FirstRamBefore(ss, j);
  }

  lemma {:induction false} FirstRamBefore(ss: seq<Slot>, j: nat)
    requires j < |ss| && ss[j] != Free
    ensures FirstRam(ss) <= j && ss[FirstRam(ss)] != Free
  {
    if ss[0] == Free {
      FirstRamBefore(ss[1..], j - 1);
    }
  }

  lemma {:induction false} SlotDeleteCommutes(cr: Crypto, pol: Policy, s: Slot, prefix: Path, key: Path, op: DeleteOp)
    requires DeleteOpOk(op) && SlotOk(s, |key|) && AccountsPlain(FlattenSlot(s), |key|)
    ensures Canonical(FlattenSlot(s), |key|)
    ensures SlotDeletesAs(SlotDelete(cr, pol, s, prefix, key, op), Delete(FlattenSlot(s), key, op), |key|)
    decreases s
  {
    FlattenSlotOk(s, |key|);
    match s
    case Free =>
    case Ram(n) =>
      DeleteCommutes(cr, pol, n, prefix, key, op);
      DeleteThroughRam(cr, pol, n, prefix, key, op);
    case Disk(_, _, rec) => RecDeleteCommutes(cr, pol, rec, key, op);
    case Mem(_, rec) => RecDeleteCommutes(cr, pol, rec, key, op);
    case Promoted(path, _, _, _, storage) =>
      if path == key {
        PlainUnderLeaf(path, FlattenSlot(s).item);
        ValuesArePlain(Flatten(storage));
        if op.DeleteSlot? {
          DeleteCommutes(cr, pol, storage, prefix + path, op.slot, DeleteValue);
        }
        PromotedDeletes(cr, pol, s, prefix, op);
      }
  }

  lemma RecDeleteCommutes(cr: Crypto, pol: Policy, rec: Rec, key: Path, op: DeleteOp)
    requires DeleteOpOk(op) && Canonical(rec.node, |key|)
    ensures SlotDeletesAs(RecDelete(cr, pol, rec, key, op), Delete(rec.node, key, op), |key|)
  {
    hide Delete, Canonical, ApplyDelete, Updated;
    DeleteSpec(rec.node, key, op);
  }

  lemma DeleteThroughRam(cr: Crypto, pol: Policy, n: RamNode, prefix: Path, key: Path, op: DeleteOp)
    requires DeleteOpOk(op) && SlotOk(Ram(n), |key|) && Canonical(Flatten(n), |key|)
    requires DeletesAs(RamDelete(cr, pol, n, prefix, key, op), Delete(Flatten(n), key, op), |key|)
    ensures SlotDeletesAs(SlotDelete(cr, pol, Ram(n), prefix, key, op), Delete(Flatten(n), key, op), |key|)
  {
    hide Delete, RamDelete, Canonical, FlattenSlot, PrependPath, SlotOk, Rehome;
    SlotOkRam(n, |key|);
    var r := RamDelete(cr, pol, n, prefix, key, op);
    if r.Ok? {
      match r.value
      case RChanged(now) =>
        RamSlotFlattens(now);
        RamSlotOk(now, |key|);
      case RCollapsed(edge, survivor) => RehomeOk(cr, pol, survivor, edge, prefix, |key|);
      case _ =>
    }
  }

  lemma RamSlotOk(f: RamNode, len: nat)
    requires f != REmpty && RamOk(f, len)
    ensures SlotOk(Ram(f), len)
  {
  }

  /** Re-homing a survivor puts the collapsed edge in front of its content. */
  lemma RehomeOk(cr: Crypto, pol: Policy, survivor: Slot, edge: Path, prefix: Path, len: nat)
    requires 0 < |edge| <= len && survivor != Free && !survivor.Ram? && SlotOk(survivor, len - |edge|)
    ensures var s := Rehome(cr, pol, survivor, edge, prefix);
      s != Free && SlotOk(s, len) && FlattenSlot(s) == PrependPath(FlattenSlot(survivor), edge)
  {
    if survivor.Disk? || survivor.Mem? {
      CanonicalPrepend(survivor.rec.node, edge, len - |edge|);
    }
  }

  lemma PromotedDeletes(cr: Crypto, pol: Policy, s: Slot, prefix: Path, op: DeleteOp)
    requires DeleteOpOk(op) && s.Promoted? && SlotOk(s, |s.path|) && Canonical(FlattenSlot(s), |s.path|)
    requires Canonical(Flatten(s.storage), KEY_NIBBLES) && ValuesOnly(Flatten(s.storage)) && Flatten(s.storage) != Empty
    requires op.DeleteSlot? ==>
      DeletesAs(RamDelete(cr, pol, s.storage, prefix + s.path, op.slot, DeleteValue), Delete(Flatten(s.storage), op.slot, DeleteValue), KEY_NIBBLES)
    ensures SlotDeletesAs(SlotDelete(cr, pol, s, prefix, s.path, op), Delete(FlattenSlot(s), s.path, op), |s.path|)
  {
    hide Canonical, RamDelete, Flatten, Demote, PlaceLeaf, ValuesOnly;
    var item := Account(s.nonce, s.balance, s.codeHash, Flatten(s.storage));
    assert FlattenSlot(s) == Leaf(s.path, item);
    LeafDeletes(s.path, item, op);
    match op
    case DeleteValue =>
    case DeleteAccount =>
    case WipeStorage => WipeOk(cr, pol, s, prefix);
    case DeleteSlot(slot) =>
      hide Delete;
      var r := RamDelete(cr, pol, s.storage, prefix + s.path, slot, DeleteValue);
      if r.Ok? {
        match r.value
        case RRemoved =>
          EmptyCanonical(KEY_NIBBLES);
          DemoteOk(cr, pol, s, prefix, Empty);
        case RCollapsed(edge, survivor) =>
          SurvivorIsRecord(s.storage, slot, edge, survivor);
          SurvivorCanonical(survivor, edge);
          DemoteOk(cr, pol, s, prefix, PrependPath(survivor.rec.node, edge));
        case _ =>
      }
  }

  lemma LeafDeletes(path: Path, item: Item, op: DeleteOp)
    requires DeleteOpOk(op) && Canonical(Leaf(path, item), |path|) && ItemOk(Some(item))
    ensures Delete(Leaf(path, item), path, op) ==
      var r := ApplyDelete(item, op);
      if r.Ok? && r.value.Changed? then Ok(Changed(Leaf(path, r.value.now)))
      else if r.Ok? && r.value.Removed? then Ok(Removed)
      else if r.Ok? then Ok(Absent) else Err
  {
    hide ApplyDelete;
  }

  lemma WipeOk(cr: Crypto, pol: Policy, s: Slot, prefix: Path)
    requires s.Promoted?
    ensures var n := Leaf(s.path, Account(s.nonce, s.balance, s.codeHash, Empty));
      var t := PlaceLeaf(cr, pol, Rec(prefix, n));
      t != Free && SlotOk(t, |s.path|) && FlattenSlot(t) == n
  {
  }

  lemma DemoteOk(cr: Crypto, pol: Policy, s: Slot, prefix: Path, storage: Node)
    requires s.Promoted? && Canonical(storage, KEY_NIBBLES)
    ensures var t := Demote(cr, pol, s, prefix, storage);
      t != Free && SlotOk(t, |s.path|) && FlattenSlot(t) == Leaf(s.path, Account(s.nonce, s.balance, s.codeHash, storage))
  {
    var n := Leaf(s.path, Account(s.nonce, s.balance, s.codeHash, storage));
    SettleFlattens(cr, pol, pol.promote, Rec(prefix, n), |s.path|);
  }

  lemma SurvivorCanonical(survivor: Slot, edge: Path)
    requires 0 < |edge| <= KEY_NIBBLES && (survivor.Disk? || survivor.Mem?) && SlotOk(survivor, KEY_NIBBLES - |edge|)
    ensures Canonical(PrependPath(survivor.rec.node, edge), KEY_NIBBLES)
    ensures FlattenSlot(survivor) == survivor.rec.node
  {
    CanonicalPrepend(survivor.rec.node, edge, KEY_NIBBLES - |edge|);
  }

  /** A storage frontier collapses only to a record: storage holds no accounts. */
  lemma SurvivorIsRecord(storage: RamNode, slot: Path, edge: Path, survivor: Slot)
    requires |slot| == KEY_NIBBLES && Canonical(Flatten(storage), KEY_NIBBLES) && ValuesOnly(Flatten(storage))
    requires 0 < |edge| <= KEY_NIBBLES && survivor != Free && !survivor.Ram? && SlotOk(survivor, KEY_NIBBLES - |edge|)
    requires Delete(Flatten(storage), slot, DeleteValue) == Ok(Changed(PrependPath(FlattenSlot(survivor), edge)))
    ensures survivor.Disk? || survivor.Mem?
  {
    hide Canonical, Delete, Flatten, ApplyDelete;
    if survivor.Promoted? {
      var n, m := Flatten(storage), PrependPath(FlattenSlot(survivor), edge);
      var k := edge + survivor.path;
      DeleteSpec(n, slot, DeleteValue);
      assert Get(m, k).Some? && Get(m, k).value.Account?;
      if Get(n, slot).Some? {
        RemoveApplies(Get(n, slot).value);
      }
    }
  }
}

/** What every frontier operation keeps: memoised hashes are exact, every record stores
    its own frontier path, and looking that path up finds the record's pointer.
 */
module FrontierInvariants {
  import opened Trie
  import opened TrieLaws
  import opened TrieHistory
  import opened TrieRoot
  import opened Frontier
  import opened FrontierFlatten

  // ----------------------------------------------------------------------- memos

  ghost predicate AllMemoOk(cr: Crypto, slots: seq<Slot>) {
    forall k :: 0 <= k < |slots| ==> SlotMemoOk(cr, slots[k])
  }

  lemma {:induction false} PromoteMemo(cr: Crypto, pol: Policy, rec: Rec)
    requires HasTopBranch(rec.node)
    ensures MemoOk(cr, Promote(cr, pol, rec))
    decreases rec.node, 2
  {
    hide MemoOk, PromoteChildren;
    var path := if rec.node.Extension? then rec.node.path else [];
    var branch := if rec.node.Extension? then rec.node.child else rec.node;
    PromoteChildrenMemo(cr, pol, rec.prefix + path, branch, 0);
    BranchMemo(cr, path, PromoteChildren(cr, pol, rec.prefix + path, branch, 0));
  }

  lemma BranchMemo(cr: Crypto, path: Path, slots: seq<Slot>)
    requires AllMemoOk(cr, slots)
    ensures MemoOk(cr, RExtOver(path, RBranch(slots, None)))
  {
    hide SlotMemoOk, RamHash;
    assert MemoOk(cr, RBranch(slots, None));
  }

  lemma {:induction false} PromoteChildrenMemo(cr: Crypto, pol: Policy, prefix: Path, branch: Node, i: nat)
    requires branch.Branch?
    ensures AllMemoOk(cr, PromoteChildren(cr, pol, prefix, branch, i))
    decreases branch, 1, 16 - i
  {
    if i < 16 && i < |branch.children| {
      if branch.children[i] != Empty {
        SettleMemo(cr, pol, pol.oversized, Rec(prefix + [i], branch.children[i]));
      }
      PromoteChildrenMemo(cr, pol, prefix, branch, i + 1);
      var slots, rest := PromoteChildren(cr, pol, prefix, branch, i), PromoteChildren(cr, pol, prefix, branch, i + 1);
      forall k | 0 <= k < |slots| ensures SlotMemoOk(cr, slots[k]) {
        if k > 0 {
          assert slots[k] == rest[k - 1];
        }
      }
    }
  }

  lemma {:induction false} SettleMemo(cr: Crypto, pol: Policy, split: Rec -> bool, rec: Rec)
    ensures SlotMemoOk(cr, Settle(cr, pol, split, rec))
    decreases rec.node, 3
  {
    if split(rec) && HasTopBranch(rec.node) {
      PromoteMemo(cr, pol, rec);
    } else if split(rec) && Liftable(rec.node) {
      PromoteMemo(cr, pol, Rec(rec.prefix + rec.node.path, rec.node.item.storage));
    }
  }

  lemma ForkMemo(cr: Crypto, path: Path, i: Nibble, x: Slot, j: Nibble, y: Slot)
    requires SlotMemoOk(cr, x) && SlotMemoOk(cr, y)
    ensures MemoOk(cr, RFork(path, i, x, j, y))
  {
    hide RamHash, SlotMemoOk;
    FreeMemo(cr);
    BranchMemo(cr, path, NO_SLOTS[i := x][j := y]);
  }

  lemma FreeMemo(cr: Crypto)
    ensures SlotMemoOk(cr, Free)
  {
  }

  /** Insert leaves no stale memo behind. */
  lemma {:induction false} InsertKeepsMemos(cr: Crypto, pol: Policy, f: RamNode, prefix: Path, key: Path, op: LeafOp)
    requires OpOk(op) && RamOk(f, |key|) && MemoOk(cr, f)
    ensures var r := RamInsert(cr, pol, f, prefix, key, op); r.Ok? ==> MemoOk(cr, r.value)
    decreases f
  {
    hide CommonPrefix, Canonical, RFork, NewSlot, Insert, RamHash, SlotMemoOk, SlotInsert, RExtOver, RamOk;
    ShapeOf(f, |key|);
    if RamInsert(cr, pol, f, prefix, key, op).Ok? {
      match f
      case REmpty =>
        NewSlotMemo(cr, pol, prefix + key[..1], key[1..], op);
        FreeMemo(cr);
      case RExt(path, child, _) =>
        var c := CommonPrefix(path, key);
        if c < |path| {
          NewSlotMemo(cr, pol, prefix + path[..c] + [key[c]], key[c + 1..], op);
          SplitMemo(cr, path[c + 1..], child);
          ForkMemo(cr, path[..c], path[c], Ram(RExtOver(path[c + 1..], child)), key[c],
                   NewSlot(cr, pol, prefix + path[..c] + [key[c]], key[c + 1..], op).value);
        } else {
          InsertKeepsMemos(cr, pol, child, prefix + path, key[c..], op);
        }
      case RBranch(slots, _) =>
        SlotInsertKeepsMemos(cr, pol, slots[key[0]], prefix + [key[0]], key[1..], op);
    }
  }

  lemma ShapeOf(f: RamNode, len: nat)
    requires RamOk(f, len)
    ensures f.RExt? ==> |f.path| < len && RamOk(f.child, len - |f.path|)
    ensures f.RBranch? ==> 0 < len && |f.slots| == 16 && forall i :: 0 <= i < 16 ==> SlotOk(f.slots[i], len - 1)
  {
  }

  lemma SplitMemo(cr: Crypto, path: Path, child: RamNode)
    requires MemoOk(cr, child)
    ensures SlotMemoOk(cr, Ram(RExtOver(path, child)))
  {
    hide RamHash;
  }

  lemma NewSlotMemo(cr: Crypto, pol: Policy, prefix: Path, key: Path, op: LeafOp)
    requires OpOk(op)
    ensures var r := NewSlot(cr, pol, prefix, key, op); r.Ok? ==> SlotMemoOk(cr, r.value)
  {
  }

  lemma {:induction false} SlotInsertKeepsMemos(cr: Crypto, pol: Policy, s: Slot, prefix: Path, key: Path, op: LeafOp)
    requires OpOk(op) && SlotOk(s, |key|) && SlotMemoOk(cr, s)
    ensures var r := SlotInsert(cr, pol, s, prefix, key, op); r.Ok? ==> SlotMemoOk(cr, r.value)
    decreases s
  {
    hide CommonPrefix, Canonical, RFork, NewSlot, Insert, RamHash, Settle;
    if SlotInsert(cr, pol, s, prefix, key, op).Ok? {
      match s
      case Free => NewSlotMemo(cr, pol, prefix, key, op);
      case Ram(n) => InsertKeepsMemos(cr, pol, n, prefix, key, op);
      case Disk(_, _, rec) => SettleMemo(cr, pol, pol.promote, Rec(rec.prefix, Insert(rec.node, key, op).value));
      case Mem(_, rec) => SettleMemo(cr, pol, pol.promote, Rec(rec.prefix, Insert(rec.node, key, op).value));
      case Promoted(path, _, _, _, storage) =>
        var c := CommonPrefix(path, key);
        if c == |path| {
          if op.SetSlot? {
            InsertKeepsMemos(cr, pol, storage, prefix + path, op.slot, SetValue(op.bytes));
          }
        } else {
          NewSlotMemo(cr, pol, prefix + key[..c + 1], key[c + 1..], op);
          ForkMemo(cr, path[..c], path[c], s.(path := path[c + 1..]), key[c],
                   NewSlot(cr, pol, prefix + key[..c + 1], key[c + 1..], op).value);
        }
    }
  }

  ghost predicate DeletedMemoOk(cr: Crypto, r: Result<RamDeleted>) {
    r.Ok? ==> (r.value.RChanged? ==> MemoOk(cr, r.value.now)) && (r.value.RCollapsed? ==> SlotMemoOk(cr, r.value.survivor))
  }

  lemma MergeMemo(cr: Crypto, path: Path, f: RamNode)
    requires MemoOk(cr, f)
    ensures MemoOk(cr, RMerge(path, f))
  {
    hide RamHash;
  }

  /** Delete leaves no stale memo behind. */
  lemma {:induction false} DeleteKeepsMemos(cr: Crypto, pol: Policy, f: RamNode, prefix: Path, key: Path, op: DeleteOp)
    requires DeleteOpOk(op) && RamOk(f, |key|) && MemoOk(cr, f)
    ensures DeletedMemoOk(cr, RamDelete(cr, pol, f, prefix, key, op))
    decreases f
  {
    hide Canonical, RamHash, RMerge, Delete;
    match f
    case REmpty =>
    case RExt(path, child, _) =>
      if path <= key {
        DeleteKeepsMemos(cr, pol, child, prefix + path, key[|path|..], op);
        var r := RamDelete(cr, pol, child, prefix + path, key[|path|..], op);
        if r.Ok? && r.value.RChanged? {
          MergeMemo(cr, path, r.value.now);
        }
      }
    case RBranch(slots, _) =>
      SlotDeleteKeepsMemos(cr, pol, slots[key[0]], prefix + [key[0]], key[1..], op);
      var r := SlotDelete(cr, pol, slots[key[0]], prefix + [key[0]], key[1..], op);
      if r.Ok? && r.value.Removed? {
        CollapseMemo(cr, slots[key[0] := Free]);
      }
  }

  lemma CollapseMemo(cr: Crypto, slots: seq<Slot>)
    requires forall i :: 0 <= i < |slots| ==> SlotMemoOk(cr, slots[i])
    ensures DeletedMemoOk(cr, Ok(RCollapse(slots)))
  {
    hide RamHash, RMerge, LiveRam;
    var j := FirstRam(slots);
    if j < |slots| && j < 16 && slots[j].Ram? {
      MergeMemo(cr, [j as Nibble], slots[j].node);
    }
  }

  lemma {:induction false} SlotDeleteKeepsMemos(cr: Crypto, pol: Policy, s: Slot, prefix: Path, key: Path, op: DeleteOp)
    requires DeleteOpOk(op) && SlotOk(s, |key|) && SlotMemoOk(cr, s)
    ensures var r := SlotDelete(cr, pol, s, prefix, key, op); r.Ok? && r.value.Changed? ==> SlotMemoOk(cr, r.value.now)
    decreases s
  {
    hide Canonical, RamHash, Delete, Settle;
    match s
    case Free =>
    case Ram(n) =>
      DeleteKeepsMemos(cr, pol, n, prefix, key, op);
      var r := RamDelete(cr, pol, n, prefix, key, op);
      if r.Ok? && r.value.RCollapsed? && r.value.survivor.Ram? {
        MergeMemo(cr, r.value.edge, r.value.survivor.node);
      }
    case Disk(_, _, rec) =>
    case Mem(_, rec) =>
    case Promoted(path, nonce, balance, codeHash, storage) =>
      if key == path && op.DeleteSlot? {
        DeleteKeepsMemos(cr, pol, storage, prefix + path, op.slot, DeleteValue);
        forall n ensures SlotMemoOk(cr, Demote(cr, pol, s, prefix, n)) {
          SettleMemo(cr, pol, pol.promote, Rec(prefix, Leaf(path, Account(nonce, balance, codeHash, n))));
        }
      }
  }

  // -------------------------------------------------------------------- prefixes

  lemma {:induction false} PromotePrefix(cr: Crypto, pol: Policy, rec: Rec)
    requires HasTopBranch(rec.node)
    ensures PrefixOk(Promote(cr, pol, rec), rec.prefix)
    decreases rec.node, 2
  {
    var path := if rec.node.Extension? then rec.node.path else [];
    var branch := if rec.node.Extension? then rec.node.child else rec.node;
    PromoteChildrenPrefix(cr, pol, rec.prefix + path, branch, 0);
    assert path == [] ==> rec.prefix + path == rec.prefix;
  }

  lemma {:induction false} PromoteChildrenPrefix(cr: Crypto, pol: Policy, prefix: Path, branch: Node, i: nat)
    requires branch.Branch?
    ensures var slots := PromoteChildren(cr, pol, prefix, branch, i);
      && (i <= 16 ==> |slots| <= 16 - i)
      && forall k :: 0 <= k < |slots| ==> i + k < 16 && SlotPrefixOk(slots[k], prefix + [i + k])
    decreases branch, 1, 16 - i
  {
    if i < 16 && i < |branch.children| {
      if branch.children[i] != Empty {
        SettlePrefix(cr, pol, pol.oversized, Rec(prefix + [i], branch.children[i]));
      }
      PromoteChildrenPrefix(cr, pol, prefix, branch, i + 1);
    }
  }

  lemma {:induction false} SettlePrefix(cr: Crypto, pol: Policy, split: Rec -> bool, rec: Rec)
    ensures SlotPrefixOk(Settle(cr, pol, split, rec), rec.prefix)
    decreases rec.node, 3
  {
    if split(rec) && HasTopBranch(rec.node) {
      PromotePrefix(cr, pol, rec);
    } else if split(rec) && Liftable(rec.node) {
      PromotePrefix(cr, pol, Rec(rec.prefix + rec.node.path, rec.node.item.storage));
    }
  }

  lemma ForkPrefix(path: Path, i: Nibble, x: Slot, j: Nibble, y: Slot, prefix: Path)
    requires SlotPrefixOk(x, prefix + path + [i]) && SlotPrefixOk(y, prefix + path + [j])
    ensures PrefixOk(RFork(path, i, x, j, y), prefix)
  {
    hide SlotPrefixOk;
    assert forall p :: SlotPrefixOk(Free, p) by { FreePrefix(); }
    assert path == [] ==> prefix + path == prefix;
    var slots := NO_SLOTS[i := x][j := y];
    assert PrefixOk(RBranch(slots, None), prefix + path);
  }

  lemma FreePrefix()
    ensures forall p :: SlotPrefixOk(Free, p)
  {
  }

  lemma ExtOverPrefix(path: Path, f: RamNode, prefix: Path)
    requires PrefixOk(f, prefix + path)
    ensures PrefixOk(RExtOver(path, f), prefix)
  {
    assert path == [] ==> prefix + path == prefix;
  }

  lemma NewSlotPrefix(cr: Crypto, pol: Policy, prefix: Path, key: Path, op: LeafOp)
    requires OpOk(op)
    ensures var r := NewSlot(cr, pol, prefix, key, op); r.Ok? ==> SlotPrefixOk(r.value, prefix)
  {
  }

  /** Insert keeps every record filed under its own path. */
  lemma {:induction false} InsertKeepsPrefixes(cr: Crypto, pol: Policy, f: RamNode, prefix: Path, key: Path, op: LeafOp)
    requires OpOk(op) && RamOk(f, |key|) && PrefixOk(f, prefix)
    ensures var r := RamInsert(cr, pol, f, prefix, key, op); r.Ok? ==> PrefixOk(r.value, prefix)
    decreases f
  {
    hide CommonPrefix, Canonical, RFork, NewSlot, Insert, RExtOver;
    if RamInsert(cr, pol, f, prefix, key, op).Ok? {
      match f
      case REmpty =>
        assert key[..1] == [key[0]];
        NewSlotPrefix(cr, pol, prefix + key[..1], key[1..], op);
        FreePrefix();
      case RExt(path, child, _) =>
        var c := CommonPrefix(path, key);
        if c < |path| {
          NewSlotPrefix(cr, pol, prefix + path[..c] + [key[c]], key[c + 1..], op);
          assert (prefix + path[..c] + [path[c]]) + path[c + 1..] == prefix + path;
          ExtOverPrefix(path[c + 1..], child, prefix + path[..c] + [path[c]]);
          ForkPrefix(path[..c], path[c], Ram(RExtOver(path[c + 1..], child)), key[c],
                     NewSlot(cr, pol, prefix + path[..c] + [key[c]], key[c + 1..], op).value, prefix);
        } else {
          InsertKeepsPrefixes(cr, pol, child, prefix + path, key[c..], op);
        }
      case RBranch(slots, _) =>
        SlotInsertKeepsPrefixes(cr, pol, slots[key[0]], prefix + [key[0]], key[1..], op);
    }
  }

  lemma {:induction false} SlotInsertKeepsPrefixes(cr: Crypto, pol: Policy, s: Slot, prefix: Path, key: Path, op: LeafOp)
    requires OpOk(op) && SlotOk(s, |key|) && SlotPrefixOk(s, prefix)
    ensures var r := SlotInsert(cr, pol, s, prefix, key, op); r.Ok? ==> SlotPrefixOk(r.value, prefix)
    decreases s
  {
    hide CommonPrefix, Canonical, RFork, NewSlot, Insert, Settle;
    if SlotInsert(cr, pol, s, prefix, key, op).Ok? {
      match s
      case Free => NewSlotPrefix(cr, pol, prefix, key, op);
      case Ram(n) => InsertKeepsPrefixes(cr, pol, n, prefix, key, op);
      case Disk(_, _, rec) => SettlePrefix(cr, pol, pol.promote, Rec(rec.prefix, Insert(rec.node, key, op).value));
      case Mem(_, rec) => SettlePrefix(cr, pol, pol.promote, Rec(rec.prefix, Insert(rec.node, key, op).value));
      case Promoted(path, _, _, _, storage) =>
        var c := CommonPrefix(path, key);
        if c == |path| {
          if op.SetSlot? {
            InsertKeepsPrefixes(cr, pol, storage, prefix + path, op.slot, SetValue(op.bytes));
          }
        } else {
          NewSlotPrefix(cr, pol, prefix + key[..c + 1], key[c + 1..], op);
          assert prefix + key[..c + 1] == prefix + path[..c] + [key[c]];
          assert (prefix + path[..c] + [path[c]]) + path[c + 1..] == prefix + path;
          ForkPrefix(path[..c], path[c], s.(path := path[c + 1..]), key[c],
                     NewSlot(cr, pol, prefix + key[..c + 1], key[c + 1..], op).value, prefix);
        }
    }
  }

  ghost predicate DeletedPrefixOk(r: Result<RamDeleted>, prefix: Path) {
    r.Ok? ==>
      (r.value.RChanged? ==> PrefixOk(r.value.now, prefix))
      && (r.value.RCollapsed? ==> SlotPrefixOk(r.value.survivor, prefix + r.value.edge))
  }

  lemma MergePrefix(path: Path, f: RamNode, prefix: Path)
    requires PrefixOk(f, prefix + path)
    ensures PrefixOk(RMerge(path, f), prefix)
  {
    if f.RExt? {
      assert (prefix + path) + f.path == prefix + (path + f.path);
    }
  }

  /** Delete keeps every record filed under its own path, through collapse, re-homing
      and demotion. */
  lemma {:induction false} DeleteKeepsPrefixes(cr: Crypto, pol: Policy, f: RamNode, prefix: Path, key: Path, op: DeleteOp)
    requires DeleteOpOk(op) && RamOk(f, |key|) && PrefixOk(f, prefix)
    ensures DeletedPrefixOk(RamDelete(cr, pol, f, prefix, key, op), prefix)
    decreases f
  {
    hide Canonical, RMerge, Delete;
    match f
    case REmpty =>
    case RExt(path, child, _) =>
      if path <= key {
        DeleteKeepsPrefixes(cr, pol, child, prefix + path, key[|path|..], op);
        var r := RamDelete(cr, pol, child, prefix + path, key[|path|..], op);
        if r.Ok? && r.value.RChanged? {
          MergePrefix(path, r.value.now, prefix);
        } else if r.Ok? && r.value.RCollapsed? {
          assert (prefix + path) + r.value.edge == prefix + (path + r.value.edge);
        }
      }
    case RBranch(slots, _) =>
      SlotDeleteKeepsPrefixes(cr, pol, slots[key[0]], prefix + [key[0]], key[1..], op);
      var r := SlotDelete(cr, pol, slots[key[0]], prefix + [key[0]], key[1..], op);
      if r.Ok? && r.value.Removed? {
        FreePrefix();
        CollapsePrefix(slots[key[0] := Free], prefix);
      }
  }

  lemma CollapsePrefix(slots: seq<Slot>, prefix: Path)
    requires |slots| <= 16 && forall i: Nibble :: i < |slots| ==> SlotPrefixOk(slots[i], prefix + [i])
    ensures DeletedPrefixOk(Ok(RCollapse(slots)), prefix)
  {
    hide RMerge, LiveRam;
    var j := FirstRam(slots);
    if j < |slots| && j < 16 {
      var i: Nibble := j;
      assert SlotPrefixOk(slots[i], prefix + [i]);
      if slots[j].Ram? {
        MergePrefix([i], slots[j].node, prefix);
      }
    }
  }

  lemma {:induction false} SlotDeleteKeepsPrefixes(cr: Crypto, pol: Policy, s: Slot, prefix: Path, key: Path, op: DeleteOp)
    requires DeleteOpOk(op) && SlotOk(s, |key|) && SlotPrefixOk(s, prefix)
    ensures var r := SlotDelete(cr, pol, s, prefix, key, op); r.Ok? && r.value.Changed? ==> SlotPrefixOk(r.value.now, prefix)
    decreases s
  {
    hide Canonical, Delete, Settle;
    match s
    case Free =>
    case Ram(n) =>
      DeleteKeepsPrefixes(cr, pol, n, prefix, key, op);
      var r := RamDelete(cr, pol, n, prefix, key, op);
      if r.Ok? && r.value.RCollapsed? {
        RehomePrefix(cr, pol, r.value.survivor, r.value.edge, prefix);
      }
    case Disk(_, _, rec) =>
    case Mem(_, rec) =>
    case Promoted(path, nonce, balance, codeHash, storage) =>
      if key == path && op.DeleteSlot? {
        DeleteKeepsPrefixes(cr, pol, storage, prefix + path, op.slot, DeleteValue);
        forall n ensures SlotPrefixOk(Demote(cr, pol, s, prefix, n), prefix) {
          SettlePrefix(cr, pol, pol.promote, Rec(prefix, Leaf(path, Account(nonce, balance, codeHash, n))));
        }
      }
  }

  lemma RehomePrefix(cr: Crypto, pol: Policy, survivor: Slot, edge: Path, prefix: Path)
    requires SlotPrefixOk(survivor, prefix + edge)
    ensures SlotPrefixOk(Rehome(cr, pol, survivor, edge, prefix), prefix)
  {
    match survivor
    case Ram(n) => MergePrefix(edge, n, prefix);
    case Promoted(path, _, _, _, _) => assert (prefix + edge) + path == prefix + (edge + path);
    case _ =>
  }

  // --------------------------------------------------------------------- finding

  /** Record `rec` sits in the frontier behind pointer `ptr`. */
  ghost predicate HasRec(f: RamNode, ptr: DiskPtr, rec: Rec)
    decreases f
  {
    && !f.REmpty?
    && (f.RExt? ==> HasRec(f.child, ptr, rec))
    && (f.RBranch? ==> exists i: Nibble :: i < |f.slots| && SlotHasRec(f.slots[i], ptr, rec))
  }

  ghost predicate SlotHasRec(s: Slot, ptr: DiskPtr, rec: Rec)
    decreases s
  {
    match s
    case Disk(p, _, r) => p == ptr && r == rec
    case Ram(n) => HasRec(n, ptr, rec)
    case Promoted(_, _, _, _, storage) => HasRec(storage, ptr, rec)
    case _ => false
  }

  /** Looking a record up by the path it stores finds exactly its pointer. */
  lemma {:induction false} StoredPathFindsRecord(f: RamNode, base: Path, len: nat, ptr: DiskPtr, rec: Rec)
    requires RamOk(f, len) && PrefixOk(f, base) && HasRec(f, ptr, rec)
    ensures base <= rec.prefix && FindPtr(f, rec.prefix[|base|..]) == Some(ptr)
    decreases f
  {
    match f
    case RExt(path, child, _) =>
      StoredPathFindsRecord(child, base + path, len - |path|, ptr, rec);
      assert rec.prefix[|base|..][..|path|] == path;
      assert rec.prefix[|base|..][|path|..] == rec.prefix[|base + path|..];
    case RBranch(slots, _) =>
      var i: Nibble :| i < |slots| && SlotHasRec(slots[i], ptr, rec);
      SlotPathFindsRecord(slots[i], base + [i], len - 1, ptr, rec);
      assert rec.prefix[|base|..][0] == i;
      assert rec.prefix[|base|..][1..] == rec.prefix[|base + [i]|..];
  }

  lemma {:induction false} SlotPathFindsRecord(s: Slot, base: Path, len: nat, ptr: DiskPtr, rec: Rec)
    requires SlotOk(s, len) && SlotPrefixOk(s, base) && SlotHasRec(s, ptr, rec)
    ensures base <= rec.prefix && FindInSlot(s, rec.prefix[|base|..]) == Some(ptr)
    decreases s
  {
    match s
    case Disk(_, _, _) =>
    case Ram(n) => StoredPathFindsRecord(n, base, len, ptr, rec);
    case Promoted(path, _, _, _, storage) =>
      StoredPathFindsRecord(storage, base + path, KEY_NIBBLES, ptr, rec);
      assert rec.prefix[|base|..][..|path|] == path;
      assert rec.prefix[|base|..][|path|..] == rec.prefix[|base + path|..];
  }

  // ------------------------------------------------------------------ installing

  /** A pointer install succeeds exactly where the lookup finds a pointer: the two walks
      agree, so an install after a successful lookup cannot fail. */
  lemma {:induction false} InstallIffFound(f: RamNode, q: Path, ptr: DiskPtr)
    ensures InstallPtr(f, q, ptr).Some? <==> FindPtr(f, q).Some?
    ensures InstallPtr(f, q, ptr).Some? ==> FindPtr(InstallPtr(f, q, ptr).value, q) == Some(ptr)
    decreases f
  {
    match f
    case REmpty =>
    case RExt(path, child, _) =>
      if path <= q {
        InstallIffFound(child, q[|path|..], ptr);
      }
    case RBranch(slots, _) =>
      if q != [] && |slots| == 16 {
        SlotInstallIffFound(slots[q[0]], q[1..], ptr);
      }
  }

  lemma {:induction false} SlotInstallIffFound(s: Slot, q: Path, ptr: DiskPtr)
    ensures InstallInSlot(s, q, ptr).Some? <==> FindInSlot(s, q).Some?
    ensures InstallInSlot(s, q, ptr).Some? ==> FindInSlot(InstallInSlot(s, q, ptr).value, q) == Some(ptr)
    decreases s
  {
    match s
    case Free =>
    case Mem(_, _) =>
    case Disk(_, _, _) =>
    case Ram(n) => InstallIffFound(n, q, ptr);
    case Promoted(path, _, _, _, storage) =>
      if path <= q {
        InstallIffFound(storage, q[|path|..], ptr);
      }
  }

  ghost predicate Kept(cr: Crypto, f: RamNode, f': RamNode, len: nat, prefix: Path) {
    && Flatten(f') == Flatten(f) && RamHash(cr, f') == RamHash(cr, f)
    && RamOk(f', len) && f'.RBranch? == f.RBranch? && f'.REmpty? == f.REmpty?
    && MemoOk(cr, f') && PrefixOk(f', prefix)
  }

  ghost predicate SlotKept(cr: Crypto, s: Slot, s': Slot, len: nat, prefix: Path) {
    && FlattenSlot(s') == FlattenSlot(s) && SlotHash(cr, s') == SlotHash(cr, s)
    && SlotOk(s', len) && s' != Free && s != Free
    && SlotMemoOk(cr, s') && SlotPrefixOk(s', prefix)
  }

  /** Installing a relocated pointer changes no content, hash, memo or stored path. */
  lemma {:induction false} InstallKeepsAll(cr: Crypto, f: RamNode, q: Path, ptr: DiskPtr, len: nat, prefix: Path)
    requires RamOk(f, len) && MemoOk(cr, f) && PrefixOk(f, prefix)
    ensures InstallPtr(f, q, ptr).Some? ==> Kept(cr, f, InstallPtr(f, q, ptr).value, len, prefix)
    decreases f
  {
    match f
    case REmpty =>
    case RExt(path, child, memo) =>
      MemoHolds(cr, f);
      if path <= q {
        InstallKeepsAll(cr, child, q[|path|..], ptr, len - |path|, prefix + path);
        hide Flatten, RamHash, Kept;
        var c := InstallPtr(child, q[|path|..], ptr);
        if c.Some? {
          ExtKept(cr, path, child, c.value, memo, memo, len, prefix);
        }
      }
    case RBranch(slots, memo) =>
      if q != [] {
        hide Flatten, RamHash, RamOk, MemoOk, PrefixOk, Kept;
        RamShape(cr, f, len, prefix);
        SlotInstallKeepsAll(cr, slots[q[0]], q[1..], ptr, len - 1, prefix + [q[0]]);
        var r := InstallInSlot(slots[q[0]], q[1..], ptr);
        if r.Some? {
          BranchKept(cr, slots, memo, q[0], r.value, len, prefix);
        }
      }
  }

  lemma ExtKept(cr: Crypto, path: Path, child: RamNode, child': RamNode, memo: Option<Bytes>, memo': Option<Bytes>, len: nat, prefix: Path)
    requires RamOk(RExt(path, child, memo), len) && Kept(cr, child, child', len - |path|, prefix + path)
    requires memo'.Some? ==> memo'.value == RamHash(cr, RExt(path, child, memo))
    ensures Kept(cr, RExt(path, child, memo), RExt(path, child', memo'), len, prefix)
  {
    ExtHashSame(cr, path, child, child', memo, memo');
    hide RamHash;
  }

  lemma ExtHashSame(cr: Crypto, path: Path, child: RamNode, child': RamNode, memo: Option<Bytes>, memo': Option<Bytes>)
    requires RamHash(cr, child') == RamHash(cr, child)
    ensures RamHash(cr, RExt(path, child', memo')) == RamHash(cr, RExt(path, child, memo))
  {
    hide ExtensionRlp, Finalize, MkRef, Embed;
  }

  lemma MemoHolds(cr: Crypto, f: RamNode)
    requires MemoOk(cr, f) && !f.REmpty?
    ensures f.memo.Some? ==> f.memo.value == RamHash(cr, f)
  {
  }

  lemma RamShape(cr: Crypto, f: RamNode, len: nat, prefix: Path)
    requires RamOk(f, len) && MemoOk(cr, f) && PrefixOk(f, prefix) && f.RBranch?
    ensures 0 < len && |f.slots| == 16
    ensures forall i: Nibble :: SlotOk(f.slots[i], len - 1) && SlotMemoOk(cr, f.slots[i]) && SlotPrefixOk(f.slots[i], prefix + [i])
  {
  }

  lemma BranchKept(cr: Crypto, slots: seq<Slot>, memo: Option<Bytes>, i: Nibble, s: Slot, len: nat, prefix: Path)
    requires RamOk(RBranch(slots, memo), len) && MemoOk(cr, RBranch(slots, memo)) && PrefixOk(RBranch(slots, memo), prefix)
    requires SlotKept(cr, slots[i], s, len - 1, prefix + [i])
    ensures Kept(cr, RBranch(slots, memo), RBranch(slots[i := s], memo), len, prefix)
  {
    hide FlattenSlots, FlattenSlot, SlotHashes, SlotHash, SlotOk, SlotMemoOk, SlotPrefixOk, LiveRam;
    FlattenUpdate(slots, i, s);
    assert FlattenSlots(slots[i := s]) == FlattenSlots(slots);
    assert SlotHashes(cr, slots[i := s]) == SlotHashes(cr, slots);
    LiveRamUpdate(slots, i, s);
  }

  lemma RamSlotKept(cr: Crypto, n: RamNode, n': RamNode, len: nat, prefix: Path)
    requires Kept(cr, n, n', len, prefix) && n != REmpty
    ensures SlotKept(cr, Ram(n), Ram(n'), len, prefix)
  {
    hide Flatten, RamHash, RamOk, MemoOk, PrefixOk;
  }

  lemma PromotedSlotKept(cr: Crypto, s: Slot, n': RamNode, len: nat, prefix: Path)
    requires s.Promoted? && |s.path| == len && s.storage != REmpty && Kept(cr, s.storage, n', KEY_NIBBLES, prefix + s.path)
    ensures SlotKept(cr, s, s.(storage := n'), len, prefix)
  {
    hide Flatten, RamHash, RamOk, MemoOk, PrefixOk;
  }

  /** Moving a record between RAM and disk, or on disk, changes nothing else. */
  lemma RecordSlotKept(cr: Crypto, s: Slot, s': Slot, len: nat, prefix: Path)
    requires SlotOk(s, len) && SlotMemoOk(cr, s) && SlotPrefixOk(s, prefix)
    requires (s.Disk? || s.Mem?) && (s'.Disk? || s'.Mem?) && s'.root == s.root && s'.rec == s.rec
    ensures SlotKept(cr, s, s', len, prefix)
  {
    hide Canonical, Root;
  }

  lemma {:induction false} SlotInstallKeepsAll(cr: Crypto, s: Slot, q: Path, ptr: DiskPtr, len: nat, prefix: Path)
    requires SlotOk(s, len) && SlotMemoOk(cr, s) && SlotPrefixOk(s, prefix)
    ensures InstallInSlot(s, q, ptr).Some? ==> SlotKept(cr, s, InstallInSlot(s, q, ptr).value, len, prefix)
    decreases s
  {
    hide SlotKept, Kept, InstallPtr, RamOk, MemoOk, PrefixOk, Canonical, Root;
    match s
    case Free =>
    case Mem(_, _) =>
    case Disk(_, root, rec) => RecordSlotKept(cr, s, Disk(ptr, root, rec), len, prefix);
    case Ram(n) =>
      InstallKeepsAll(cr, n, q, ptr, len, prefix);
      if InstallPtr(n, q, ptr).Some? {
        RamSlotKept(cr, n, InstallPtr(n, q, ptr).value, len, prefix);
      }
    case Promoted(path, _, _, _, storage) =>
      if path <= q {
        var rest := q[|path|..];
        InstallKeepsAll(cr, storage, rest, ptr, KEY_NIBBLES, prefix + path);
        if InstallPtr(storage, rest, ptr).Some? {
          PromotedSlotKept(cr, s, InstallPtr(storage, rest, ptr).value, len, prefix);
        }
      }
  }

  // ---------------------------------------------------------------------- roots

  /** No frontier child is small enough to be inlined into its parent's RLP. */
  ghost predicate AllHashed(cr: Crypto, f: RamNode)
    decreases f
  {
    && (f.RExt? ==> NodeRef(cr, Flatten(f.child)).Hash? && AllHashed(cr, f.child))
    && (f.RBranch? ==> forall i :: 0 <= i < |f.slots| && f.slots[i] != Free ==>
          NodeRef(cr, FlattenSlot(f.slots[i])).Hash? && SlotAllHashed(cr, f.slots[i]))
  }

  ghost predicate SlotAllHashed(cr: Crypto, s: Slot)
    decreases s
  {
    && (s.Ram? ==> AllHashed(cr, s.node))
    && (s.Promoted? ==> AllHashed(cr, s.storage))
  }

  /** The frontier's hash is the root of the flattened record trie: which part of the
      trie lives in RAM does not show in the root. */
  lemma {:induction false} HashIsFlatRoot(cr: Crypto, f: RamNode, len: nat)
    requires RamOk(f, len) && MemoOk(cr, f) && AllHashed(cr, f)
    ensures RamHash(cr, f) == Root(cr, Flatten(f))
    decreases f
  {
    hide RamHash, Root, SlotHashes, SlotRefs, SlotHash, FlattenSlot, FlattenSlots, Flatten;
    match f
    case REmpty => EmptyHash(cr);
    case RExt(path, child, _) =>
      ExtHash(cr, f);
      HashIsFlatRoot(cr, child, len - |path|);
    case RBranch(slots, _) =>
      forall i | 0 <= i < 16 && slots[i] != Free ensures SlotHash(cr, slots[i]) == Root(cr, FlattenSlot(slots[i])) {
        SlotHashIsFlatRoot(cr, slots[i], len - 1);
      }
      SlotRefsAgree(cr, slots, len);
      BranchHash(cr, f);
  }

  lemma EmptyHash(cr: Crypto)
    ensures RamHash(cr, REmpty) == Root(cr, Flatten(REmpty))
  {
  }

  lemma ExtHash(cr: Crypto, f: RamNode)
    requires f.RExt? && f.child.RBranch? && NodeRef(cr, Flatten(f.child)).Hash?
    ensures RamHash(cr, f.child) == Root(cr, Flatten(f.child)) ==> RamHash(cr, f) == Root(cr, Flatten(f))
  {
  }

  lemma BranchHash(cr: Crypto, f: RamNode)
    requires f.RBranch? && SlotHashes(cr, f.slots) == SlotRefs(cr, Branch(FlattenSlots(f.slots)), 0)
    ensures RamHash(cr, f) == Root(cr, Flatten(f))
  {
    hide SlotHashes, SlotRefs, FlattenSlots;
  }

  lemma {:induction false} SlotHashIsFlatRoot(cr: Crypto, s: Slot, len: nat)
    requires SlotOk(s, len) && s != Free && SlotMemoOk(cr, s) && SlotAllHashed(cr, s)
    ensures SlotHash(cr, s) == Root(cr, FlattenSlot(s))
    decreases s
  {
    match s
    case Ram(n) => HashIsFlatRoot(cr, n, len);
    case Disk(_, _, _) =>
    case Mem(_, _) =>
    case Promoted(path, nonce, balance, codeHash, storage) =>
      HashIsFlatRoot(cr, storage, KEY_NIBBLES);
      AccountRoot(cr, path, nonce, balance, codeHash, Flatten(storage));
  }

  lemma AccountRoot(cr: Crypto, path: Path, nonce: nat, balance: nat, codeHash: Bytes, storage: Node)
    ensures Root(cr, Leaf(path, Account(nonce, balance, codeHash, storage))) ==
      Finalize(cr, MkRef(cr, LeafRlp(cr, path, cr.accountRlp(nonce, balance, Root(cr, storage), codeHash))))
  {
    assert LeafBytes(cr, Account(nonce, balance, codeHash, storage)) == cr.accountRlp(nonce, balance, Root(cr, storage), codeHash);
  }

  function SlotRefAt(cr: Crypto, c: Node): Bytes {
    if c == Empty then cr.rlpString([]) else Embed(cr, NodeRef(cr, c))
  }

  lemma {:induction false} SlotRefsAt(cr: Crypto, n: Node, i: nat)
    requires n.Branch? && |n.children| == 16 && i <= 16
    ensures |SlotRefs(cr, n, i)| == 16 - i
    ensures forall k :: 0 <= k < 16 - i ==> SlotRefs(cr, n, i)[k] == SlotRefAt(cr, n.children[i + k])
    decreases 16 - i
  {
    if i < 16 {
      SlotRefsAt(cr, n, i + 1);
    }
  }

  lemma SlotRefsAgree(cr: Crypto, slots: seq<Slot>, len: nat)
    requires |slots| == 16 && 0 < len && forall i :: 0 <= i < 16 ==> SlotOk(slots[i], len - 1)
    requires forall i :: 0 <= i < 16 && slots[i] != Free ==>
      NodeRef(cr, FlattenSlot(slots[i])).Hash? && SlotHash(cr, slots[i]) == Root(cr, FlattenSlot(slots[i]))
    ensures SlotHashes(cr, slots) == SlotRefs(cr, Branch(FlattenSlots(slots)), 0)
  {
    hide SlotOk, FlattenSlot, FlattenSlots, SlotHash, SlotHashes, NodeRef;
    var n := Branch(FlattenSlots(slots));
    SlotRefsAt(cr, n, 0);
    forall k | 0 <= k < 16 ensures SlotHashes(cr, slots)[k] == SlotRefs(cr, n, 0)[k] {
      FlattenSlotOk(slots[k], len - 1);
    }
  }
}

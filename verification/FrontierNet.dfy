/** A net update applied through the frontier: insert and delete fused.  It creates where the
    update creates, rewrites the owning record once, collapses and re-homes where it
    removes, and updates, wipes or demotes a promoted account.  It does to the flattened trie
    what the net update does to one record, and keeps memos and stored paths exact.

    The account-space depth here is the length of the prefix, so the argument is the rest
    of the key; the storage walks below a promoted account are the source's own.
 */
module FrontierNet {
  import opened Trie
  import opened TrieLaws
  import opened TrieHistory
  import opened TrieRoot
  import opened Frontier
  import opened FrontierFlatten
  import opened FrontierInvariants
  import opened FrontierWalk
  import opened PlainStorage
  import opened BlockRecord
  import B = BlockOps

  /** The update can create a missing account. */
  ghost predicate Creating(u: B.Net) {
    u.account.Set? || B.Creates(u.slots)
  }

  /** What normalising a block promises of a net update. */
  predicate Normal(u: B.Net) {
    NetOk(u) && (u.account.Delete? ==> u.slots == [])
  }

  ghost function RecNet(n: Node, key: Path, u: B.Net): Result<Deleted<Node>>
    requires NetOk(u)
  {
    if RecordOk(n, key) then Ok(NetNode(n, key, u)) else Err
  }

  /** A new record for a missing account; free if nothing was created. */
  ghost function Creation(cr: Crypto, pol: Policy, prefix: Path, key: Path, u: B.Net): Slot
    requires NetOk(u)
  {
    var r := RecNet(Empty, key, u);
    if r.Ok? && r.value.Changed? then Settle(cr, pol, pol.promote, Rec(prefix, r.value.now)) else Free
  }

  ghost function RamNet(cr: Crypto, pol: Policy, f: RamNode, prefix: Path, key: Path, u: B.Net): Result<RamDeleted>
    requires NetOk(u)
    decreases f
  {
    match f
    case REmpty =>
      if !Creating(u) then Ok(RAbsent)
      else if key == [] then Err
      else
        var s := Creation(cr, pol, prefix + [key[0]], key[1..], u);
        if s == Free then Ok(RAbsent) else Ok(RChanged(RBranch(NO_SLOTS[key[0] := s], None)))
    case RExt(path, child, _) =>
      var c := CommonPrefix(path, key);
      if c < |path| then
        if !Creating(u) then Ok(RAbsent)
        else if c == |key| then Err
        else Ok(RChanged(RFork(path[..c], path[c], Ram(RExtOver(path[c + 1..], child)), key[c],
                               Creation(cr, pol, prefix + path[..c] + [key[c]], key[c + 1..], u))))
      else
        var r := RamNet(cr, pol, child, prefix + path, key[c..], u);
        if r.Err? then Err
        else (match r.value
              case RAbsent => Ok(RAbsent)
              case RRemoved => Ok(RRemoved)
              case RCollapsed(edge, survivor) => Ok(RCollapsed(path + edge, survivor))
              case RChanged(now) => Ok(RChanged(RMerge(path, now))))
    case RBranch(slots, _) =>
      if key == [] || |slots| != 16 then Err
      else
        var r := SlotNet(cr, pol, slots[key[0]], prefix + [key[0]], key[1..], u);
        if r.Err? then Err
        else (match r.value
              case Absent => Ok(RAbsent)
              case Changed(s) => Ok(RChanged(RBranch(slots[key[0] := s], None)))
              case Removed => Ok(RCollapse(slots[key[0] := Free])))
  }

  ghost function SlotNet(cr: Crypto, pol: Policy, s: Slot, prefix: Path, key: Path, u: B.Net): Result<Deleted<Slot>>
    requires NetOk(u)
    decreases s
  {
    match s
    case Free =>
      if !Creating(u) then Ok(Absent)
      else
        var t := Creation(cr, pol, prefix, key, u);
        if t == Free then Ok(Absent) else Ok(Changed(t))
    case Ram(n) =>
      var r := RamNet(cr, pol, n, prefix, key, u);
      if r.Err? then Err
      else (match r.value
            case RAbsent => Ok(Absent)
            case RChanged(now) => Ok(Changed(Ram(now)))
            case RRemoved => Ok(Removed)
            case RCollapsed(edge, survivor) => Ok(Changed(Rehome(cr, pol, survivor, edge, prefix))))
    case Disk(_, _, rec) => RecordNet(cr, pol, rec, key, u)
    case Mem(_, rec) => RecordNet(cr, pol, rec, key, u)
    case Promoted(path, _, _, _, _) =>
      if key != path then
        var c := CommonPrefix(path, key);
        if !Creating(u) then Ok(Absent)
        else if c == |path| || c == |key| then Err
        else Ok(Changed(Ram(RFork(path[..c], path[c], s.(path := path[c + 1..]), key[c],
                                  Creation(cr, pol, prefix + key[..c + 1], key[c + 1..], u)))))
      else PromotedNet(cr, pol, s, prefix, u)
  }

  ghost function RecordNet(cr: Crypto, pol: Policy, rec: Rec, key: Path, u: B.Net): Result<Deleted<Slot>>
    requires NetOk(u)
  {
    var r := RecNet(rec.node, key, u);
    if r.Err? then Err
    else (match r.value
          case Absent => Ok(Absent)
          case Changed(n) => Ok(Changed(Settle(cr, pol, pol.promote, Rec(rec.prefix, n))))
          case Removed => Ok(Removed))
  }

  /** The update on the promoted account itself. */
  ghost function PromotedNet(cr: Crypto, pol: Policy, s: Slot, prefix: Path, u: B.Net): Result<Deleted<Slot>>
    requires NetOk(u) && s.Promoted?
  {
    if u.account.Delete? then Ok(Removed)
    else if u.wipe then InlineNet(cr, pol, s, prefix, Empty, u.(wipe := false))
    else
      var t := if u.account.Set? then Promoted(s.path, u.account.nonce, u.account.balance, u.account.codeHash, s.storage) else s;
      PromotedWrites(cr, pol, t, prefix, u.slots, u.account.Set?)
  }

  /** Put the account back into record form with the given storage and finish there. */
  ghost function InlineNet(cr: Crypto, pol: Policy, s: Slot, prefix: Path, storage: Node, u: B.Net): Result<Deleted<Slot>>
    requires NetOk(u) && s.Promoted?
  {
    var n := Leaf(s.path, Account(s.nonce, s.balance, s.codeHash, storage));
    var r := RecNet(n, s.path, u);
    if r.Err? then Err else Ok(Changed(Settle(cr, pol, pol.promote, Rec(prefix, Left(n, r.value)))))
  }

  /** The slot writes on the promoted storage, until it falls below the promoted form. */
  ghost function PromotedWrites(cr: Crypto, pol: Policy, s: Slot, prefix: Path, ws: seq<B.Write>, changed: bool): Result<Deleted<Slot>>
    requires WritesOk(ws) && s.Promoted?
    decreases |ws|
  {
    if ws == [] then Ok(if changed then Changed(s) else Absent)
    else if ws[0].value.Some? then
      var r := WalkInsert(cr, pol, s.storage, prefix + s.path, ws[0].slot, SetValue(ws[0].value.value));
      if r.Err? then Err else PromotedWrites(cr, pol, s.(storage := r.value), prefix, ws[1..], true)
    else
      var r := WalkDelete(cr, pol, s.storage, prefix + s.path, ws[0].slot, DeleteValue);
      if r.Err? then Err
      else (match r.value
            case RAbsent => PromotedWrites(cr, pol, s, prefix, ws[1..], changed)
            case RChanged(now) => PromotedWrites(cr, pol, s.(storage := now), prefix, ws[1..], true)
            case RRemoved => InlineNet(cr, pol, s, prefix, Empty, B.Net(false, B.Keep, ws[1..]))
            case RCollapsed(edge, survivor) =>
              if survivor.Disk? || survivor.Mem?
              then InlineNet(cr, pol, s, prefix, PrependPath(survivor.rec.node, edge), B.Net(false, B.Keep, ws[1..]))
              else Err)
  }

  // ----------------------------------------------------------------------- sound

  ghost predicate Sound(cr: Crypto, f: RamNode, len: nat, prefix: Path) {
    RamOk(f, len) && MemoOk(cr, f) && PrefixOk(f, prefix)
  }

  ghost predicate SlotSound(cr: Crypto, s: Slot, len: nat, prefix: Path) {
    SlotOk(s, len) && SlotMemoOk(cr, s) && SlotPrefixOk(s, prefix)
  }

  lemma SettleSound(cr: Crypto, pol: Policy, rec: Rec, len: nat)
    requires rec.node != Empty && Canonical(rec.node, len)
    ensures var s := Settle(cr, pol, pol.promote, rec); s != Free && SlotSound(cr, s, len, rec.prefix) && FlattenSlot(s) == rec.node
  {
    hide Settle, Canonical, SlotOk, SlotMemoOk, SlotPrefixOk, FlattenSlot;
    SettleFlattens(cr, pol, pol.promote, rec, len);
    SettleMemo(cr, pol, pol.promote, rec);
    SettlePrefix(cr, pol, pol.promote, rec);
  }

  lemma ForkSound(cr: Crypto, path: Path, i: Nibble, x: Slot, j: Nibble, y: Slot, len: nat, prefix: Path)
    requires i != j && x != Free && y != Free && SlotSound(cr, x, len, prefix + path + [i]) && SlotSound(cr, y, len, prefix + path + [j])
    ensures var f := RFork(path, i, x, j, y);
      f != REmpty && Sound(cr, f, |path| + 1 + len, prefix) && Flatten(f) == Fork(path, i, FlattenSlot(x), j, FlattenSlot(y))
  {
    hide RFork, SlotOk, SlotMemoOk, SlotPrefixOk, FlattenSlot, Flatten, RamOk, MemoOk, PrefixOk;
    RForkOk(path, i, x, j, y, len);
    ForkMemo(cr, path, i, x, j, y);
    ForkPrefix(path, i, x, j, y, prefix);
    FlattenFork(path, i, x, j, y);
  }

  lemma MergeSound(cr: Crypto, path: Path, f: RamNode, len: nat, prefix: Path)
    requires path != [] && f != REmpty && 0 < len && Sound(cr, f, len, prefix + path)
    ensures var g := RMerge(path, f); g != REmpty && Sound(cr, g, |path| + len, prefix) && Flatten(g) == PrependPath(Flatten(f), path)
  {
    hide RMerge, RamOk, MemoOk, PrefixOk, Flatten;
    MergeOk(path, f, len);
    MergeMemo(cr, path, f);
    MergePrefix(path, f, prefix);
    FlattenMerge(path, f);
  }

  lemma RehomeSound(cr: Crypto, pol: Policy, survivor: Slot, edge: Path, prefix: Path, len: nat)
    requires 0 < |edge| <= len && survivor != Free && !survivor.Ram? && SlotSound(cr, survivor, len - |edge|, prefix + edge)
    ensures var s := Rehome(cr, pol, survivor, edge, prefix);
      s != Free && SlotSound(cr, s, len, prefix) && FlattenSlot(s) == PrependPath(FlattenSlot(survivor), edge)
  {
    RehomeOk(cr, pol, survivor, edge, prefix, len);
    RehomePrefix(cr, pol, survivor, edge, prefix);
    hide SlotOk, SlotPrefixOk, FlattenSlot;
  }

  lemma BranchSound(cr: Crypto, slots: seq<Slot>, memo: Option<Bytes>, i: Nibble, s: Slot, len: nat, prefix: Path)
    requires Sound(cr, RBranch(slots, memo), len, prefix) && s != Free && SlotSound(cr, s, len - 1, prefix + [i])
    ensures Sound(cr, RBranch(slots[i := s], None), len, prefix)
  {
    hide SlotOk, SlotMemoOk, SlotPrefixOk, LiveRam, RamHash;
    LiveRamUpdate(slots, i, s);
  }

  lemma SlotsSound(cr: Crypto, f: RamNode, len: nat, prefix: Path)
    requires f.RBranch? && Sound(cr, f, len, prefix)
    ensures 0 < len && |f.slots| == 16 && forall i: Nibble :: SlotSound(cr, f.slots[i], len - 1, prefix + [i])
  {
  }

  // ----------------------------------------------------------------- what it does

  /** The frontier update reports and leaves what the update does to the item. */
  ghost predicate NetAs(cr: Crypto, r: Result<RamDeleted>, n: Node, key: Path, prefix: Path, out: ItemOut) {
    && r.Ok?
    && match r.value
       case RAbsent => !out.changed && out.item == Get(n, key)
       case RRemoved => out.changed && out.item.None? && OnlyKey(n, key)
       case RChanged(now) => out.changed && now != REmpty && Sound(cr, now, |key|, prefix) && Updated(n, Flatten(now), key, out.item)
       case RCollapsed(edge, survivor) =>
         && out.changed && 0 < |edge| <= |key| && survivor != Free && !survivor.Ram?
         && SlotSound(cr, survivor, |key| - |edge|, prefix + edge)
         && Updated(n, PrependPath(FlattenSlot(survivor), edge), key, out.item)
  }

  ghost predicate SlotNetAs(cr: Crypto, r: Result<Deleted<Slot>>, n: Node, key: Path, prefix: Path, out: ItemOut) {
    && r.Ok?
    && match r.value
       case Absent => !out.changed && out.item == Get(n, key)
       case Removed => out.changed && out.item.None? && OnlyKey(n, key) && Get(n, key).Some?
       case Changed(now) => out.changed && now != Free && SlotSound(cr, now, |key|, prefix) && Updated(n, FlattenSlot(now), key, out.item)
  }

  // -------------------------------------------------------------------- creation

  lemma {:induction false} WritesCreate(o: Option<Item>, ws: seq<B.Write>, changed: bool)
    requires Structured(o) && WritesOk(ws)
    ensures B.Creates(ws) || changed ==> WriteItems(o, ws, changed).changed
    ensures o.None? && !B.Creates(ws) && !changed ==> WriteItems(o, ws, changed) == ItemOut(None, false)
    decreases |ws|
  {
    hide Structured, PutItem, CutItem;
    if ws != [] {
      var w := WriteItem(o, ws[0]);
      MissingCut(ws[0]);
      assert ws == [ws[0]] + ws[1..] && ws[0] in ws;
      WritesCreate(w.item, ws[1..], changed || w.changed);
    }
  }

  lemma MissingCut(w: B.Write)
    requires |w.slot| == KEY_NIBBLES
    ensures w.value.None? ==> WriteItem(None, w) == ItemOut(None, false)
  {
  }

  /** On a missing account exactly a creating update does something. */
  lemma CreatesItem(u: B.Net)
    requires Normal(u)
    ensures Creating(u) ==> NetItem(None, u).changed && NetItem(None, u).item.Some?
    ensures !Creating(u) ==> NetItem(None, u) == ItemOut(None, false)
  {
    hide WriteItems, PutItem, Collect;
    NothingCollected();
    if u.account.Delete? {
      assert !B.Creates(u.slots);
    } else {
      var p := PrepareItem(None, u);
      WritesCreate(p.item, u.slots, p.changed);
    }
  }

  lemma NothingCollected()
    ensures Collect(Empty) == []
  {
  }

  lemma LeafIsOnly(path: Path, n: Node, m: Node, it: Item)
    requires (n.Empty? || (n.Leaf? && n.path == path)) && Updated(n, m, path, Some(it)) && Canonical(m, |path|)
    ensures m == Leaf(path, it) && ItemOk(Some(it))
  {
    hide Canonical;
    GetCanonical(m, path);
    UpdatedGets(n, m, path, Some(it));
    LeafCanonical(path, it);
    forall k: Path | |k| == |path| ensures Get(m, k) == Get(Leaf(path, it), k) {
    }
    CanonicalIsUnique(m, Leaf(path, it), |path|);
  }

  lemma CreationIsLeaf(cr: Crypto, pol: Policy, prefix: Path, key: Path, u: B.Net)
    requires Normal(u) && Creating(u)
    ensures var s, out := Creation(cr, pol, prefix, key, u), NetItem(None, u);
      && s != Free && SlotSound(cr, s, |key|, prefix) && out.changed && out.item.Some? && ItemOk(out.item)
      && FlattenSlot(s) == Leaf(key, out.item.value)
  {
    hide Settle, NetNode, NetItem, Canonical, Structured, SlotSound, FlattenSlot, Updated;
    EmptyCanonical(|key|);
    EmptyRecord(key);
    NetNodeSpec(Empty, key, u);
    CreatesItem(u);
    var m := NetNode(Empty, key, u).now;
    LeafIsOnly(key, Empty, m, NetItem(None, u).item.value);
    SettleSound(cr, pol, Rec(prefix, m), |key|);
  }

  lemma EmptyRecord(key: Path)
    ensures RecordOk(Empty, key) && Get(Empty, key) == None
  {
  }

  // ------------------------------------------------------------------ extensions

  lemma ExtNetSplits(cr: Crypto, pol: Policy, f: RamNode, prefix: Path, key: Path, u: B.Net)
    requires Normal(u) && f.RExt? && Sound(cr, f, |key|, prefix) && CommonPrefix(f.path, key) < |f.path|
    ensures NetAs(cr, RamNet(cr, pol, f, prefix, key, u), Flatten(f), key, prefix, NetItem(Get(Flatten(f), key), u))
  {
    hide CommonPrefix, Canonical, RFork, RExtOver, Fork, ExtensionOver, Creation, NetItem, Sound, SlotSound, Flatten, FlattenSlot, Updated, Get;
    var c := CommonPrefix(f.path, key);
    SoundExt(cr, f, |key|, prefix);
    ExtFlattens(f);
    FlattenOk(f, |key|);
    AsideMissing(f.path, Flatten(f.child), key);
    CreatesItem(u);
    if Creating(u) {
      var np, x := prefix + f.path[..c] + [key[c]], Ram(RExtOver(f.path[c + 1..], f.child));
      CreationIsLeaf(cr, pol, np, key[c + 1..], u);
      var y, it := Creation(cr, pol, np, key[c + 1..], u), NetItem(None, u).item.value;
      SplitSound(cr, f, c, |key|, prefix);
      ForkSound(cr, f.path[..c], f.path[c], x, key[c], y, |key| - c - 1, prefix);
      FlattenExtOver(f.path[c + 1..], f.child);
      RamSlotFlattens(x.node);
      SplitExtensionLookups(f.path, Flatten(f.child), key, it);
    }
  }

  lemma SoundExt(cr: Crypto, f: RamNode, len: nat, prefix: Path)
    requires f.RExt? && Sound(cr, f, len, prefix)
    ensures RamOk(f, len) && 0 < |f.path| < len && f.child.RBranch? && Sound(cr, f.child, len - |f.path|, prefix + f.path)
  {
  }

  /** The part of a split extension below the split. */
  lemma SplitSound(cr: Crypto, f: RamNode, c: nat, len: nat, prefix: Path)
    requires f.RExt? && Sound(cr, f, len, prefix) && c < |f.path|
    ensures SlotSound(cr, Ram(RExtOver(f.path[c + 1..], f.child)), len - c - 1, prefix + f.path[..c] + [f.path[c]])
  {
    hide Flatten, RamHash;
    var up := prefix + f.path[..c] + [f.path[c]];
    assert up + f.path[c + 1..] == prefix + f.path;
    assert RamOk(f, len) && f.child.RBranch?;
    SplitChildOk(f.path, f.child, c, len);
    SplitMemo(cr, f.path[c + 1..], f.child);
    ExtOverPrefix(f.path[c + 1..], f.child, up);
    hide RExtOver, RamOk, MemoOk, SlotOk, SlotMemoOk, PrefixOk;
    RamSlotPrefix(RExtOver(f.path[c + 1..], f.child), up);
  }

  lemma ExtNetThrough(cr: Crypto, pol: Policy, f: RamNode, prefix: Path, key: Path, u: B.Net, out: ItemOut)
    requires NetOk(u) && f.RExt? && Sound(cr, f, |key|, prefix) && CommonPrefix(f.path, key) == |f.path|
    requires NetAs(cr, RamNet(cr, pol, f.child, prefix + f.path, key[|f.path|..], u), Flatten(f.child), key[|f.path|..], prefix + f.path, out)
    ensures NetAs(cr, RamNet(cr, pol, f, prefix, key, u), Flatten(f), key, prefix, out)
  {
    PrefixIsCommon(f.path, key);
    SoundExt(cr, f, |key|, prefix);
    ExtFlattens(f);
    NetUnfoldsExt(cr, pol, f, prefix, key, u);
    var r := RamNet(cr, pol, f.child, prefix + f.path, key[|f.path|..], u);
    hide Sound, SlotSound, Flatten, RamNet, CommonPrefix, NetAs;
    NetAsOk(cr, r, Flatten(f.child), key[|f.path|..], prefix + f.path, out);
    ExtCases(cr, f.path, Flatten(f.child), r.value, prefix, key, out);
  }

  lemma NetAsOk(cr: Crypto, r: Result<RamDeleted>, n: Node, key: Path, prefix: Path, out: ItemOut)
    requires NetAs(cr, r, n, key, prefix, out)
    ensures r.Ok?
  {
  }

  function ExtResult(path: Path, r: RamDeleted): RamDeleted {
    match r
    case RAbsent => RAbsent
    case RRemoved => RRemoved
    case RCollapsed(edge, survivor) => RCollapsed(path + edge, survivor)
    case RChanged(now) => RChanged(RMerge(path, now))
  }

  lemma NetUnfoldsExt(cr: Crypto, pol: Policy, f: RamNode, prefix: Path, key: Path, u: B.Net)
    requires NetOk(u) && f.RExt? && CommonPrefix(f.path, key) == |f.path|
    ensures var r := RamNet(cr, pol, f.child, prefix + f.path, key[|f.path|..], u);
      r.Ok? ==> RamNet(cr, pol, f, prefix, key, u) == Ok(ExtResult(f.path, r.value))
  {
    hide CommonPrefix, RMerge;
  }

  lemma ExtCases(cr: Crypto, path: Path, c: Node, r: RamDeleted, prefix: Path, key: Path, out: ItemOut)
    requires path != [] && path <= key && NetAs(cr, Ok(r), c, key[|path|..], prefix + path, out)
    ensures NetAs(cr, Ok(ExtResult(path, r)), Extension(path, c), key, prefix, out)
  {
    hide Sound, SlotSound, Flatten, FlattenSlot, Updated, OnlyKey, RMerge, PrependPath;
    match r
    case RAbsent =>
    case RRemoved => OnlyKeyExtension(path, c, key);
    case RChanged(now) =>
      SoundFlat(cr, now, |key| - |path|, prefix + path);
      MergeSound(cr, path, now, |key| - |path|, prefix);
      PrependUpdates(path, c, Flatten(now), key, out.item);
    case RCollapsed(edge, survivor) =>
      ExtCollapsed(cr, path, c, edge, survivor, prefix, key, out.item);
  }

  lemma ExtCollapsed(cr: Crypto, path: Path, c: Node, edge: Path, survivor: Slot, prefix: Path, key: Path, o: Option<Item>)
    requires path <= key && 0 < |edge| <= |key| - |path| && survivor != Free && SlotSound(cr, survivor, |key| - |path| - |edge|, prefix + path + edge)
    requires Updated(c, PrependPath(FlattenSlot(survivor), edge), key[|path|..], o)
    ensures Updated(Extension(path, c), PrependPath(FlattenSlot(survivor), path + edge), key, o)
    ensures prefix + path + edge == prefix + (path + edge)
  {
    hide SlotSound, FlattenSlot, Updated, PrependPath, SlotOk;
    SlotFlat(cr, survivor, |key| - |path| - |edge|, prefix + path + edge);
    CanonicalPrepend(FlattenSlot(survivor), edge, |key| - |path| - |edge|);
    PrependUpdates(path, c, PrependPath(FlattenSlot(survivor), edge), key, o);
    PrependTwice(FlattenSlot(survivor), edge, path);
    assert prefix + path + edge == prefix + (path + edge);
  }

  lemma SoundFlat(cr: Crypto, f: RamNode, len: nat, prefix: Path)
    requires f != REmpty && Sound(cr, f, len, prefix)
    ensures RamOk(f, len) && 0 < len && Flatten(f) != Empty && Canonical(Flatten(f), len)
  {
    FlattenOk(f, len);
    hide Flatten, Canonical;
  }

  lemma SlotFlat(cr: Crypto, s: Slot, len: nat, prefix: Path)
    requires s != Free && SlotSound(cr, s, len, prefix)
    ensures SlotOk(s, len) && FlattenSlot(s) != Empty && Canonical(FlattenSlot(s), len)
  {
    hide FlattenSlot, Canonical, SlotOk;
    FlattenSlotOk(s, len);
  }

  lemma PrependUpdates(path: Path, c: Node, c': Node, key: Path, o: Option<Item>)
    requires path <= key && c' != Empty && Updated(c, c', key[|path|..], o)
    ensures Updated(Extension(path, c), PrependPath(c', path), key, o)
  {
    hide Updated, PrependPath, Get;
    forall k: Path ensures Get(PrependPath(c', path), k) == if path <= k then Get(c', k[|path|..]) else None {
      GetPrepend(c', path, k);
    }
    UpdatedUnderPath(path, c, c', key, o, PrependPath(c', path));
  }

  // -------------------------------------------------------------------- branches

  lemma BranchNetThrough(cr: Crypto, pol: Policy, f: RamNode, prefix: Path, key: Path, u: B.Net, out: ItemOut)
    requires NetOk(u) && f.RBranch? && Sound(cr, f, |key|, prefix) && key != [] && |f.slots| == 16
    requires SlotNetAs(cr, SlotNet(cr, pol, f.slots[key[0]], prefix + [key[0]], key[1..], u), FlattenSlot(f.slots[key[0]]), key[1..], prefix + [key[0]], out)
    ensures NetAs(cr, RamNet(cr, pol, f, prefix, key, u), Flatten(f), key, prefix, out)
  {
    NetUnfoldsBranch(cr, pol, f, prefix, key, u);
    var r := SlotNet(cr, pol, f.slots[key[0]], prefix + [key[0]], key[1..], u);
    hide Sound, SlotSound, Flatten, FlattenSlot, RamNet, SlotNet, NetAs, SlotNetAs;
    SlotNetAsOk(cr, r, FlattenSlot(f.slots[key[0]]), key[1..], prefix + [key[0]], out);
    BranchCases(cr, f, r.value, prefix, key, out);
  }

  lemma SlotNetAsOk(cr: Crypto, r: Result<Deleted<Slot>>, n: Node, key: Path, prefix: Path, out: ItemOut)
    requires SlotNetAs(cr, r, n, key, prefix, out)
    ensures r.Ok?
  {
  }

  function BranchResult(slots: seq<Slot>, i: Nibble, r: Deleted<Slot>): RamDeleted
    requires |slots| == 16
  {
    match r
    case Absent => RAbsent
    case Changed(s) => RChanged(RBranch(slots[i := s], None))
    case Removed => RCollapse(slots[i := Free])
  }

  lemma NetUnfoldsBranch(cr: Crypto, pol: Policy, f: RamNode, prefix: Path, key: Path, u: B.Net)
    requires NetOk(u) && f.RBranch? && key != [] && |f.slots| == 16
    ensures var r := SlotNet(cr, pol, f.slots[key[0]], prefix + [key[0]], key[1..], u);
      r.Ok? ==> RamNet(cr, pol, f, prefix, key, u) == Ok(BranchResult(f.slots, key[0], r.value))
  {
    hide RCollapse;
  }

  lemma BranchCases(cr: Crypto, f: RamNode, r: Deleted<Slot>, prefix: Path, key: Path, out: ItemOut)
    requires f.RBranch? && Sound(cr, f, |key|, prefix) && key != [] && |f.slots| == 16
    requires SlotNetAs(cr, Ok(r), FlattenSlot(f.slots[key[0]]), key[1..], prefix + [key[0]], out)
    ensures NetAs(cr, Ok(BranchResult(f.slots, key[0], r)), Flatten(f), key, prefix, out)
  {
    BranchFlat(cr, f, |key|, prefix);
    hide Sound, SlotSound, Flatten, FlattenSlot, FlattenSlots, Updated, OnlyKey, RCollapse, Canonical, Get;
    var i, children := key[0], FlattenSlots(f.slots);
    GetsBranch(children, key);
    match r
    case Absent =>
    case Changed(now) =>
      BranchSound(cr, f.slots, f.memo, i, now, |key|, prefix);
      FlattenUpdate(f.slots, i, now);
      BranchFlattens(f.slots[i := now]);
      UpdatedUnderBranch(children, FlattenSlot(now), key, out.item);
    case Removed => BranchRemoved(cr, f, prefix, key);
  }

  lemma BranchRemoved(cr: Crypto, f: RamNode, prefix: Path, key: Path)
    requires f.RBranch? && Sound(cr, f, |key|, prefix) && key != [] && |f.slots| == 16
    requires OnlyKey(FlattenSlot(f.slots[key[0]]), key[1..]) && Get(FlattenSlot(f.slots[key[0]]), key[1..]).Some?
    ensures NetAs(cr, Ok(RCollapse(f.slots[key[0] := Free])), Flatten(f), key, prefix, ItemOut(None, true))
  {
    BranchFlat(cr, f, |key|, prefix);
    NothingThere(key[1..]);
    hide Sound, SlotSound, Flatten, FlattenSlot, FlattenSlots, Updated, OnlyKey, RCollapse, Canonical, Get, NetAs, CollapseSound, ChangedTo, Collapse;
    var i, children := key[0], FlattenSlots(f.slots);
    GetsBranch(children, key);
    RemovedBranch(children, key);
    FlattenUpdate(f.slots, i, Free);
    FreeFlattens();
    RemovedSound(cr, f, i, |key|, prefix);
    CollapsedAs(cr, RCollapse(f.slots[i := Free]), f.slots[i := Free], children, key, prefix);
  }

  lemma BranchFlattens(slots: seq<Slot>)
    ensures Flatten(RBranch(slots, None)) == Branch(FlattenSlots(slots))
  {
  }

  lemma BranchFlat(cr: Crypto, f: RamNode, len: nat, prefix: Path)
    requires f.RBranch? && Sound(cr, f, len, prefix)
    ensures Flatten(f) == Branch(FlattenSlots(f.slots)) && Canonical(Flatten(f), len) && |f.slots| == 16 && 0 < len
    ensures forall i :: 0 <= i < 16 ==> FlattenSlots(f.slots)[i] == FlattenSlot(f.slots[i])
  {
    FlattenOk(f, len);
  }

  lemma GetsBranch(children: seq<Node>, key: Path)
    requires |children| == 16 && key != []
    ensures Get(Branch(children), key) == Get(children[key[0]], key[1..])
  {
  }

  /** What a collapse leaves is sound. */
  ghost predicate CollapseSound(cr: Crypto, r: RamDeleted, slots: seq<Slot>, len: nat, prefix: Path) {
    && DeletesAs(Ok(r), Ok(Collapse(FlattenSlots(slots))), len)
    && (r.RChanged? ==> Sound(cr, r.now, len, prefix))
    && (r.RCollapsed? ==> |r.edge| <= len && SlotSound(cr, r.survivor, len - |r.edge|, prefix + r.edge))
  }

  lemma RemovedSound(cr: Crypto, f: RamNode, i: Nibble, len: nat, prefix: Path)
    requires f.RBranch? && Sound(cr, f, len, prefix) && |f.slots| == 16 && FlattenSlot(f.slots[i]) != Empty
    ensures f.slots[i] != Free && CollapseSound(cr, RCollapse(f.slots[i := Free]), f.slots[i := Free], len, prefix)
  {
    FreeFlattens();
    FreePrefix();
    FreeMemo(cr);
    assert RamOk(RBranch(f.slots, None), len);
    hide FlattenSlot, SlotOk, SlotMemoOk, SlotPrefixOk, LiveRam, RCollapse, DeletesAs, Flatten, FlattenSlots, Collapse, RamHash;
    RCollapseOk(f.slots, i, len);
    CollapseMemo(cr, f.slots[i := Free]);
    CollapsePrefix(f.slots[i := Free], prefix);
    hide MemoOk, PrefixOk, RamOk;
    CollapseParts(cr, RCollapse(f.slots[i := Free]), f.slots[i := Free], len, prefix);
  }

  lemma CollapseParts(cr: Crypto, r: RamDeleted, slots: seq<Slot>, len: nat, prefix: Path)
    requires DeletesAs(Ok(r), Ok(Collapse(FlattenSlots(slots))), len) && DeletedMemoOk(cr, Ok(r)) && DeletedPrefixOk(Ok(r), prefix)
    ensures CollapseSound(cr, r, slots, len, prefix)
  {
    hide MemoOk, PrefixOk, RamOk, SlotOk, SlotMemoOk, SlotPrefixOk, Flatten, FlattenSlot, FlattenSlots, Collapse;
  }

  lemma CollapsedAs(cr: Crypto, r: RamDeleted, slots: seq<Slot>, children: seq<Node>, key: Path, prefix: Path)
    requires key != [] && |children| == 16 && ChangedTo(Branch(children), Ok(Collapse(children[key[0] := Empty])), key, None)
    requires FlattenSlots(slots) == children[key[0] := Empty] && CollapseSound(cr, r, slots, |key|, prefix)
    ensures NetAs(cr, Ok(r), Branch(children), key, prefix, ItemOut(None, true))
  {
    hide Sound, SlotSound, RamOk, SlotOk, Flatten, FlattenSlot, FlattenSlots, Collapse, Updated, Canonical, PrependPath, OnlyKey;
  }

  // ----------------------------------------------------------- promoted accounts

  function ItemWith(s: Slot, storage: Node): Item
    requires s.Promoted?
  {
    Account(s.nonce, s.balance, s.codeHash, storage)
  }

  function ItemOf(s: Slot): Item
    requires s.Promoted?
  {
    ItemWith(s, Flatten(s.storage))
  }

  /** A sound promoted account whose storage holds plain values. */
  ghost predicate PromotedOk(cr: Crypto, s: Slot, prefix: Path) {
    s.Promoted? && |prefix| + |s.path| == KEY_NIBBLES && SlotSound(cr, s, |s.path|, prefix) && ValuesOnly(Flatten(s.storage))
  }

  lemma PromotedParts(cr: Crypto, s: Slot, prefix: Path)
    requires PromotedOk(cr, s, prefix)
    ensures s.storage != REmpty && Sound(cr, s.storage, KEY_NIBBLES, prefix + s.path) && Plain(s.storage, true)
    ensures Canonical(Flatten(s.storage), KEY_NIBBLES) && Structured(Some(ItemOf(s))) && FlattenSlot(s) == Leaf(s.path, ItemOf(s))
  {
    FlattenOk(s.storage, KEY_NIBBLES);
    PlainFromFlat(s.storage, KEY_NIBBLES, true);
  }

  lemma PromotedItem(cr: Crypto, s: Slot, prefix: Path)
    requires PromotedOk(cr, s, prefix)
    ensures s.Promoted? && FlattenSlot(s) == Leaf(s.path, ItemOf(s)) && (ItemOf(s).Account? ==> Canonical(ItemOf(s).storage, KEY_NIBBLES))
  {
    hide Sound, Flatten, Canonical, ValuesOnly, Plain;
    PromotedParts(cr, s, prefix);
  }

  lemma PromotedWith(cr: Crypto, s: Slot, prefix: Path, storage: RamNode)
    requires s.Promoted? && |prefix| + |s.path| == KEY_NIBBLES && storage != REmpty && Sound(cr, storage, KEY_NIBBLES, prefix + s.path) && ValuesOnly(Flatten(storage))
    ensures PromotedOk(cr, s.(storage := storage), prefix)
  {
    hide RamOk, MemoOk, PrefixOk, ValuesOnly;
  }

  /** The storage walk of a slot write. */
  lemma StorageInsert(cr: Crypto, pol: Policy, s: Slot, prefix: Path, slot: Path, v: Bytes)
    requires PromotedOk(cr, s, prefix) && |slot| == KEY_NIBBLES
    ensures Structured(Some(ItemOf(s)))
    ensures var r := WalkInsert(cr, pol, s.storage, prefix + s.path, slot, SetValue(v));
      && r.Ok? && PromotedOk(cr, s.(storage := r.value), prefix)
      && PutItem(Some(ItemOf(s)), SetSlot(slot, v)) == ItemOut(Some(ItemOf(s.(storage := r.value))), true)
  {
    PromotedParts(cr, s, prefix);
    var base := prefix + s.path;
    hide PromotedOk, WalkInsert, RamInsert, Insert, Canonical, ValuesOnly, Plain, RamOk, MemoOk, PrefixOk, Flatten, FlattenSlot, SlotSound;
    StorageBase(base, slot);
    InsertWalks(KEY_NIBBLES, cr, pol, s.storage, base, slot, SetValue(v));
    InsertCommutes(cr, pol, s.storage, base, slot, SetValue(v));
    InsertKeepsMemos(cr, pol, s.storage, base, slot, SetValue(v));
    InsertKeepsPrefixes(cr, pol, s.storage, base, slot, SetValue(v));
    PutStaysPlain(Flatten(s.storage), slot, v);
    var r := WalkInsert(cr, pol, s.storage, base, slot, SetValue(v));
    PromotedWith(cr, s, prefix, r.value);
    SlotPutItem(ItemOf(s), slot, v);
  }

  lemma SlotPutItem(item: Item, slot: Path, v: Bytes)
    requires Structured(Some(item)) && |slot| == KEY_NIBBLES
    ensures var r := Insert(item.storage, slot, SetValue(v));
      r.Ok? ==> PutItem(Some(item), SetSlot(slot, v)) == ItemOut(Some(item.(storage := r.value)), true)
  {
    hide Insert, Canonical, ValuesOnly;
  }

  lemma SlotCutItem(item: Item, slot: Path)
    requires Structured(Some(item)) && |slot| == KEY_NIBBLES
    ensures var r := Delete(item.storage, slot, DeleteValue); var out := CutItem(Some(item), DeleteSlot(slot));
      r.Ok? ==>
        && (r.value.Absent? ==> out == ItemOut(Some(item), false))
        && (r.value.Removed? ==> out == ItemOut(Some(item.(storage := Empty)), true))
        && (r.value.Changed? ==> out == ItemOut(Some(item.(storage := r.value.now)), true))
  {
    hide Delete, Canonical, ValuesOnly;
  }

  /** What a delete in promoted storage leaves of the account. */
  ghost predicate StorageDeletesAs(cr: Crypto, s: Slot, prefix: Path, r: Result<RamDeleted>, out: ItemOut)
    requires s.Promoted?
  {
    && r.Ok?
    && match r.value
       case RAbsent => out == ItemOut(Some(ItemOf(s)), false)
       case RChanged(now) => PromotedOk(cr, s.(storage := now), prefix) && out == ItemOut(Some(ItemOf(s.(storage := now))), true)
       case RRemoved => out == ItemOut(Some(ItemWith(s, Empty)), true)
       case RCollapsed(edge, survivor) =>
         (survivor.Disk? || survivor.Mem?) && out == ItemOut(Some(ItemWith(s, PrependPath(survivor.rec.node, edge))), true)
  }

  lemma StorageDelete(cr: Crypto, pol: Policy, s: Slot, prefix: Path, slot: Path)
    requires PromotedOk(cr, s, prefix) && |slot| == KEY_NIBBLES
    ensures Structured(Some(ItemOf(s)))
    ensures StorageDeletesAs(cr, s, prefix, WalkDelete(cr, pol, s.storage, prefix + s.path, slot, DeleteValue), CutItem(Some(ItemOf(s)), DeleteSlot(slot)))
  {
    PromotedParts(cr, s, prefix);
    var base, n := prefix + s.path, Flatten(s.storage);
    hide PromotedOk, WalkDelete, RamDelete, Delete, CutItem, Canonical, ValuesOnly, Plain, RamOk, MemoOk, PrefixOk, Flatten, FlattenSlot, SlotSound, SlotOk,
      PrependPath, DeletesAs, DeletedMemoOk, DeletedPrefixOk, StorageDeletesAs, Structured;
    StorageBase(base, slot);
    DeleteWalks(KEY_NIBBLES, cr, pol, s.storage, base, slot, DeleteValue);
    ValuesArePlain(n);
    DeleteCommutes(cr, pol, s.storage, base, slot, DeleteValue);
    DeleteKeepsMemos(cr, pol, s.storage, base, slot, DeleteValue);
    DeleteKeepsPrefixes(cr, pol, s.storage, base, slot, DeleteValue);
    StorageCases(cr, s, prefix, slot, RamDelete(cr, pol, s.storage, base, slot, DeleteValue));
  }

  lemma StorageCases(cr: Crypto, s: Slot, prefix: Path, slot: Path, r: Result<RamDeleted>)
    requires PromotedOk(cr, s, prefix) && |slot| == KEY_NIBBLES && Structured(Some(ItemOf(s))) && Canonical(Flatten(s.storage), KEY_NIBBLES)
    requires DeletesAs(r, Delete(Flatten(s.storage), slot, DeleteValue), KEY_NIBBLES) && DeletedMemoOk(cr, r) && DeletedPrefixOk(r, prefix + s.path)
    ensures StorageDeletesAs(cr, s, prefix, r, CutItem(Some(ItemOf(s)), DeleteSlot(slot)))
  {
    hide SlotSound, Delete, CutItem, Canonical, RamOk, MemoOk, PrefixOk, Flatten, FlattenSlot, SlotOk, SlotMemoOk, SlotPrefixOk, PrependPath, ValuesOnly;
    RemoveStaysPlain(Flatten(s.storage), slot);
    SlotCutItem(ItemOf(s), slot);
    if r.Ok? && r.value.RChanged? {
      PromotedWith(cr, s, prefix, r.value.now);
    } else if r.Ok? && r.value.RCollapsed? {
      SurvivorIsRecord(s.storage, slot, r.value.edge, r.value.survivor);
      RecordFlattens(r.value.survivor);
    }
  }

  lemma RecordFlattens(s: Slot)
    ensures s.Disk? || s.Mem? ==> FlattenSlot(s) == s.rec.node
  {
  }

  /** The account ends as the leaf of the resulting item. */
  ghost predicate LeafAs(cr: Crypto, r: Result<Deleted<Slot>>, path: Path, prefix: Path, out: ItemOut) {
    && r.Ok? && out.item.Some?
    && (!out.changed ==> r.value.Absent?)
    && (out.changed ==> r.value.Changed? && r.value.now != Free && SlotSound(cr, r.value.now, |path|, prefix) && FlattenSlot(r.value.now) == Leaf(path, out.item.value))
  }

  lemma InlineIsLeaf(cr: Crypto, pol: Policy, s: Slot, prefix: Path, storage: Node, u: B.Net)
    requires NetOk(u) && !u.account.Delete? && s.Promoted? && Structured(Some(ItemWith(s, storage)))
    ensures LeafAs(cr, InlineNet(cr, pol, s, prefix, storage, u), s.path, prefix, NetItem(Some(ItemWith(s, storage)), u).(changed := true))
  {
    var item := ItemWith(s, storage);
    var n := Leaf(s.path, item);
    LeafRecord(s.path, item);
    hide NetNode, NetItem, Settle, Structured, Canonical, SlotSound, FlattenSlot, Updated, RecordOk, Flatten;
    NetNodeSpec(n, s.path, u);
    var d, out := NetNode(n, s.path, u), NetItem(Some(item), u);
    if d.Changed? {
      LeafIsOnly(s.path, n, d.now, out.item.value);
    }
    SettleSound(cr, pol, Rec(prefix, Left(n, d)), |s.path|);
  }

  lemma LeafRecord(path: Path, item: Item)
    requires Structured(Some(item))
    ensures RecordOk(Leaf(path, item), path) && Get(Leaf(path, item), path) == Some(item) && Canonical(Leaf(path, item), |path|)
  {
  }

  lemma {:induction false} ItemsFlag(o: Option<Item>, ws: seq<B.Write>, changed: bool)
    requires Structured(o) && WritesOk(ws)
    ensures var out := WriteItems(o, ws, false); WriteItems(o, ws, changed) == ItemOut(out.item, changed || out.changed)
    decreases |ws|
  {
    hide Structured, WriteItem;
    if ws != [] {
      var w := WriteItem(o, ws[0]);
      ItemsFlag(w.item, ws[1..], changed || w.changed);
      ItemsFlag(w.item, ws[1..], w.changed);
    }
  }

  lemma RestIsWrites(o: Option<Item>, ws: seq<B.Write>)
    requires Structured(o) && WritesOk(ws)
    ensures NetItem(o, B.Net(false, B.Keep, ws)) == WriteItems(o, ws, false)
  {
    hide WriteItems, Structured;
  }

  /** The slot writes of a net update on a promoted account. */
  lemma {:induction false} WritesPromoted(cr: Crypto, pol: Policy, s: Slot, prefix: Path, ws: seq<B.Write>, changed: bool)
    requires PromotedOk(cr, s, prefix) && WritesOk(ws)
    ensures Structured(Some(ItemOf(s)))
    ensures LeafAs(cr, PromotedWrites(cr, pol, s, prefix, ws, changed), s.path, prefix, WriteItems(Some(ItemOf(s)), ws, changed))
    decreases |ws|
  {
    PromotedParts(cr, s, prefix);
    hide PromotedOk, Structured, WriteItems, PromotedWrites, LeafAs, FlattenSlot, Flatten, Sound, Plain, Canonical;
    if ws == [] {
      WritesNothing(cr, pol, s, prefix, changed);
    } else {
      WritesUnfold(cr, pol, s, prefix, ws, changed);
      var slot := ws[0].slot;
      if ws[0].value.Some? {
        StorageInsert(cr, pol, s, prefix, slot, ws[0].value.value);
        var r := WalkInsert(cr, pol, s.storage, prefix + s.path, slot, SetValue(ws[0].value.value));
        WritesPromoted(cr, pol, s.(storage := r.value), prefix, ws[1..], true);
      } else {
        StorageDelete(cr, pol, s, prefix, slot);
        var r := WalkDelete(cr, pol, s.storage, prefix + s.path, slot, DeleteValue);
        match r.value
        case RAbsent => WritesPromoted(cr, pol, s, prefix, ws[1..], changed);
        case RChanged(now) => WritesPromoted(cr, pol, s.(storage := now), prefix, ws[1..], true);
        case RRemoved => RestInline(cr, pol, s, prefix, Empty, ws[1..]);
        case RCollapsed(edge, survivor) => RestInline(cr, pol, s, prefix, PrependPath(survivor.rec.node, edge), ws[1..]);
      }
    }
  }

  lemma WritesNothing(cr: Crypto, pol: Policy, s: Slot, prefix: Path, changed: bool)
    requires PromotedOk(cr, s, prefix) && Structured(Some(ItemOf(s))) && FlattenSlot(s) == Leaf(s.path, ItemOf(s))
    ensures LeafAs(cr, PromotedWrites(cr, pol, s, prefix, [], changed), s.path, prefix, WriteItems(Some(ItemOf(s)), [], changed))
  {
    hide SlotSound, Structured, FlattenSlot, Flatten, ValuesOnly;
  }

  lemma WritesUnfold(cr: Crypto, pol: Policy, s: Slot, prefix: Path, ws: seq<B.Write>, changed: bool)
    requires s.Promoted? && WritesOk(ws) && ws != [] && Structured(Some(ItemOf(s)))
    ensures var w := WriteItem(Some(ItemOf(s)), ws[0]);
      WriteItems(Some(ItemOf(s)), ws, changed) == WriteItems(w.item, ws[1..], changed || w.changed)
    ensures |ws[0].slot| == KEY_NIBBLES
    ensures ws[0].value.Some? ==> (
      var r := WalkInsert(cr, pol, s.storage, prefix + s.path, ws[0].slot, SetValue(ws[0].value.value));
      r.Ok? ==> PromotedWrites(cr, pol, s, prefix, ws, changed) == PromotedWrites(cr, pol, s.(storage := r.value), prefix, ws[1..], true))
    ensures ws[0].value.None? ==> (
      var r := WalkDelete(cr, pol, s.storage, prefix + s.path, ws[0].slot, DeleteValue);
      var t := PromotedWrites(cr, pol, s, prefix, ws, changed);
      r.Ok? ==>
        && (r.value.RAbsent? ==> t == PromotedWrites(cr, pol, s, prefix, ws[1..], changed))
        && (r.value.RChanged? ==> t == PromotedWrites(cr, pol, s.(storage := r.value.now), prefix, ws[1..], true))
        && (r.value.RRemoved? ==> t == InlineNet(cr, pol, s, prefix, Empty, B.Net(false, B.Keep, ws[1..])))
        && (r.value.RCollapsed? && (r.value.survivor.Disk? || r.value.survivor.Mem?) ==>
              t == InlineNet(cr, pol, s, prefix, PrependPath(r.value.survivor.rec.node, r.value.edge), B.Net(false, B.Keep, ws[1..]))))
  {
    hide WalkInsert, WalkDelete, InlineNet, WriteItem, Structured, PrependPath;
  }

  lemma RestInline(cr: Crypto, pol: Policy, s: Slot, prefix: Path, storage: Node, ws: seq<B.Write>)
    requires s.Promoted? && WritesOk(ws) && Structured(Some(ItemWith(s, storage)))
    ensures LeafAs(cr, InlineNet(cr, pol, s, prefix, storage, B.Net(false, B.Keep, ws)), s.path, prefix, WriteItems(Some(ItemWith(s, storage)), ws, true))
  {
    hide LeafAs, InlineNet, WriteItems, NetItem, Structured;
    InlineIsLeaf(cr, pol, s, prefix, storage, B.Net(false, B.Keep, ws));
    RestIsWrites(Some(ItemWith(s, storage)), ws);
    ItemsFlag(Some(ItemWith(s, storage)), ws, true);
  }

  /** The whole net update on a promoted account. */
  lemma PromotedNets(cr: Crypto, pol: Policy, s: Slot, prefix: Path, u: B.Net)
    requires Normal(u) && PromotedOk(cr, s, prefix)
    ensures Structured(Some(ItemOf(s)))
    ensures SlotNetAs(cr, PromotedNet(cr, pol, s, prefix, u), Leaf(s.path, ItemOf(s)), s.path, prefix, NetItem(Some(ItemOf(s)), u))
  {
    PromotedParts(cr, s, prefix);
    hide PromotedOk, Structured, LeafAs, FlattenSlot, Flatten, Sound, Plain, Canonical, PromotedWrites, InlineNet, NetItem, SlotNetAs;
    var o := Some(ItemOf(s));
    if u.account.Delete? {
      DeletedAs(cr, s, prefix, u);
    } else {
      if u.wipe {
        WipedItem(cr, s, prefix, u);
        InlineIsLeaf(cr, pol, s, prefix, Empty, u.(wipe := false));
      } else {
        var t := if u.account.Set? then Promoted(s.path, u.account.nonce, u.account.balance, u.account.codeHash, s.storage) else s;
        FieldsSet(cr, s, prefix, u);
        WritesPromoted(cr, pol, t, prefix, u.slots, u.account.Set?);
      }
      LeafNets(cr, PromotedNet(cr, pol, s, prefix, u), s.path, prefix, ItemOf(s), NetItem(o, u));
    }
  }

  lemma DeletedAs(cr: Crypto, s: Slot, prefix: Path, u: B.Net)
    requires Normal(u) && s.Promoted? && u.account.Delete? && Structured(Some(ItemOf(s)))
    ensures SlotNetAs(cr, Ok(Removed), Leaf(s.path, ItemOf(s)), s.path, prefix, NetItem(Some(ItemOf(s)), u))
  {
  }

  lemma LeafNets(cr: Crypto, r: Result<Deleted<Slot>>, path: Path, prefix: Path, item: Item, out: ItemOut)
    requires LeafAs(cr, r, path, prefix, out) && (!out.changed ==> out.item == Some(item))
    ensures SlotNetAs(cr, r, Leaf(path, item), path, prefix, out)
  {
    hide SlotSound, FlattenSlot;
    if out.changed {
      UpdatedLeaf(path, item, out.item.value);
    }
  }

  lemma FieldsSet(cr: Crypto, s: Slot, prefix: Path, u: B.Net)
    requires PromotedOk(cr, s, prefix) && NetOk(u) && !u.account.Delete? && !u.wipe && Structured(Some(ItemOf(s)))
    ensures var t := if u.account.Set? then Promoted(s.path, u.account.nonce, u.account.balance, u.account.codeHash, s.storage) else s;
      && PromotedOk(cr, t, prefix) && Structured(Some(ItemOf(t)))
      && NetItem(Some(ItemOf(s)), u) == WriteItems(Some(ItemOf(t)), u.slots, u.account.Set?)
  {
    hide RamOk, MemoOk, PrefixOk, ValuesOnly, Canonical, WriteItems, Flatten;
  }

  /** Promoted storage is never empty, so a wipe always does something. */
  lemma WipedItem(cr: Crypto, s: Slot, prefix: Path, u: B.Net)
    requires PromotedOk(cr, s, prefix) && NetOk(u) && !u.account.Delete? && u.wipe && Structured(Some(ItemOf(s)))
    ensures Structured(Some(ItemWith(s, Empty)))
    ensures NetItem(Some(ItemOf(s)), u) == NetItem(Some(ItemWith(s, Empty)), u.(wipe := false)).(changed := true)
  {
    PromotedParts(cr, s, prefix);
    var n := Flatten(s.storage);
    FlattenOk(s.storage, KEY_NIBBLES);
    EmptyCanonical(KEY_NIBBLES);
    EmptyValues();
    hide PromotedOk, Flatten, Canonical, Sound, Plain, SlotSound, WriteItems, Collect, FlattenSlot;
    CollectsSome(n);
    var p, q := PrepareItem(Some(ItemOf(s)), u), PrepareItem(Some(ItemWith(s, Empty)), u.(wipe := false));
    WipeCuts(ItemOf(s));
    hide ValuesOnly, CutItem, Structured;
    assert p.item == q.item && p.changed;
    ItemsFlag(p.item, u.slots, true);
    ItemsFlag(p.item, u.slots, q.changed);
  }

  lemma WipeCuts(item: Item)
    requires Structured(Some(item)) && item.storage != Empty
    ensures CutItem(Some(item), WipeStorage) == ItemOut(Some(item.(storage := Empty)), true)
  {
  }

  lemma CollectsSome(n: Node)
    requires Canonical(n, KEY_NIBBLES) && n != Empty && ValuesOnly(n)
    ensures Collect(n) != []
  {
    var k := SomeKey(n, KEY_NIBBLES);
    CollectIsLookups(n, KEY_NIBBLES, B.Entry(k, Get(n, k).value.bytes));
  }

  // ------------------------------------------------------------------ everything

  lemma SplitAccountNets(cr: Crypto, pol: Policy, s: Slot, prefix: Path, key: Path, u: B.Net)
    requires Normal(u) && PromotedOk(cr, s, prefix) && |key| == |s.path| && key != s.path
    ensures SlotNetAs(cr, SlotNet(cr, pol, s, prefix, key, u), FlattenSlot(s), key, prefix, NetItem(Get(FlattenSlot(s), key), u))
  {
    PromotedGets(s, key);
    CreatesItem(u);
    SplitUnfolds(cr, pol, s, prefix, key, u);
    hide PromotedOk, CommonPrefix, RFork, Creation, NetItem, SlotSound, FlattenSlot, Flatten, Updated, SlotNet, Get;
    if Creating(u) {
      SplitIsSound(cr, pol, s, prefix, key, u);
    }
  }

  /** The branch that parts a promoted account from another one at nibble `c`. */
  function SplitSlot(s: Slot, key: Path, c: nat, y: Slot): Slot
    requires s.Promoted? && c < |s.path| && c < |key|
  {
    Ram(RFork(s.path[..c], s.path[c], s.(path := s.path[c + 1..]), key[c], y))
  }

  lemma SplitUnfolds(cr: Crypto, pol: Policy, s: Slot, prefix: Path, key: Path, u: B.Net)
    requires NetOk(u) && s.Promoted? && |key| == |s.path| && key != s.path
    ensures var c := CommonPrefix(s.path, key);
      && c < |s.path|
      && SlotNet(cr, pol, s, prefix, key, u) == if !Creating(u) then Ok(Absent)
         else Ok(Changed(SplitSlot(s, key, c, Creation(cr, pol, prefix + key[..c + 1], key[c + 1..], u))))
  {
    hide CommonPrefix, RFork, Creation;
    assert s.path[..|s.path|] == s.path && key[..|key|] == key;
  }

  lemma SplitIsSound(cr: Crypto, pol: Policy, s: Slot, prefix: Path, key: Path, u: B.Net)
    requires Normal(u) && PromotedOk(cr, s, prefix) && |key| == |s.path| && key != s.path && CommonPrefix(s.path, key) < |s.path| && Creating(u)
    ensures var c := CommonPrefix(s.path, key);
      var now := SplitSlot(s, key, c, Creation(cr, pol, prefix + key[..c + 1], key[c + 1..], u));
      SlotSound(cr, now, |key|, prefix) && NetItem(None, u).changed && Updated(FlattenSlot(s), FlattenSlot(now), key, NetItem(None, u).item)
  {
    var c := CommonPrefix(s.path, key);
    hide PromotedOk, CommonPrefix, RFork, Creation, NetItem, SlotSound, FlattenSlot, Updated, Creating, ItemOk, Normal, SplitSlot;
    var at, rest := prefix + key[..c + 1], key[c + 1..];
    var y := Creation(cr, pol, at, rest, u);
    CreationIsLeaf(cr, pol, at, rest, u);
    SplitWith(cr, s, prefix, key, y, NetItem(None, u).item.value);
  }

  lemma SplitWith(cr: Crypto, s: Slot, prefix: Path, key: Path, y: Slot, it: Item)
    requires PromotedOk(cr, s, prefix) && |key| == |s.path| && key != s.path && CommonPrefix(s.path, key) < |s.path| && ItemOk(Some(it))
    requires var c := CommonPrefix(s.path, key); y != Free && SlotSound(cr, y, |key| - c - 1, prefix + key[..c + 1]) && FlattenSlot(y) == Leaf(key[c + 1..], it)
    ensures var c := CommonPrefix(s.path, key);
      var now := SplitSlot(s, key, c, y);
      SlotSound(cr, now, |key|, prefix) && Updated(FlattenSlot(s), FlattenSlot(now), key, Some(it))
  {
    hide PromotedOk, CommonPrefix, Canonical, RFork, Fork, SlotSound, FlattenSlot, Flatten, Updated, ItemOf;
    PromotedItem(cr, s, prefix);
    SplitAt(cr, s, prefix, key, CommonPrefix(s.path, key), y);
    SplitLeaf(s.path, ItemOf(s), key, it);
  }

  lemma SplitAt(cr: Crypto, s: Slot, prefix: Path, key: Path, c: nat, y: Slot)
    requires PromotedOk(cr, s, prefix) && c < |s.path| == |key| && s.path[..c] == key[..c] && s.path[c] != key[c]
    requires y != Free && SlotSound(cr, y, |key| - c - 1, prefix + key[..c + 1])
    ensures var now := SplitSlot(s, key, c, y);
      SlotSound(cr, now, |key|, prefix) && FlattenSlot(now) == Fork(s.path[..c], s.path[c], Leaf(s.path[c + 1..], ItemOf(s)), key[c], FlattenSlot(y))
  {
    ShorterSound(cr, s, prefix, c);
    var x := s.(path := s.path[c + 1..]);
    hide PromotedOk, RFork, Fork, SlotSound, Sound, FlattenSlot, Flatten;
    SplitPrefixIs(prefix, s.path, key, c);
    ForkSound(cr, s.path[..c], s.path[c], x, key[c], y, |key| - c - 1, prefix);
    SoundSlot(cr, RFork(s.path[..c], s.path[c], x, key[c], y), |key|, prefix);
  }

  lemma ShorterSound(cr: Crypto, s: Slot, prefix: Path, c: nat)
    requires PromotedOk(cr, s, prefix) && c < |s.path|
    ensures var x := s.(path := s.path[c + 1..]);
      SlotSound(cr, x, |s.path| - c - 1, prefix + s.path[..c] + [s.path[c]]) && FlattenSlot(x) == Leaf(s.path[c + 1..], ItemOf(s))
  {
    assert prefix + s.path[..c] + [s.path[c]] + s.path[c + 1..] == prefix + s.path;
  }

  lemma SoundSlot(cr: Crypto, f: RamNode, len: nat, prefix: Path)
    requires f != REmpty && Sound(cr, f, len, prefix)
    ensures SlotSound(cr, Ram(f), len, prefix) && FlattenSlot(Ram(f)) == Flatten(f)
  {
  }

  lemma RecordNets(cr: Crypto, pol: Policy, rec: Rec, key: Path, u: B.Net)
    requires NetOk(u) && RecordOk(rec.node, key)
    ensures SlotNetAs(cr, RecordNet(cr, pol, rec, key, u), rec.node, key, rec.prefix, NetItem(Get(rec.node, key), u))
  {
    hide NetNode, NetItem, Settle, Structured, Canonical, SlotSound, FlattenSlot, Updated, OnlyKey;
    NetNodeSpec(rec.node, key, u);
    var d := NetNode(rec.node, key, u);
    if d.Changed? {
      SettleSound(cr, pol, Rec(rec.prefix, d.now), |key|);
    } else if d.Removed? {
      RemovedWasThere(Get(rec.node, key), u);
    }
  }

  /** Only an account that was there can be removed. */
  lemma RemovedWasThere(o: Option<Item>, u: B.Net)
    requires Structured(o) && NetOk(u) && NetItem(o, u).changed && NetItem(o, u).item.None?
    ensures o.Some?
  {
  }

  lemma FreeNets(cr: Crypto, pol: Policy, prefix: Path, key: Path, u: B.Net)
    requires Normal(u)
    ensures SlotNetAs(cr, SlotNet(cr, pol, Free, prefix, key, u), Empty, key, prefix, NetItem(None, u))
  {
    hide Creation, NetItem, SlotSound, FlattenSlot;
    CreatesItem(u);
    EmptyRecord(key);
    if Creating(u) {
      CreationIsLeaf(cr, pol, prefix, key, u);
    }
  }

  function RamResult(cr: Crypto, pol: Policy, prefix: Path, r: RamDeleted): Deleted<Slot> {
    match r
    case RAbsent => Absent
    case RChanged(now) => Changed(Ram(now))
    case RRemoved => Removed
    case RCollapsed(edge, survivor) => Changed(Rehome(cr, pol, survivor, edge, prefix))
  }

  lemma RamCases(cr: Crypto, pol: Policy, n: Node, r: RamDeleted, prefix: Path, key: Path, out: ItemOut)
    requires NetAs(cr, Ok(r), n, key, prefix, out) && (r.RRemoved? ==> Get(n, key).Some?)
    ensures SlotNetAs(cr, Ok(RamResult(cr, pol, prefix, r)), n, key, prefix, out)
  {
    hide Sound, SlotSound, Flatten, FlattenSlot, Updated, OnlyKey, Rehome, PrependPath, Get;
    if r.RChanged? {
      SoundSlot(cr, r.now, |key|, prefix);
    } else if r.RCollapsed? {
      RehomeSound(cr, pol, r.survivor, r.edge, prefix, |key|);
    }
  }

  /** A net update through the frontier does to the flattened trie what it does to the one
      item it concerns, and leaves shape, memos and stored paths sound. */
  lemma {:induction false} NetDoes(cr: Crypto, pol: Policy, f: RamNode, prefix: Path, key: Path, u: B.Net)
    requires Normal(u) && |prefix| + |key| == KEY_NIBBLES && f != REmpty && Sound(cr, f, |key|, prefix) && Plain(f, false)
    requires Structured(Get(Flatten(f), key))
    ensures NetAs(cr, RamNet(cr, pol, f, prefix, key, u), Flatten(f), key, prefix, NetItem(Get(Flatten(f), key), u))
    decreases f
  {
    hide Structured, NetItem, NetAs, SlotNetAs, RamNet, SlotNet, SlotPlain, SlotSound, FlattenSlot, FlattenSlots, CommonPrefix, RamOk, MemoOk, PrefixOk, Canonical;
    match f
    case RExt(path, child, _) =>
      SoundExt(cr, f, |key|, prefix);
      ExtFlattens(f);
      PrefixIsCommon(path, key);
      if CommonPrefix(path, key) < |path| {
        ExtNetSplits(cr, pol, f, prefix, key, u);
      } else {
        NetDoes(cr, pol, child, prefix + path, key[|path|..], u);
        ExtNetThrough(cr, pol, f, prefix, key, u, NetItem(Get(Flatten(f), key), u));
      }
    case RBranch(slots, _) =>
      BranchFlat(cr, f, |key|, prefix);
      SlotsSound(cr, f, |key|, prefix);
      GetsBranch(FlattenSlots(slots), key);
      SlotNetDoes(cr, pol, slots[key[0]], prefix + [key[0]], key[1..], u);
      BranchNetThrough(cr, pol, f, prefix, key, u, NetItem(Get(Flatten(f), key), u));
  }

  lemma {:induction false} SlotNetDoes(cr: Crypto, pol: Policy, s: Slot, prefix: Path, key: Path, u: B.Net)
    requires Normal(u) && |prefix| + |key| == KEY_NIBBLES && SlotSound(cr, s, |key|, prefix) && SlotPlain(s, false)
    requires Structured(Get(FlattenSlot(s), key))
    ensures SlotNetAs(cr, SlotNet(cr, pol, s, prefix, key, u), FlattenSlot(s), key, prefix, NetItem(Get(FlattenSlot(s), key), u))
    decreases s
  {
    hide Structured, NetItem, NetAs, SlotNetAs, RamNet, RecordNet, PromotedNet, Creation, CommonPrefix, RamOk, MemoOk, PrefixOk, Canonical, Flatten, ValuesOnly,
      Plain, Get;
    match s
    case Free =>
      EmptyRecord(key);
      FreeNets(cr, pol, prefix, key, u);
    case Ram(n) =>
      NetDoes(cr, pol, n, prefix, key, u);
      RamNets(cr, pol, n, prefix, key, u);
    case Disk(_, _, rec) => RecordNets(cr, pol, rec, key, u);
    case Mem(_, rec) => RecordNets(cr, pol, rec, key, u);
    case Promoted(path, _, _, _, _) =>
      PromotedGets(s, key);
      if key == path {
        PromotedNets(cr, pol, s, prefix, u);
      } else {
        SplitAccountNets(cr, pol, s, prefix, key, u);
      }
  }

  lemma PromotedGets(s: Slot, key: Path)
    requires s.Promoted?
    ensures FlattenSlot(s) == Leaf(s.path, ItemOf(s)) && Get(FlattenSlot(s), key) == if key == s.path then Some(ItemOf(s)) else None
  {
  }

  lemma RamNets(cr: Crypto, pol: Policy, n: RamNode, prefix: Path, key: Path, u: B.Net)
    requires NetOk(u) && Structured(Get(Flatten(n), key))
    requires NetAs(cr, RamNet(cr, pol, n, prefix, key, u), Flatten(n), key, prefix, NetItem(Get(Flatten(n), key), u))
    ensures SlotNetAs(cr, SlotNet(cr, pol, Ram(n), prefix, key, u), Flatten(n), key, prefix, NetItem(Get(Flatten(n), key), u))
  {
    var r, out := RamNet(cr, pol, n, prefix, key, u), NetItem(Get(Flatten(n), key), u);
    NetAsOk(cr, r, Flatten(n), key, prefix, out);
    assert SlotNet(cr, pol, Ram(n), prefix, key, u) == Ok(RamResult(cr, pol, prefix, r.value));
    if r.value.RRemoved? {
      RemovedWasThere(Get(Flatten(n), key), u);
    }
    hide NetAs, SlotNetAs, RamNet, SlotNet, NetItem, Flatten, Get;
    RamCases(cr, pol, Flatten(n), r.value, prefix, key, out);
  }

  // ------------------------------------------------------------- one record trie

  /** Two ways to read the same update off its item agree on report and result. */
  lemma NetsAgree(cr: Crypto, r: Result<RamDeleted>, d: Deleted<Node>, n: Node, key: Path, prefix: Path, out: ItemOut)
    requires NetAs(cr, r, n, key, prefix, out) && NetsTo(d, n, key, out)
    ensures DeletesAs(r, Ok(d), |key|) && DeletedMemoOk(cr, r) && DeletedPrefixOk(r, prefix)
  {
    hide RamOk, MemoOk, PrefixOk, SlotOk, SlotMemoOk, SlotPrefixOk, Flatten, FlattenSlot, Updated, OnlyKey, Canonical, PrependPath;
    match r.value
    case RAbsent =>
    case RRemoved =>
      if d.Changed? {
        EmptiedIsEmpty(n, d.now, key);
      }
    case RChanged(now) =>
      SoundFlat(cr, now, |key|, prefix);
      SameUpdate(d, n, Flatten(now), key, out);
    case RCollapsed(edge, survivor) =>
      SlotFlat(cr, survivor, |key| - |edge|, prefix + edge);
      CanonicalPrepend(FlattenSlot(survivor), edge, |key| - |edge|);
      SameUpdate(d, n, PrependPath(FlattenSlot(survivor), edge), key, out);
  }

  lemma EmptiedIsEmpty(n: Node, m: Node, key: Path)
    requires OnlyKey(n, key) && Updated(n, m, key, None) && Canonical(m, |key|)
    ensures m == Empty
  {
    hide Canonical;
    EmptyCanonical(|key|);
    EmptyLookups(n, m, key);
    CanonicalIsUnique(m, Empty, |key|);
  }

  lemma EmptyLookups(n: Node, m: Node, key: Path)
    requires OnlyKey(n, key) && Updated(n, m, key, None)
    ensures SameLookups(m, Empty, |key|)
  {
  }

  lemma SameUpdate(d: Deleted<Node>, n: Node, m: Node, key: Path, out: ItemOut)
    requires NetsTo(d, n, key, out) && out.changed && m != Empty && Canonical(m, |key|) && Updated(n, m, key, out.item)
    ensures d == Changed(m)
  {
    hide Canonical, OnlyKey;
    if d.Removed? {
      EmptiedIsEmpty(n, m, key);
    } else {
      assert d.Changed?;
      CanonicalIsUnique(d.now, m, |key|);
    }
  }

  /** The net update through the frontier reports and leaves exactly what the same update
      does to the flattened trie as one record, and keeps memos and stored paths. */
  lemma NetCommutes(cr: Crypto, pol: Policy, f: RamNode, key: Path, u: B.Net)
    requires Normal(u) && |key| == KEY_NIBBLES && f != REmpty && Sound(cr, f, KEY_NIBBLES, []) && AccountsPlain(Flatten(f), KEY_NIBBLES)
    requires Structured(Get(Flatten(f), key))
    ensures RecordOk(Flatten(f), key)
    ensures DeletesAs(RamNet(cr, pol, f, [], key, u), Ok(NetNode(Flatten(f), key, u)), KEY_NIBBLES)
    ensures DeletedMemoOk(cr, RamNet(cr, pol, f, [], key, u)) && DeletedPrefixOk(RamNet(cr, pol, f, [], key, u), [])
  {
    SoundFlat(cr, f, KEY_NIBBLES, []);
    hide Sound, Flatten, AccountsPlain, RamNet, NetNode, NetItem, NetAs, NetsTo, DeletesAs, DeletedMemoOk, DeletedPrefixOk, Canonical, Structured, Get, RamOk;
    PlainAtRoot(f);
    NetDoes(cr, pol, f, [], key, u);
    NetNodeSpec(Flatten(f), key, u);
    NetsAgree(cr, RamNet(cr, pol, f, [], key, u), NetNode(Flatten(f), key, u), Flatten(f), key, [], NetItem(Get(Flatten(f), key), u));
  }
}

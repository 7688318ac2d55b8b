/** The RAM frontier: a trie of in-memory nodes over subtree records, with promotion of
    grown records, splitting, collapsing and re-homing, and memoised hashes.

    A frontier node is uniquely owned (the source clones before it mutates), so an update
    is a function on the node.  `Rec` is what the record of a `Disk` or `Mem` slot reads
    back as.  Which records are promoted and which slots live on disk is left to a
    `Policy`, an arbitrary function of the record.
 */
module Frontier {
  import opened Trie
  import opened TrieRoot

  datatype DiskPtr = DiskPtr(unit: nat, len: nat)

  /** A subtree record with the frontier path it was written under. */
  datatype Rec = Rec(prefix: Path, node: Node)

  datatype RamNode =
    | REmpty
    | RExt(path: Path, child: RamNode, memo: Option<Bytes>)
    | RBranch(slots: seq<Slot>, memo: Option<Bytes>)

  datatype Slot =
    | Free
    | Ram(node: RamNode)
    | Disk(ptr: DiskPtr, root: Bytes, rec: Rec)
    | Mem(root: Bytes, rec: Rec)
    | Promoted(path: Path, nonce: nat, balance: nat, codeHash: Bytes, storage: RamNode)

  const NO_SLOTS: seq<Slot> := [Free, Free, Free, Free, Free, Free, Free, Free,
                                Free, Free, Free, Free, Free, Free, Free, Free]

  datatype Policy = Policy(
    promote: Rec -> bool,              // the edited record outgrew a leaf
    oversized: Rec -> bool,            // the child does not fit a record
    place: Rec -> Option<DiskPtr>      // write it to disk at this pointer, or keep it in RAM
  )

  // --------------------------------------------------------------------- flatten

  /** Splice every record and promoted account back into one record trie. */
  function Flatten(f: RamNode): Node
    decreases f
  {
    match f
    case REmpty => Empty
    case RExt(path, child, _) => Extension(path, Flatten(child))
    case RBranch(slots, _) => Branch(FlattenSlots(slots))
  }

  function FlattenSlots(slots: seq<Slot>): (r: seq<Node>)
    ensures |r| == |slots|
    ensures forall i :: 0 <= i < |slots| ==> r[i] == FlattenSlot(slots[i])
    decreases slots
  {
    if slots == [] then [] else [FlattenSlot(slots[0])] + FlattenSlots(slots[1..])
  }

  function FlattenSlot(s: Slot): Node
    decreases s
  {
    match s
    case Free => Empty
    case Ram(n) => Flatten(n)
    case Disk(_, _, rec) => rec.node
    case Mem(_, rec) => rec.node
    case Promoted(path, nonce, balance, codeHash, storage) =>
      Leaf(path, Account(nonce, balance, codeHash, Flatten(storage)))
  }

  function LiveRam(slots: seq<Slot>): set<int> {
    set i | 0 <= i < |slots| && slots[i] != Free
  }

  /** The frontier's canonical shape for keys of `len` nibbles. */
  ghost predicate RamOk(f: RamNode, len: nat)
    decreases f
  {
    && (f.RExt? ==> 0 < |f.path| < len && f.child.RBranch? && RamOk(f.child, len - |f.path|))
    && (f.RBranch? ==>
      && 0 < len && |f.slots| == 16
      && (forall i :: 0 <= i < 16 ==> SlotOk(f.slots[i], len - 1))
      && 2 <= |LiveRam(f.slots)|)
  }

  ghost predicate SlotOk(s: Slot, len: nat)
    decreases s
  {
    && (s.Ram? ==> s.node != REmpty && RamOk(s.node, len))
    && (s.Disk? || s.Mem? ==> s.rec.node != Empty && Canonical(s.rec.node, len))
    && (s.Promoted? ==> |s.path| == len && s.storage != REmpty && RamOk(s.storage, KEY_NIBBLES))
  }

  // ------------------------------------------------------------------- promotion

  function PlaceLeaf(cr: Crypto, pol: Policy, rec: Rec): Slot {
    match pol.place(rec)
    case Some(ptr) => Disk(ptr, Root(cr, rec.node), rec)
    case None => Mem(Root(cr, rec.node), rec)
  }

  predicate HasTopBranch(n: Node) {
    n.Branch? || (n.Extension? && n.child.Branch?)
  }

  /** An account whose storage has a top branch to lift. */
  predicate Liftable(n: Node) {
    n.Leaf? && n.item.Account? && HasTopBranch(n.item.storage)
  }

  function RExtOver(path: Path, f: RamNode): RamNode {
    if path == [] then f else RExt(path, f, None)
  }

  /** Lift the record's top branch into RAM; every child becomes its own slot. */
  function Promote(cr: Crypto, pol: Policy, rec: Rec): RamNode
    requires HasTopBranch(rec.node)
    decreases rec.node, 2
  {
    var path := if rec.node.Extension? then rec.node.path else [];
    var branch := if rec.node.Extension? then rec.node.child else rec.node;
    RExtOver(path, RBranch(PromoteChildren(cr, pol, rec.prefix + path, branch, 0), None))
  }

  function PromoteChildren(cr: Crypto, pol: Policy, prefix: Path, branch: Node, i: nat): seq<Slot>
    requires branch.Branch?
    decreases branch, 1, 16 - i
  {
    if i >= 16 || i >= |branch.children| then []
    else
      [if branch.children[i] == Empty then Free
       else Settle(cr, pol, pol.oversized, Rec(prefix + [i], branch.children[i]))]
      + PromoteChildren(cr, pol, prefix, branch, i + 1)
  }

  /** Turn a record into a slot: split it into the frontier if it is to be split and
      can be, else keep it as one record. */
  function Settle(cr: Crypto, pol: Policy, split: Rec -> bool, rec: Rec): Slot
    decreases rec.node, 3
  {
    if split(rec) && HasTopBranch(rec.node) then Ram(Promote(cr, pol, rec))
    else if split(rec) && Liftable(rec.node) then
      var Leaf(path, Account(nonce, balance, codeHash, storage)) := rec.node;
      Promoted(path, nonce, balance, codeHash, Promote(cr, pol, Rec(rec.prefix + path, storage)))
    else PlaceLeaf(cr, pol, rec)
  }

  // ---------------------------------------------------------------------- insert

  ghost function NewSlot(cr: Crypto, pol: Policy, prefix: Path, key: Path, op: LeafOp): Result<Slot>
    requires OpOk(op)
  {
    var r := PlaceNew(key, op);
    if r.Ok? then Ok(PlaceLeaf(cr, pol, Rec(prefix, r.value))) else Err
  }

  function RFork(path: Path, i: Nibble, x: Slot, j: Nibble, y: Slot): RamNode {
    RExtOver(path, RBranch(NO_SLOTS[i := x][j := y], None))
  }

  ghost function RamInsert(cr: Crypto, pol: Policy, f: RamNode, prefix: Path, key: Path, op: LeafOp): Result<RamNode>
    requires OpOk(op) && RamOk(f, |key|)
    decreases f
  {
    match f
    case REmpty =>
      if key == [] then Err
      else
        var r := NewSlot(cr, pol, prefix + key[..1], key[1..], op);
        if r.Ok? then Ok(RBranch(NO_SLOTS[key[0] := r.value], None)) else Err
    case RExt(path, child, _) =>
      var c := CommonPrefix(path, key);
      if c < |path| then
        var r := NewSlot(cr, pol, prefix + path[..c] + [key[c]], key[c + 1..], op);
        if r.Err? then Err
        else Ok(RFork(path[..c], path[c], Ram(RExtOver(path[c + 1..], child)), key[c], r.value))
      else
        var r := RamInsert(cr, pol, child, prefix + path, key[c..], op);
        if r.Ok? then Ok(RExt(path, r.value, None)) else Err
    case RBranch(slots, _) =>
      var r := SlotInsert(cr, pol, slots[key[0]], prefix + [key[0]], key[1..], op);
      if r.Ok? then Ok(RBranch(slots[key[0] := r.value], None)) else Err
  }

  ghost function SlotInsert(cr: Crypto, pol: Policy, s: Slot, prefix: Path, key: Path, op: LeafOp): Result<Slot>
    requires OpOk(op) && SlotOk(s, |key|)
    decreases s
  {
    match s
    case Free => NewSlot(cr, pol, prefix, key, op)
    case Ram(n) =>
      var r := RamInsert(cr, pol, n, prefix, key, op);
      if r.Ok? then Ok(Ram(r.value)) else Err
    case Disk(_, _, rec) => RecInsert(cr, pol, rec, key, op)
    case Mem(_, rec) => RecInsert(cr, pol, rec, key, op)
    case Promoted(path, nonce, balance, codeHash, storage) =>
      var c := CommonPrefix(path, key);
      if c == |path| then
        match op {
          case SetSlot(slot, v) =>
            var r := RamInsert(cr, pol, storage, prefix + path, slot, SetValue(v));
            if r.Ok? then Ok(Promoted(path, nonce, balance, codeHash, r.value)) else Err
          case SetAccount(n, b, h) => Ok(Promoted(path, n, b, h, storage))
          case SetValue(_) => Err
        }
      else
        var r := NewSlot(cr, pol, prefix + key[..c + 1], key[c + 1..], op);
        if r.Err? then Err
        else Ok(Ram(RFork(path[..c], path[c], s.(path := path[c + 1..]), key[c], r.value)))
  }

  ghost function RecInsert(cr: Crypto, pol: Policy, rec: Rec, key: Path, op: LeafOp): Result<Slot>
    requires OpOk(op) && Canonical(rec.node, |key|)
  {
    var r := Insert(rec.node, key, op);
    if r.Ok? then Ok(Settle(cr, pol, pol.promote, Rec(rec.prefix, r.value))) else Err
  }

  // ---------------------------------------------------------------------- delete

  datatype RamDeleted =
    | RAbsent
    | RChanged(now: RamNode)
    | RRemoved
    | RCollapsed(edge: Path, survivor: Slot)   // one record or account left, to be re-homed

  /** An extension over whatever a child changed into, merged to canonical form. */
  function RMerge(path: Path, f: RamNode): RamNode {
    match f
    case RExt(p, c, _) => RExt(path + p, c, None)
    case _ => RExt(path, f, None)
  }

  function FirstRam(slots: seq<Slot>): nat {
    if slots == [] || slots[0] != Free then 0 else 1 + FirstRam(slots[1..])
  }

  function RCollapse(slots: seq<Slot>): RamDeleted {
    if |LiveRam(slots)| == 0 then RRemoved
    else if |LiveRam(slots)| == 1 then
      var j := FirstRam(slots);
      if j < |slots| && j < 16 then
        match slots[j] {
          case Ram(n) => RChanged(RMerge([j], n))
          case s => RCollapsed([j], s)
        }
      else RRemoved
    else RChanged(RBranch(slots, None))
  }

  /** Put a collapse survivor at `prefix`, with the collapsed edge in front of it. */
  function Rehome(cr: Crypto, pol: Policy, survivor: Slot, edge: Path, prefix: Path): Slot {
    match survivor
    case Ram(n) => Ram(RMerge(edge, n))
    case Disk(_, _, rec) => PlaceLeaf(cr, pol, Rec(prefix, PrependPath(rec.node, edge)))
    case Mem(_, rec) => PlaceLeaf(cr, pol, Rec(prefix, PrependPath(rec.node, edge)))
    case Promoted(path, _, _, _, _) => survivor.(path := edge + path)
    case Free => Free
  }

  ghost function RamDelete(cr: Crypto, pol: Policy, f: RamNode, prefix: Path, key: Path, op: DeleteOp): Result<RamDeleted>
    requires DeleteOpOk(op) && RamOk(f, |key|)
    decreases f
  {
    match f
    case REmpty => Ok(RAbsent)
    case RExt(path, child, _) =>
      if !(path <= key) then Ok(RAbsent)
      else
        var r := RamDelete(cr, pol, child, prefix + path, key[|path|..], op);
        if r.Err? then Err
        else (match r.value
              case RAbsent => Ok(RAbsent)
              case RRemoved => Ok(RRemoved)
              case RCollapsed(edge, survivor) => Ok(RCollapsed(path + edge, survivor))
              case RChanged(now) => Ok(RChanged(RMerge(path, now))))
    case RBranch(slots, _) =>
      var r := SlotDelete(cr, pol, slots[key[0]], prefix + [key[0]], key[1..], op);
      if r.Err? then Err
      else (match r.value
            case Absent => Ok(RAbsent)
            case Changed(s) => Ok(RChanged(RBranch(slots[key[0] := s], None)))
            case Removed => Ok(RCollapse(slots[key[0] := Free])))
  }

  ghost function SlotDelete(cr: Crypto, pol: Policy, s: Slot, prefix: Path, key: Path, op: DeleteOp): Result<Deleted<Slot>>
    requires DeleteOpOk(op) && SlotOk(s, |key|)
    decreases s
  {
    match s
    case Free => Ok(Absent)
    case Ram(n) =>
      var r := RamDelete(cr, pol, n, prefix, key, op);
      if r.Err? then Err
      else (match r.value
            case RAbsent => Ok(Absent)
            case RChanged(now) => Ok(Changed(Ram(now)))
            case RRemoved => Ok(Removed)
            case RCollapsed(edge, survivor) => Ok(Changed(Rehome(cr, pol, survivor, edge, prefix))))
    case Disk(_, _, rec) => RecDelete(cr, pol, rec, key, op)
    case Mem(_, rec) => RecDelete(cr, pol, rec, key, op)
    case Promoted(path, nonce, balance, codeHash, storage) =>
      if key != path then Ok(Absent)
      else
        match op {
          case DeleteValue => Err
          case DeleteAccount => Ok(Removed)
          case WipeStorage =>
            Ok(Changed(PlaceLeaf(cr, pol, Rec(prefix, Leaf(path, Account(nonce, balance, codeHash, Empty))))))
          case DeleteSlot(slot) =>
            SlotDeleted(cr, pol, s, prefix, RamDelete(cr, pol, storage, prefix + path, slot, DeleteValue))
        }
  }

  /** The promoted account after a delete in its storage. */
  function SlotDeleted(cr: Crypto, pol: Policy, s: Slot, prefix: Path, r: Result<RamDeleted>): Result<Deleted<Slot>>
    requires s.Promoted?
  {
    if r.Err? then Err
    else (match r.value
          case RAbsent => Ok(Absent)
          case RChanged(now) => Ok(Changed(s.(storage := now)))
          case RRemoved => Ok(Changed(Demote(cr, pol, s, prefix, Empty)))
          case RCollapsed(edge, survivor) =>
            if survivor.Disk? || survivor.Mem?
            then Ok(Changed(Demote(cr, pol, s, prefix, PrependPath(survivor.rec.node, edge))))
            else Err)
  }

  /** Inline what is left of a promoted account's storage. */
  function Demote(cr: Crypto, pol: Policy, s: Slot, prefix: Path, storage: Node): Slot
    requires s.Promoted?
  {
    Settle(cr, pol, pol.promote, Rec(prefix, Leaf(s.path, Account(s.nonce, s.balance, s.codeHash, storage))))
  }

  ghost function RecDelete(cr: Crypto, pol: Policy, rec: Rec, key: Path, op: DeleteOp): Result<Deleted<Slot>>
    requires DeleteOpOk(op) && Canonical(rec.node, |key|)
  {
    var r := Delete(rec.node, key, op);
    if r.Err? then Err
    else (match r.value
          case Absent => Ok(Absent)
          case Changed(n) => Ok(Changed(PlaceLeaf(cr, pol, Rec(rec.prefix, n))))
          case Removed => Ok(Removed))
  }

  /** The whole frontier after what a walk reported at the root. */
  function RootAfter(cr: Crypto, pol: Policy, f: RamNode, r: Result<RamDeleted>): Result<RamNode> {
    if r.Err? then Err
    else (match r.value
          case RAbsent => Ok(f)
          case RChanged(now) => Ok(now)
          case RRemoved => Ok(REmpty)
          case RCollapsed(edge, survivor) =>
            if (survivor.Disk? || survivor.Mem?) && HasTopBranch(PrependPath(survivor.rec.node, edge))
            then Ok(Promote(cr, pol, Rec([], PrependPath(survivor.rec.node, edge))))
            else Err)
  }

  // ------------------------------------------------------- finding and installing

  /** The pointer a stored nibble path leads to; a promoted account continues into its
      storage after the account's own nibbles. */
  function FindPtr(f: RamNode, q: Path): Option<DiskPtr>
    decreases f
  {
    match f
    case REmpty => None
    case RExt(path, child, _) => if path <= q then FindPtr(child, q[|path|..]) else None
    case RBranch(slots, _) => if q == [] || |slots| != 16 then None else FindInSlot(slots[q[0]], q[1..])
  }

  function FindInSlot(s: Slot, q: Path): Option<DiskPtr>
    decreases s
  {
    match s
    case Free => None
    case Mem(_, _) => None
    case Disk(ptr, _, _) => Some(ptr)
    case Ram(n) => FindPtr(n, q)
    case Promoted(path, _, _, _, storage) => if path <= q then FindPtr(storage, q[|path|..]) else None
  }

  /** Retarget the pointer a path leads to; hashes and contents stay. */
  function InstallPtr(f: RamNode, q: Path, ptr: DiskPtr): Option<RamNode>
    decreases f
  {
    match f
    case REmpty => None
    case RExt(path, child, memo) =>
      if path <= q then
        (match InstallPtr(child, q[|path|..], ptr) case None => None case Some(c) => Some(RExt(path, c, memo)))
      else None
    case RBranch(slots, memo) =>
      if q == [] || |slots| != 16 then None
      else
        (match InstallInSlot(slots[q[0]], q[1..], ptr)
         case None => None
         case Some(s) => Some(RBranch(slots[q[0] := s], memo)))
  }

  function InstallInSlot(s: Slot, q: Path, ptr: DiskPtr): Option<Slot>
    decreases s
  {
    match s
    case Free => None
    case Mem(_, _) => None
    case Disk(_, root, rec) => Some(Disk(ptr, root, rec))
    case Ram(n) => (match InstallPtr(n, q, ptr) case None => None case Some(m) => Some(Ram(m)))
    case Promoted(path, _, _, _, storage) =>
      if path <= q then
        (match InstallPtr(storage, q[|path|..], ptr) case None => None case Some(m) => Some(s.(storage := m)))
      else None
  }

  // ---------------------------------------------------------------------- hashes

  /** The hash recomputed bottom-up from the slots, ignoring every memo. */
  function RamHash(cr: Crypto, f: RamNode): Bytes
    decreases f, 1
  {
    match f
    case REmpty => cr.keccak(cr.rlpString([]))
    case RExt(path, child, _) => Finalize(cr, MkRef(cr, ExtensionRlp(cr, path, Embed(cr, Hash(RamHash(cr, child))))))
    case RBranch(slots, _) => Finalize(cr, MkRef(cr, cr.rlpList(SlotHashes(cr, slots) + [cr.rlpString([])])))
  }

  function SlotHashes(cr: Crypto, slots: seq<Slot>): (r: seq<Bytes>)
    ensures |r| == |slots|
    ensures forall i :: 0 <= i < |slots| ==>
      r[i] == if slots[i] == Free then cr.rlpString([]) else Embed(cr, Hash(SlotHash(cr, slots[i])))
    decreases slots
  {
    if slots == [] then []
    else [if slots[0] == Free then cr.rlpString([]) else Embed(cr, Hash(SlotHash(cr, slots[0])))] + SlotHashes(cr, slots[1..])
  }

  function SlotHash(cr: Crypto, s: Slot): Bytes
    decreases s, 1
  {
    match s
    case Free => []
    case Ram(n) => RamHash(cr, n)
    case Disk(_, root, _) => root
    case Mem(root, _) => root
    case Promoted(path, nonce, balance, codeHash, storage) =>
      Finalize(cr, MkRef(cr, LeafRlp(cr, path, cr.accountRlp(nonce, balance, RamHash(cr, storage), codeHash))))
  }

  /** Every memoised hash is the recomputed one, every cached record root the record's. */
  ghost predicate MemoOk(cr: Crypto, f: RamNode)
    decreases f
  {
    && (f.RExt? ==> MemoOk(cr, f.child) && (f.memo.Some? ==> f.memo.value == RamHash(cr, f)))
    && (f.RBranch? ==>
      (forall i :: 0 <= i < |f.slots| ==> SlotMemoOk(cr, f.slots[i])) && (f.memo.Some? ==> f.memo.value == RamHash(cr, f)))
  }

  ghost predicate SlotMemoOk(cr: Crypto, s: Slot)
    decreases s
  {
    && (s.Ram? ==> MemoOk(cr, s.node))
    && (s.Disk? || s.Mem? ==> s.root == Root(cr, s.rec.node))
    && (s.Promoted? ==> MemoOk(cr, s.storage))
  }

  // -------------------------------------------------------------------- prefixes

  /** Every record stores its own full frontier path; storage records carry their
      account's nibbles in front. */
  ghost predicate PrefixOk(f: RamNode, prefix: Path)
    decreases f
  {
    && (f.RExt? ==> PrefixOk(f.child, prefix + f.path))
    && (f.RBranch? ==> |f.slots| <= 16 && forall i: Nibble :: i < |f.slots| ==> SlotPrefixOk(f.slots[i], prefix + [i]))
  }

  ghost predicate SlotPrefixOk(s: Slot, prefix: Path)
    decreases s
  {
    && (s.Ram? ==> PrefixOk(s.node, prefix))
    && (s.Disk? || s.Mem? ==> s.rec.prefix == prefix)
    && (s.Promoted? ==> PrefixOk(s.storage, prefix + s.path))
  }
}

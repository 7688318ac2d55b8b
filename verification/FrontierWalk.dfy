/** The frontier walks as the source runs them: each step works on the whole key and
    computes its depth from the length of the prefix it walked.  Storage walks start from
    the account's 64 nibbles, so a walked prefix of exactly 64 nibbles is taken for the root
    of a storage trie.  An account-space slot at 64 nibbles is therefore misread; the walks
    do what `RamInsert` and `RamDelete` say exactly when they meet no such slot.
 */
module FrontierWalk {
  import opened Trie
  import opened TrieLaws
  import opened TrieHistory
  import opened TrieRoot
  import opened Frontier
  import opened FrontierFlatten
  import opened FrontierInvariants

  /** Depth of a walked prefix: exactly 64 nibbles is a storage root. */
  function WalkDepth(prefix: Path): nat {
    if |prefix| >= KEY_NIBBLES then |prefix| - KEY_NIBBLES else |prefix|
  }

  /** Depth of a stored prefix: 64 nibbles is still an account. */
  function LocalDepth(prefix: Path): nat {
    if |prefix| > KEY_NIBBLES then |prefix| - KEY_NIBBLES else |prefix|
  }

  function From(key: Path, d: nat): Path {
    if d <= |key| then key[d..] else []
  }

  // ---------------------------------------------------------------------- insert

  ghost function WalkNew(cr: Crypto, pol: Policy, prefix: Path, key: Path, op: LeafOp): Result<Slot>
    requires OpOk(op)
  {
    NewSlot(cr, pol, prefix, From(key, WalkDepth(prefix)), op)
  }

  ghost function WalkInsert(cr: Crypto, pol: Policy, f: RamNode, prefix: Path, key: Path, op: LeafOp): Result<RamNode>
    requires OpOk(op)
    decreases f
  {
    var rest := From(key, WalkDepth(prefix));
    match f
    case REmpty =>
      if rest == [] then Err
      else
        var r := WalkNew(cr, pol, prefix + [rest[0]], key, op);
        if r.Ok? then Ok(RBranch(NO_SLOTS[rest[0] := r.value], None)) else Err
    case RExt(path, child, _) =>
      var c := CommonPrefix(path, rest);
      if c < |path| then
        if c == |rest| then Err
        else
          var r := WalkNew(cr, pol, prefix + path[..c] + [rest[c]], key, op);
          if r.Err? then Err
          else Ok(RFork(path[..c], path[c], Ram(RExtOver(path[c + 1..], child)), rest[c], r.value))
      else
        var r := WalkInsert(cr, pol, child, prefix + path, key, op);
        if r.Ok? then Ok(RExt(path, r.value, None)) else Err
    case RBranch(slots, _) =>
      if rest == [] || |slots| != 16 then Err
      else
        var r := WalkSlotInsert(cr, pol, slots[rest[0]], prefix + [rest[0]], key, op);
        if r.Ok? then Ok(RBranch(slots[rest[0] := r.value], None)) else Err
  }

  ghost function WalkSlotInsert(cr: Crypto, pol: Policy, s: Slot, prefix: Path, key: Path, op: LeafOp): Result<Slot>
    requires OpOk(op)
    decreases s
  {
    match s
    case Free => WalkNew(cr, pol, prefix, key, op)
    case Ram(n) =>
      var r := WalkInsert(cr, pol, n, prefix, key, op);
      if r.Ok? then Ok(Ram(r.value)) else Err
    case Disk(_, _, rec) => WalkRecInsert(cr, pol, rec, key, op)
    case Mem(_, rec) => WalkRecInsert(cr, pol, rec, key, op)
    case Promoted(path, nonce, balance, codeHash, storage) =>
      var rest := From(key, WalkDepth(prefix));
      var c := CommonPrefix(path, rest);
      if c == |path| then
        match op {
          case SetSlot(slot, v) =>
            var r := WalkInsert(cr, pol, storage, key, slot, SetValue(v));
            if r.Ok? then Ok(Promoted(path, nonce, balance, codeHash, r.value)) else Err
          case SetAccount(n, b, h) => Ok(Promoted(path, n, b, h, storage))
          case SetValue(_) => Err
        }
      else if c == |rest| then Err
      else
        var r := WalkNew(cr, pol, prefix + rest[..c + 1], key, op);
        if r.Err? then Err
        else Ok(Ram(RFork(path[..c], path[c], s.(path := path[c + 1..]), rest[c], r.value)))
  }

  ghost function WalkRecInsert(cr: Crypto, pol: Policy, rec: Rec, key: Path, op: LeafOp): Result<Slot>
    requires OpOk(op)
  {
    var rest := From(key, LocalDepth(rec.prefix));
    if Canonical(rec.node, |rest|) then RecInsert(cr, pol, rec, rest, op) else Err
  }

  /** The insert would place a new leaf in an account-space slot at 64 nibbles: a free slot
      there, or the split of a promoted account at its last nibble. */
  ghost predicate InsertSlips(f: RamNode, key: Path)
    decreases f
  {
    || (f.RExt? && f.path <= key && InsertSlips(f.child, key[|f.path|..]))
    || (f.RBranch? && key != [] && |f.slots| == 16 && SlotInsertSlips(f.slots[key[0]], key[1..]))
  }

  ghost predicate SlotInsertSlips(s: Slot, key: Path)
    decreases s
  {
    || (s.Free? && key == [])
    || (s.Ram? && InsertSlips(s.node, key))
    || (s.Promoted? && CommonPrefix(s.path, key) + 1 == |s.path|)
  }

  // ---------------------------------------------------------------------- delete

  ghost function WalkDelete(cr: Crypto, pol: Policy, f: RamNode, prefix: Path, key: Path, op: DeleteOp): Result<RamDeleted>
    requires DeleteOpOk(op)
    decreases f
  {
    var rest := From(key, WalkDepth(prefix));
    match f
    case REmpty => Ok(RAbsent)
    case RExt(path, child, _) =>
      if !(path <= rest) then Ok(RAbsent)
      else
        var r := WalkDelete(cr, pol, child, prefix + path, key, op);
        if r.Err? then Err
        else (match r.value
              case RAbsent => Ok(RAbsent)
              case RRemoved => Ok(RRemoved)
              case RCollapsed(edge, survivor) => Ok(RCollapsed(path + edge, survivor))
              case RChanged(now) => Ok(RChanged(RMerge(path, now))))
    case RBranch(slots, _) =>
      if rest == [] || |slots| != 16 then Err
      else
        var r := WalkSlotDelete(cr, pol, slots[rest[0]], prefix + [rest[0]], key, op);
        if r.Err? then Err
        else (match r.value
              case Absent => Ok(RAbsent)
              case Changed(s) => Ok(RChanged(RBranch(slots[rest[0] := s], None)))
              case Removed => Ok(RCollapse(slots[rest[0] := Free])))
  }

  ghost function WalkSlotDelete(cr: Crypto, pol: Policy, s: Slot, prefix: Path, key: Path, op: DeleteOp): Result<Deleted<Slot>>
    requires DeleteOpOk(op)
    decreases s
  {
    match s
    case Free => Ok(Absent)
    case Ram(n) =>
      var r := WalkDelete(cr, pol, n, prefix, key, op);
      if r.Err? then Err
      else (match r.value
            case RAbsent => Ok(Absent)
            case RChanged(now) => Ok(Changed(Ram(now)))
            case RRemoved => Ok(Removed)
            case RCollapsed(edge, survivor) => Ok(Changed(Rehome(cr, pol, survivor, edge, prefix))))
    case Disk(_, _, rec) => WalkRecDelete(cr, pol, rec, key, op)
    case Mem(_, rec) => WalkRecDelete(cr, pol, rec, key, op)
    case Promoted(path, nonce, balance, codeHash, storage) =>
      if From(key, WalkDepth(prefix)) != path then Ok(Absent)
      else
        match op {
          case DeleteValue => Err
          case DeleteAccount => Ok(Removed)
          case WipeStorage =>
            Ok(Changed(PlaceLeaf(cr, pol, Rec(prefix, Leaf(path, Account(nonce, balance, codeHash, Empty))))))
          case DeleteSlot(slot) =>
            SlotDeleted(cr, pol, s, prefix, WalkDelete(cr, pol, storage, key, slot, DeleteValue))
        }
  }

  ghost function WalkRecDelete(cr: Crypto, pol: Policy, rec: Rec, key: Path, op: DeleteOp): Result<Deleted<Slot>>
    requires DeleteOpOk(op)
  {
    var rest := From(key, LocalDepth(rec.prefix));
    if Canonical(rec.node, |rest|) then RecDelete(cr, pol, rec, rest, op) else Err
  }

  /** The delete reaches a promoted account in a slot at 64 nibbles and has something to do
      there. */
  ghost predicate DeleteSlips(f: RamNode, key: Path, op: DeleteOp)
    decreases f
  {
    || (f.RExt? && f.path <= key && DeleteSlips(f.child, key[|f.path|..], op))
    || (f.RBranch? && key != [] && |f.slots| == 16 && SlotDeleteSlips(f.slots[key[0]], key[1..], op))
  }

  ghost predicate SlotDeleteSlips(s: Slot, key: Path, op: DeleteOp)
    decreases s
  {
    || (s.Ram? && DeleteSlips(s.node, key, op))
    || (s.Promoted? && key == [] && (op.DeleteSlot? ==> Get(Flatten(s.storage), op.slot).Some?))
  }

  // ------------------------------------------------------------------- positions

  /** The prefix is `base` nibbles of account, then the walked part of the key. */
  ghost predicate Walked(base: nat, prefix: Path, key: Path) {
    && (base == 0 || base == KEY_NIBBLES) && |key| == KEY_NIBBLES
    && base <= |prefix| <= base + KEY_NIBBLES && prefix[base..] == key[..|prefix| - base]
  }

  lemma WalkedOn(base: nat, prefix: Path, key: Path, more: Path)
    requires Walked(base, prefix, key) && more <= key[|prefix| - base..]
    ensures Walked(base, prefix + more, key)
    ensures key[|prefix + more| - base..] == key[|prefix| - base..][|more|..]
  {
    var d := |prefix| - base;
    assert (prefix + more)[base..] == prefix[base..] + more;
    assert key[..d + |more|] == key[..d] + key[d..][..|more|];
  }

  /** The two depth rules are right for every storage prefix, and for every account prefix
      below 64 nibbles; at 64 only the stored one is. */
  lemma DepthsAreRight(base: nat, prefix: Path, key: Path)
    requires Walked(base, prefix, key)
    ensures |prefix| < base + KEY_NIBBLES || base == KEY_NIBBLES ==> WalkDepth(prefix) == |prefix| - base
    ensures base == 0 || |prefix| > base ==> LocalDepth(prefix) == |prefix| - base
    ensures base == 0 && |prefix| == KEY_NIBBLES ==> WalkDepth(prefix) == 0
  {
  }

  // -------------------------------------------------------------- plain frontiers

  /** Storage frontiers hold no promoted accounts. */
  ghost predicate Plain(f: RamNode, inStorage: bool)
    decreases f
  {
    && (f.RExt? ==> Plain(f.child, inStorage))
    && (f.RBranch? ==> forall i :: 0 <= i < |f.slots| ==> SlotPlain(f.slots[i], inStorage))
  }

  ghost predicate SlotPlain(s: Slot, inStorage: bool)
    decreases s
  {
    && (s.Ram? ==> Plain(s.node, inStorage))
    && (s.Promoted? ==> !inStorage && Plain(s.storage, true) && ValuesOnly(Flatten(s.storage)))
  }

  /** What the flattened trie may hold: plain values in storage, plain storages elsewhere. */
  ghost predicate FlatPlain(n: Node, len: nat, inStorage: bool) {
    forall k: Path :: |k| == len && Get(n, k).Some? ==>
      if inStorage then Get(n, k).value.Value? else Get(n, k).value.Account? ==> ValuesOnly(Get(n, k).value.storage)
  }

  lemma FlatUnderExt(path: Path, child: Node, len: nat, inStorage: bool)
    requires FlatPlain(Extension(path, child), len, inStorage) && |path| <= len
    ensures FlatPlain(child, len - |path|, inStorage)
  {
    forall k: Path | |k| == len - |path| ensures Get(Extension(path, child), path + k) == Get(child, k) {
      assert path <= path + k && (path + k)[|path|..] == k;
    }
  }

  lemma FlatUnderBranch(children: seq<Node>, len: nat, i: Nibble, inStorage: bool)
    requires FlatPlain(Branch(children), len, inStorage) && 0 < len && |children| == 16
    ensures FlatPlain(children[i], len - 1, inStorage)
  {
    forall k: Path | |k| == len - 1 ensures Get(Branch(children), [i] + k) == Get(children[i], k) {
      assert ([i] + k)[1..] == k;
    }
  }

  lemma {:induction false} PlainFromFlat(f: RamNode, len: nat, inStorage: bool)
    requires RamOk(f, len) && FlatPlain(Flatten(f), len, inStorage)
    ensures Plain(f, inStorage)
    decreases f
  {
    hide FlatPlain;
    match f
    case REmpty =>
    case RExt(path, child, _) =>
      FlatUnderExt(path, Flatten(child), len, inStorage);
      PlainFromFlat(child, len - |path|, inStorage);
    case RBranch(slots, _) =>
      forall i | 0 <= i < 16 ensures SlotPlain(slots[i], inStorage) {
        FlatUnderBranch(FlattenSlots(slots), len, i, inStorage);
        SlotPlainFromFlat(slots[i], len - 1, inStorage);
      }
  }

  lemma {:induction false} SlotPlainFromFlat(s: Slot, len: nat, inStorage: bool)
    requires SlotOk(s, len) && FlatPlain(FlattenSlot(s), len, inStorage)
    ensures SlotPlain(s, inStorage)
    decreases s
  {
    match s
    case Ram(n) => PlainFromFlat(n, len, inStorage);
    case Promoted(path, nonce, balance, codeHash, storage) =>
      assert Get(FlattenSlot(s), path) == Some(Account(nonce, balance, codeHash, Flatten(storage)));
      PlainFromFlat(storage, KEY_NIBBLES, true);
    case _ =>
  }

  // -------------------------------------------------------------- inserts compared

  lemma NewIsOk(cr: Crypto, pol: Policy, prefix: Path, key: Path, op: LeafOp, len: nat)
    requires OpOk(op)
    ensures var r := NewSlot(cr, pol, prefix, key, op);
      && r.Ok? && r.value != Free && (SlotOk(r.value, len) ==> len == |key|)
      && forall k: Path :: |k| != |key| ==> Get(FlattenSlot(r.value), k).None?
  {
    EmptyCanonical(KEY_NIBBLES);
    if op.SetSlot? {
      assert Insert(Empty, op.slot, SetValue(op.bytes)) == PlaceNew(op.slot, SetValue(op.bytes));
      assert PlaceNew(op.slot, SetValue(op.bytes)).Ok?;
    }
    assert Resolve(None, op).Ok?;
  }

  lemma ForkSlotOk(path: Path, i: Nibble, x: Slot, j: Nibble, y: Slot, len: nat)
    requires i != j && RamOk(RFork(path, i, x, j, y), len)
    ensures |path| < len && SlotOk(y, len - |path| - 1)
  {
    var slots := NO_SLOTS[i := x][j := y];
    assert slots[j] == y;
    if path != [] {
      assert RamOk(RBranch(slots, None), len - |path|);
    }
  }

  /** The walk does what it should, or it slips: then it reports success, what it leaves is
      no trie any more, and the key just inserted is not found in it. */
  ghost predicate WalksAs(w: Result<RamNode>, r: Result<RamNode>, slips: bool, rest: Path) {
    (!slips ==> w == r) && (slips ==> w.Ok? && !RamOk(w.value, |rest|) && Get(Flatten(w.value), rest).None?)
  }

  ghost predicate SlotWalksAs(w: Result<Slot>, r: Result<Slot>, slips: bool, rest: Path) {
    (!slips ==> w == r) && (slips ==> w.Ok? && w.value != Free && !SlotOk(w.value, |rest|) && Get(FlattenSlot(w.value), rest).None?)
  }

  lemma PrefixIsCommon(path: Path, key: Path)
    ensures path <= key <==> CommonPrefix(path, key) == |path|
  {
    var c := CommonPrefix(path, key);
    if c == |path| {
      assert path[..c] == path;
    }
  }

  /** The source's insert walk is `RamInsert` exactly when it does not slip; a slip leaves a
      frontier that is no trie any more. */
  lemma {:induction false} InsertWalks(base: nat, cr: Crypto, pol: Policy, f: RamNode, prefix: Path, key: Path, op: LeafOp)
    requires OpOk(op) && Walked(base, prefix, key) && |prefix| < base + KEY_NIBBLES && f != REmpty
    requires RamOk(f, base + KEY_NIBBLES - |prefix|) && PrefixOk(f, prefix) && Plain(f, base == KEY_NIBBLES)
    ensures var rest := key[|prefix| - base..];
      WalksAs(WalkInsert(cr, pol, f, prefix, key, op), RamInsert(cr, pol, f, prefix, rest, op), base == 0 && InsertSlips(f, rest), rest)
    decreases f
  {
    hide RamOk, PrefixOk, Plain, WalkInsert, RamInsert, InsertSlips, CommonPrefix, SlotOk, SlotInsert, WalkSlotInsert, SlotInsertSlips, SlotPrefixOk,
      SlotPlain, SlotWalksAs;
    var rest := key[|prefix| - base..];
    Parts(f, prefix, |rest|, base == KEY_NIBBLES);
    match f
    case RExt(path, child, _) =>
      PrefixIsCommon(path, rest);
      if CommonPrefix(path, rest) < |path| {
        ExtSplitWalks(base, cr, pol, f, prefix, key, op);
      } else {
        WalkedOn(base, prefix, key, path);
        InsertWalks(base, cr, pol, child, prefix + path, key, op);
        DepthsAreRight(base, prefix, key);
        ExtOnWalks(cr, pol, f, prefix, key, rest, op, base == 0);
      }
    case RBranch(slots, _) =>
      WalkedOn(base, prefix, key, [rest[0]]);
      assert rest[..1] == [rest[0]];
      SlotInsertWalks(base, cr, pol, slots[rest[0]], prefix + [rest[0]], key, op);
      DepthsAreRight(base, prefix, key);
      BranchWalks(cr, pol, f, prefix, key, rest, op, base == 0);
  }

  lemma Parts(f: RamNode, prefix: Path, len: nat, inStorage: bool)
    requires RamOk(f, len) && PrefixOk(f, prefix) && Plain(f, inStorage)
    ensures f.RExt? ==> 0 < |f.path| < len && f.child.RBranch? && RamOk(f.child, len - |f.path|) && PrefixOk(f.child, prefix + f.path) && Plain(f.child, inStorage)
    ensures f.RBranch? ==> 0 < len && |f.slots| == 16
    ensures f.RBranch? ==> forall i: Nibble :: SlotOk(f.slots[i], len - 1) && SlotPrefixOk(f.slots[i], prefix + [i]) && SlotPlain(f.slots[i], inStorage)
  {
  }

  lemma ExtSplitWalks(base: nat, cr: Crypto, pol: Policy, f: RamNode, prefix: Path, key: Path, op: LeafOp)
    requires OpOk(op) && Walked(base, prefix, key) && |prefix| < base + KEY_NIBBLES && f.RExt? && RamOk(f, base + KEY_NIBBLES - |prefix|)
    requires CommonPrefix(f.path, key[|prefix| - base..]) < |f.path|
    ensures var rest := key[|prefix| - base..];
      WalkInsert(cr, pol, f, prefix, key, op) == RamInsert(cr, pol, f, prefix, rest, op) && !InsertSlips(f, rest)
  {
    hide CommonPrefix, NewSlot, RamOk, WalkDepth, WalkInsert, RamInsert, WalkNew, InsertSlips, SplitExt;
    var rest := key[|prefix| - base..];
    var c := CommonPrefix(f.path, rest);
    ExtPath(f, |rest|);
    DepthsAreRight(base, prefix, key);
    WalkSplits(cr, pol, f, prefix, key, rest, op);
    RamSplits(cr, pol, f, prefix, rest, op);
    SplitPrefixIs(prefix, f.path, rest, c);
    NewDepth(base, prefix, key, c);
    NewIs(cr, pol, prefix + rest[..c + 1], key, op);
  }

  lemma SplitPrefixIs(prefix: Path, path: Path, rest: Path, c: nat)
    requires c < |rest| && c <= |path| && path[..c] == rest[..c]
    ensures prefix + path[..c] + [rest[c]] == prefix + rest[..c + 1]
  {
  }

  lemma ExtPath(f: RamNode, len: nat)
    requires f.RExt? && RamOk(f, len)
    ensures |f.path| < len
  {
  }

  lemma NewIs(cr: Crypto, pol: Policy, prefix: Path, key: Path, op: LeafOp)
    requires OpOk(op)
    ensures WalkNew(cr, pol, prefix, key, op) == NewSlot(cr, pol, prefix, From(key, WalkDepth(prefix)), op)
  {
  }

  function SplitExt(f: RamNode, c: nat, j: Nibble, r: Result<Slot>): Result<RamNode>
    requires f.RExt? && c < |f.path|
  {
    if r.Err? then Err else Ok(RFork(f.path[..c], f.path[c], Ram(RExtOver(f.path[c + 1..], f.child)), j, r.value))
  }

  lemma WalkSplits(cr: Crypto, pol: Policy, f: RamNode, prefix: Path, key: Path, rest: Path, op: LeafOp)
    requires OpOk(op) && f.RExt? && rest == From(key, WalkDepth(prefix)) && |f.path| < |rest| && CommonPrefix(f.path, rest) < |f.path|
    ensures var c := CommonPrefix(f.path, rest);
      WalkInsert(cr, pol, f, prefix, key, op) == SplitExt(f, c, rest[c], WalkNew(cr, pol, prefix + f.path[..c] + [rest[c]], key, op))
    ensures !InsertSlips(f, rest)
  {
    hide CommonPrefix, WalkNew, RFork, RExtOver;
    PrefixIsCommon(f.path, rest);
  }

  lemma RamSplits(cr: Crypto, pol: Policy, f: RamNode, prefix: Path, rest: Path, op: LeafOp)
    requires OpOk(op) && f.RExt? && RamOk(f, |rest|) && CommonPrefix(f.path, rest) < |f.path| < |rest|
    ensures var c := CommonPrefix(f.path, rest);
      RamInsert(cr, pol, f, prefix, rest, op) == SplitExt(f, c, rest[c], NewSlot(cr, pol, prefix + f.path[..c] + [rest[c]], rest[c + 1..], op))
  {
    hide CommonPrefix, NewSlot, RFork, RExtOver;
  }

  /** A leaf placed `c + 1` nibbles further down gets the rest of the key, unless the slot
      is an account slot at 64 nibbles. */
  lemma NewDepth(base: nat, prefix: Path, key: Path, c: nat)
    requires Walked(base, prefix, key) && |prefix| + c < base + KEY_NIBBLES
    requires base == KEY_NIBBLES || |prefix| + c + 1 < KEY_NIBBLES
    ensures var rest := key[|prefix| - base..]; From(key, WalkDepth(prefix + rest[..c + 1])) == rest[c + 1..]
  {
    var rest := key[|prefix| - base..];
    WalkedOn(base, prefix, key, rest[..c + 1]);
    DepthsAreRight(base, prefix + rest[..c + 1], key);
  }

  lemma ExtOnWalks(cr: Crypto, pol: Policy, f: RamNode, prefix: Path, key: Path, rest: Path, op: LeafOp, account: bool)
    requires OpOk(op) && f.RExt? && RamOk(f, |rest|) && rest == From(key, WalkDepth(prefix)) && f.path <= rest
    requires WalksAs(WalkInsert(cr, pol, f.child, prefix + f.path, key, op), RamInsert(cr, pol, f.child, prefix + f.path, rest[|f.path|..], op),
                     account && InsertSlips(f.child, rest[|f.path|..]), rest[|f.path|..])
    ensures WalksAs(WalkInsert(cr, pol, f, prefix, key, op), RamInsert(cr, pol, f, prefix, rest, op), account && InsertSlips(f, rest), rest)
  {
    hide CommonPrefix, NewSlot, RFork, SlotOk, SlotInsert, WalkSlotInsert, SlotInsertSlips, LiveRam;
    PrefixIsCommon(f.path, rest);
  }

  lemma BranchWalks(cr: Crypto, pol: Policy, f: RamNode, prefix: Path, key: Path, rest: Path, op: LeafOp, account: bool)
    requires OpOk(op) && f.RBranch? && RamOk(f, |rest|) && rest == From(key, WalkDepth(prefix))
    requires SlotWalksAs(WalkSlotInsert(cr, pol, f.slots[rest[0]], prefix + [rest[0]], key, op), SlotInsert(cr, pol, f.slots[rest[0]], prefix + [rest[0]], rest[1..], op),
                         account && SlotInsertSlips(f.slots[rest[0]], rest[1..]), rest[1..])
    ensures WalksAs(WalkInsert(cr, pol, f, prefix, key, op), RamInsert(cr, pol, f, prefix, rest, op), account && InsertSlips(f, rest), rest)
  {
    hide SlotOk, SlotInsert, WalkSlotInsert, SlotInsertSlips, LiveRam;
    BranchWalksAs(f.slots, WalkSlotInsert(cr, pol, f.slots[rest[0]], prefix + [rest[0]], key, op),
                  SlotInsert(cr, pol, f.slots[rest[0]], prefix + [rest[0]], rest[1..], op), account && SlotInsertSlips(f.slots[rest[0]], rest[1..]), rest);
  }

  lemma BranchWalksAs(slots: seq<Slot>, w: Result<Slot>, r: Result<Slot>, slips: bool, rest: Path)
    requires |slots| == 16 && rest != [] && SlotWalksAs(w, r, slips, rest[1..])
    ensures !slips ==> w == r
    ensures slips ==> w.Ok? && !RamOk(RBranch(slots[rest[0] := w.value], None), |rest|)
    ensures slips ==> Get(Flatten(RBranch(slots[rest[0] := w.value], None)), rest).None?
  {
    hide SlotOk, RamOk, Flatten, FlattenSlot, Get;
    if slips {
      var now := slots[rest[0] := w.value];
      assert now[rest[0]] == w.value;
      BadSlot(now, rest[0], |rest|);
      GetInSlot(now, rest);
    }
  }

  lemma BadSlot(slots: seq<Slot>, i: nat, len: nat)
    requires i < |slots| == 16 && 0 < len && !SlotOk(slots[i], len - 1)
    ensures !RamOk(RBranch(slots, None), len)
  {
    hide SlotOk, LiveRam;
  }

  lemma GetInSlot(slots: seq<Slot>, rest: Path)
    requires |slots| == 16 && rest != []
    ensures Get(Flatten(RBranch(slots, None)), rest) == Get(FlattenSlot(slots[rest[0]]), rest[1..])
  {
    hide FlattenSlot, FlattenSlots;
  }

  lemma {:induction false} SlotInsertWalks(base: nat, cr: Crypto, pol: Policy, s: Slot, prefix: Path, key: Path, op: LeafOp)
    requires OpOk(op) && Walked(base, prefix, key) && base < |prefix|
    requires SlotOk(s, base + KEY_NIBBLES - |prefix|) && SlotPrefixOk(s, prefix) && SlotPlain(s, base == KEY_NIBBLES)
    ensures var rest := key[|prefix| - base..];
      SlotWalksAs(WalkSlotInsert(cr, pol, s, prefix, key, op), SlotInsert(cr, pol, s, prefix, rest, op),
                  base == 0 && SlotInsertSlips(s, rest), rest)
    decreases s
  {
    hide CommonPrefix, NewSlot, RFork, RamInsert, WalkInsert, InsertSlips, RamOk, PrefixOk, Plain, RecInsert;
    var rest := key[|prefix| - base..];
    DepthsAreRight(base, prefix, key);
    match s
    case Free => NewIsOk(cr, pol, prefix, From(key, WalkDepth(prefix)), op, |rest|);
    case Ram(n) =>
      SlotOkRam(n, |rest|);
      InsertWalks(base, cr, pol, n, prefix, key, op);
      RamSlotWalks(WalkInsert(cr, pol, n, prefix, key, op), RamInsert(cr, pol, n, prefix, rest, op), base == 0 && InsertSlips(n, rest), rest);
    case Disk(_, _, rec) =>
    case Mem(_, rec) =>
    case Promoted(path, _, _, _, storage) =>
      if CommonPrefix(path, rest) == |path| {
        PrefixIsCommon(path, rest);
        assert path == rest && prefix + path == key;
        if op.SetSlot? {
          StorageBase(key, op.slot);
          InsertWalks(KEY_NIBBLES, cr, pol, storage, key, op.slot, SetValue(op.bytes));
        }
        SameAccountWalks(cr, pol, s, prefix, key, op);
      } else {
        SplitAccountWalks(cr, pol, s, prefix, key, op);
      }
  }

  lemma RamSlotWalks(w: Result<RamNode>, r: Result<RamNode>, slips: bool, rest: Path)
    requires WalksAs(w, r, slips, rest)
    ensures !slips ==> w == r
    ensures slips ==> w.Ok? && !SlotOk(Ram(w.value), |rest|) && Get(FlattenSlot(Ram(w.value)), rest).None?
  {
  }

  /** The whole account key is the base of its storage walks. */
  lemma StorageBase(key: Path, slot: Path)
    requires |key| == |slot| == KEY_NIBBLES
    ensures Walked(KEY_NIBBLES, key, slot) && slot[|key| - KEY_NIBBLES..] == slot
  {
    assert key[KEY_NIBBLES..] == slot[..0];
  }

  lemma SameAccountWalks(cr: Crypto, pol: Policy, s: Slot, prefix: Path, key: Path, op: LeafOp)
    requires OpOk(op) && Walked(0, prefix, key) && s.Promoted? && SlotOk(s, KEY_NIBBLES - |prefix|) && s.path == key[|prefix|..]
    requires op.SetSlot? ==> WalkInsert(cr, pol, s.storage, key, op.slot, SetValue(op.bytes)) == RamInsert(cr, pol, s.storage, key, op.slot, SetValue(op.bytes))
    ensures WalkSlotInsert(cr, pol, s, prefix, key, op) == SlotInsert(cr, pol, s, prefix, key[|prefix|..], op)
    ensures !SlotInsertSlips(s, key[|prefix|..])
  {
    hide CommonPrefix, RamInsert, WalkInsert, RFork, NewSlot;
    var rest := key[|prefix|..];
    assert prefix + s.path == key;
    PrefixIsCommon(s.path, rest);
    PrefixIsCommon(s.path, From(key, WalkDepth(prefix)));
    DepthsAreRight(0, prefix, key);
    assert rest <= rest;
  }

  lemma SplitAccountWalks(cr: Crypto, pol: Policy, s: Slot, prefix: Path, key: Path, op: LeafOp)
    requires OpOk(op) && Walked(0, prefix, key) && s.Promoted? && SlotOk(s, KEY_NIBBLES - |prefix|)
    requires CommonPrefix(s.path, key[|prefix|..]) != |s.path|
    requires prefix != []
    ensures var rest := key[|prefix|..];
      SlotWalksAs(WalkSlotInsert(cr, pol, s, prefix, key, op), SlotInsert(cr, pol, s, prefix, rest, op), SlotInsertSlips(s, rest), rest)
  {
    hide CommonPrefix, NewSlot, RamOk, Flatten, FlattenSlot, WalkDepth, WalkSlotInsert, SlotInsert, WalkNew, SplitAccount, Get;
    var rest := key[|prefix|..];
    var c := CommonPrefix(s.path, rest);
    var np := prefix + rest[..c + 1];
    DepthsAreRight(0, prefix, key);
    WalkSplitsAccount(cr, pol, s, prefix, key, rest, op);
    RamSplitsAccount(cr, pol, s, prefix, rest, op);
    NewIs(cr, pol, np, key, op);
    if c + 1 < |s.path| {
      NewDepth(0, prefix, key, c);
    } else {
      WalkedOn(0, prefix, key, rest[..c + 1]);
      DepthsAreRight(0, np, key);
      NewIsOk(cr, pol, np, key, op, 0);
      SplitMisses(s, c, rest, WalkNew(cr, pol, np, key, op));
    }
  }

  function SplitAccount(s: Slot, c: nat, j: Nibble, r: Result<Slot>): Result<Slot>
    requires s.Promoted? && c < |s.path|
  {
    if r.Err? then Err else Ok(Ram(RFork(s.path[..c], s.path[c], s.(path := s.path[c + 1..]), j, r.value)))
  }

  lemma WalkSplitsAccount(cr: Crypto, pol: Policy, s: Slot, prefix: Path, key: Path, rest: Path, op: LeafOp)
    requires OpOk(op) && s.Promoted? && rest == From(key, WalkDepth(prefix)) && |s.path| == |rest| && CommonPrefix(s.path, rest) < |s.path|
    ensures var c := CommonPrefix(s.path, rest);
      && WalkSlotInsert(cr, pol, s, prefix, key, op) == SplitAccount(s, c, rest[c], WalkNew(cr, pol, prefix + rest[..c + 1], key, op))
      && (SlotInsertSlips(s, rest) <==> c + 1 == |s.path|)
  {
    hide CommonPrefix, WalkNew, RFork;
  }

  lemma RamSplitsAccount(cr: Crypto, pol: Policy, s: Slot, prefix: Path, rest: Path, op: LeafOp)
    requires OpOk(op) && s.Promoted? && SlotOk(s, |rest|) && CommonPrefix(s.path, rest) < |s.path| == |rest|
    ensures var c := CommonPrefix(s.path, rest);
      SlotInsert(cr, pol, s, prefix, rest, op) == SplitAccount(s, c, rest[c], NewSlot(cr, pol, prefix + rest[..c + 1], rest[c + 1..], op))
  {
    hide CommonPrefix, NewSlot, RFork;
  }

  lemma SplitMisses(s: Slot, c: nat, rest: Path, r: Result<Slot>)
    requires s.Promoted? && c == CommonPrefix(s.path, rest) && c + 1 == |s.path| == |rest| && r.Ok? && !SlotOk(r.value, 0) && Get(FlattenSlot(r.value), []).None?
    ensures var w := SplitAccount(s, c, rest[c], r); w.Ok? && w.value != Free && !SlotOk(w.value, |rest|) && Get(FlattenSlot(w.value), rest).None?
  {
    hide CommonPrefix, SlotOk, FlattenSlot, Get;
    MissingFork(s.path[..c], s.path[c], s.(path := s.path[c + 1..]), r.value, rest);
  }

  /** A fork whose new side holds nothing at the key's end. */
  lemma MissingFork(path: Path, i: Nibble, x: Slot, y: Slot, rest: Path)
    requires |rest| == |path| + 1 && path <= rest && i != rest[|path|] && !SlotOk(y, 0) && Get(FlattenSlot(y), []).None?
    ensures var f := RFork(path, i, x, rest[|path|], y);
      !RamOk(f, |rest|) && !SlotOk(Ram(f), |rest|) && Get(FlattenSlot(Ram(f)), rest).None?
  {
    hide SlotOk, RFork, Flatten, FlattenSlot, Get, RamOk, Fork;
    var j := rest[|path|];
    var f := RFork(path, i, x, j, y);
    if RamOk(f, |rest|) {
      ForkSlotOk(path, i, x, j, y, |rest|);
    }
    NotRamSlot(f, |rest|);
    RamSlotFlattens(f);
    FlattenFork(path, i, x, j, y);
    GetFork(path, i, FlattenSlot(x), j, FlattenSlot(y), rest);
    assert rest[|path| + 1..] == [];
  }

  lemma NotRamSlot(f: RamNode, len: nat)
    requires !RamOk(f, len)
    ensures !SlotOk(Ram(f), len)
  {
  }

  // -------------------------------------------------------------- deletes compared

  ghost predicate DeletesWalk(w: Result<RamDeleted>, r: Result<RamDeleted>, slips: bool) {
    (!slips ==> w == r) && (slips ==> w == Ok(RAbsent) && r != Ok(RAbsent))
  }

  ghost predicate SlotDeletesWalk(w: Result<Deleted<Slot>>, r: Result<Deleted<Slot>>, slips: bool) {
    (!slips ==> w == r) && (slips ==> w == Ok(Absent) && r != Ok(Absent))
  }

  /** The source's delete walk is `RamDelete` exactly when it does not slip; a slip reports
      the key absent although it is there. */
  lemma {:induction false} DeleteWalks(base: nat, cr: Crypto, pol: Policy, f: RamNode, prefix: Path, key: Path, op: DeleteOp)
    requires DeleteOpOk(op) && Walked(base, prefix, key) && |prefix| < base + KEY_NIBBLES
    requires RamOk(f, base + KEY_NIBBLES - |prefix|) && PrefixOk(f, prefix) && Plain(f, base == KEY_NIBBLES)
    ensures var rest := key[|prefix| - base..];
      DeletesWalk(WalkDelete(cr, pol, f, prefix, key, op), RamDelete(cr, pol, f, prefix, rest, op), base == 0 && DeleteSlips(f, rest, op))
    decreases f
  {
    hide RamOk, PrefixOk, Plain, SlotOk, SlotPrefixOk, SlotPlain, WalkDelete, RamDelete, DeleteSlips, SlotDelete, WalkSlotDelete, SlotDeleteSlips;
    var rest := key[|prefix| - base..];
    Parts(f, prefix, |rest|, base == KEY_NIBBLES);
    DepthsAreRight(base, prefix, key);
    match f
    case REmpty => NothingDeleted(cr, pol, f, prefix, key, rest, op);
    case RExt(path, child, _) =>
      if path <= rest {
        WalkedOn(base, prefix, key, path);
        DeleteWalks(base, cr, pol, child, prefix + path, key, op);
        ExtDeleteWalks(cr, pol, f, prefix, key, rest, op, base == 0);
      } else {
        NothingDeleted(cr, pol, f, prefix, key, rest, op);
      }
    case RBranch(slots, _) =>
      WalkedOn(base, prefix, key, [rest[0]]);
      assert rest[..1] == [rest[0]];
      SlotDeleteWalks(base, cr, pol, slots[rest[0]], prefix + [rest[0]], key, op);
      BranchDeleteWalks(cr, pol, f, prefix, key, rest, op, base == 0);
  }

  lemma NothingDeleted(cr: Crypto, pol: Policy, f: RamNode, prefix: Path, key: Path, rest: Path, op: DeleteOp)
    requires DeleteOpOk(op) && RamOk(f, |rest|) && rest == From(key, WalkDepth(prefix)) && (f.REmpty? || (f.RExt? && !(f.path <= rest)))
    ensures WalkDelete(cr, pol, f, prefix, key, op) == RamDelete(cr, pol, f, prefix, rest, op) && !DeleteSlips(f, rest, op)
  {
  }

  lemma ExtDeleteWalks(cr: Crypto, pol: Policy, f: RamNode, prefix: Path, key: Path, rest: Path, op: DeleteOp, account: bool)
    requires DeleteOpOk(op) && f.RExt? && RamOk(f, |rest|) && rest == From(key, WalkDepth(prefix)) && f.path <= rest
    requires DeletesWalk(WalkDelete(cr, pol, f.child, prefix + f.path, key, op), RamDelete(cr, pol, f.child, prefix + f.path, rest[|f.path|..], op),
                         account && DeleteSlips(f.child, rest[|f.path|..], op))
    ensures DeletesWalk(WalkDelete(cr, pol, f, prefix, key, op), RamDelete(cr, pol, f, prefix, rest, op), account && DeleteSlips(f, rest, op))
  {
    hide RMerge, SlotOk;
  }

  lemma BranchDeleteWalks(cr: Crypto, pol: Policy, f: RamNode, prefix: Path, key: Path, rest: Path, op: DeleteOp, account: bool)
    requires DeleteOpOk(op) && f.RBranch? && RamOk(f, |rest|) && rest == From(key, WalkDepth(prefix))
    requires SlotDeletesWalk(WalkSlotDelete(cr, pol, f.slots[rest[0]], prefix + [rest[0]], key, op), SlotDelete(cr, pol, f.slots[rest[0]], prefix + [rest[0]], rest[1..], op),
                             account && SlotDeleteSlips(f.slots[rest[0]], rest[1..], op))
    ensures DeletesWalk(WalkDelete(cr, pol, f, prefix, key, op), RamDelete(cr, pol, f, prefix, rest, op), account && DeleteSlips(f, rest, op))
  {
    hide SlotOk, SlotDelete, WalkSlotDelete, SlotDeleteSlips, RCollapse, LiveRam;
    CollapseReports(f.slots[rest[0] := Free]);
  }

  lemma CollapseReports(slots: seq<Slot>)
    ensures RCollapse(slots) != RAbsent
  {
    hide RMerge, LiveRam;
  }

  lemma {:induction false} SlotDeleteWalks(base: nat, cr: Crypto, pol: Policy, s: Slot, prefix: Path, key: Path, op: DeleteOp)
    requires DeleteOpOk(op) && Walked(base, prefix, key) && base < |prefix|
    requires SlotOk(s, base + KEY_NIBBLES - |prefix|) && SlotPrefixOk(s, prefix) && SlotPlain(s, base == KEY_NIBBLES)
    ensures var rest := key[|prefix| - base..];
      SlotDeletesWalk(WalkSlotDelete(cr, pol, s, prefix, key, op), SlotDelete(cr, pol, s, prefix, rest, op), base == 0 && SlotDeleteSlips(s, rest, op))
    decreases s
  {
    hide RamOk, PrefixOk, Plain, RamDelete, WalkDelete, DeleteSlips, RecDelete, Rehome, ValuesOnly;
    var rest := key[|prefix| - base..];
    DepthsAreRight(base, prefix, key);
    match s
    case Free =>
    case Ram(n) =>
      SlotOkRam(n, |rest|);
      DeleteWalks(base, cr, pol, n, prefix, key, op);
    case Disk(_, _, rec) =>
    case Mem(_, rec) =>
    case Promoted(path, _, _, _, storage) =>
      if op.DeleteSlot? && rest == path {
        assert prefix + path == key;
        StorageBase(key, op.slot);
        DeleteWalks(KEY_NIBBLES, cr, pol, storage, key, op.slot, DeleteValue);
      }
      PromotedDeleteWalks(cr, pol, s, prefix, key, op);
  }

  lemma PromotedDeleteWalks(cr: Crypto, pol: Policy, s: Slot, prefix: Path, key: Path, op: DeleteOp)
    requires DeleteOpOk(op) && Walked(0, prefix, key) && prefix != [] && s.Promoted? && SlotOk(s, KEY_NIBBLES - |prefix|) && ValuesOnly(Flatten(s.storage))
    requires op.DeleteSlot? && key[|prefix|..] == s.path ==>
      prefix + s.path == key && WalkDelete(cr, pol, s.storage, key, op.slot, DeleteValue) == RamDelete(cr, pol, s.storage, key, op.slot, DeleteValue)
    ensures var rest := key[|prefix|..];
      SlotDeletesWalk(WalkSlotDelete(cr, pol, s, prefix, key, op), SlotDelete(cr, pol, s, prefix, rest, op), SlotDeleteSlips(s, rest, op))
  {
    hide RamOk, RamDelete, WalkDelete, ValuesOnly, Demote;
    var rest := key[|prefix|..];
    DepthsAreRight(0, prefix, key);
    if rest == [] && op.DeleteSlot? {
      assert s.path == [] && prefix == key;
      SlotThere(cr, pol, s, key, op.slot);
    }
  }

  /** A slot delete is absent exactly when the slot is. */
  lemma SlotThere(cr: Crypto, pol: Policy, s: Slot, prefix: Path, slot: Path)
    requires s.Promoted? && |slot| == KEY_NIBBLES && RamOk(s.storage, KEY_NIBBLES) && ValuesOnly(Flatten(s.storage))
    ensures RamDelete(cr, pol, s.storage, prefix, slot, DeleteValue) == Ok(RAbsent) <==> Get(Flatten(s.storage), slot).None?
    ensures SlotDeleted(cr, pol, s, prefix, RamDelete(cr, pol, s.storage, prefix, slot, DeleteValue)) == Ok(Absent) <==> Get(Flatten(s.storage), slot).None?
  {
    hide RamOk, RamDelete, Canonical, Delete, ApplyDelete, Updated, Demote, OnlyKey;
    ValuesArePlain(Flatten(s.storage));
    DeleteCommutes(cr, pol, s.storage, prefix, slot, DeleteValue);
    DeleteSpec(Flatten(s.storage), slot, DeleteValue);
    if Get(Flatten(s.storage), slot).Some? {
      RemoveApplies(Get(Flatten(s.storage), slot).value);
    }
  }

  // ----------------------------------------------------------------- exact walks

  lemma RootWalked(key: Path)
    requires |key| == KEY_NIBBLES
    ensures Walked(0, [], key) && key[0..] == key
  {
  }

  lemma PlainAtRoot(f: RamNode)
    requires RamOk(f, KEY_NIBBLES) && AccountsPlain(Flatten(f), KEY_NIBBLES)
    ensures Plain(f, false)
  {
    hide RamOk, Flatten, ValuesOnly;
    PlainFromFlat(f, KEY_NIBBLES, false);
  }

  /** The insert walk from the root does what `RamInsert` says if and only if it does not
      slip; a slip reports success and loses the key. */
  lemma WalkInsertIsExact(cr: Crypto, pol: Policy, f: RamNode, key: Path, op: LeafOp)
    requires OpOk(op) && |key| == KEY_NIBBLES && RamOk(f, KEY_NIBBLES) && f != REmpty && PrefixOk(f, []) && AccountsPlain(Flatten(f), KEY_NIBBLES)
    ensures WalkInsert(cr, pol, f, [], key, op) == RamInsert(cr, pol, f, [], key, op) <==> !InsertSlips(f, key)
    ensures InsertSlips(f, key) ==> (
      var w := WalkInsert(cr, pol, f, [], key, op);
      w.Ok? && !RamOk(w.value, KEY_NIBBLES) && Get(Flatten(w.value), key).None?)
  {
    hide RamOk, PrefixOk, Plain, WalkInsert, RamInsert, InsertSlips, AccountsPlain, Canonical, Flatten, Get, Insert;
    RootWalked(key);
    PlainAtRoot(f);
    InsertWalks(0, cr, pol, f, [], key, op);
    InsertCommutes(cr, pol, f, [], key, op);
  }

  /** The delete walk from the root does what `RamDelete` says if and only if it does not
      slip; a slip reports absence. */
  lemma WalkDeleteIsExact(cr: Crypto, pol: Policy, f: RamNode, key: Path, op: DeleteOp)
    requires DeleteOpOk(op) && |key| == KEY_NIBBLES && RamOk(f, KEY_NIBBLES) && PrefixOk(f, []) && AccountsPlain(Flatten(f), KEY_NIBBLES)
    ensures WalkDelete(cr, pol, f, [], key, op) == RamDelete(cr, pol, f, [], key, op) <==> !DeleteSlips(f, key, op)
    ensures DeleteSlips(f, key, op) ==> WalkDelete(cr, pol, f, [], key, op) == Ok(RAbsent)
  {
    hide RamOk, PrefixOk, Plain, WalkDelete, RamDelete, DeleteSlips, AccountsPlain, Flatten;
    RootWalked(key);
    PlainAtRoot(f);
    DeleteWalks(0, cr, pol, f, [], key, op);
  }

  // -------------------------------------------------------------- stored depths

  /** A record sits in the frontier, at depth `at` of its own trie. */
  ghost predicate Filed(f: RamNode, d: nat, rec: Rec, at: nat)
    decreases f
  {
    || (f.RExt? && Filed(f.child, d + |f.path|, rec, at))
    || (f.RBranch? && exists i :: 0 <= i < |f.slots| && SlotFiled(f.slots[i], d + 1, rec, at))
  }

  ghost predicate SlotFiled(s: Slot, d: nat, rec: Rec, at: nat)
    decreases s
  {
    || ((s.Disk? || s.Mem?) && s.rec == rec && at == d)
    || (s.Ram? && Filed(s.node, d, rec, at))
    || (s.Promoted? && Filed(s.storage, 0, rec, at))
  }

  /** The length of a stored prefix tells an account record from a storage record: the
      depth read off it is the record's depth in its own trie, for every record. */
  lemma {:induction false} StoredDepthIsRight(base: nat, f: RamNode, prefix: Path, rec: Rec, at: nat)
    requires (base == 0 || base == KEY_NIBBLES) && base <= |prefix| < base + KEY_NIBBLES
    requires RamOk(f, base + KEY_NIBBLES - |prefix|) && PrefixOk(f, prefix) && Plain(f, base == KEY_NIBBLES) && Filed(f, |prefix| - base, rec, at)
    ensures LocalDepth(rec.prefix) == at && at <= KEY_NIBBLES && Canonical(rec.node, KEY_NIBBLES - at)
    decreases f
  {
    match f
    case RExt(path, child, _) => StoredDepthIsRight(base, child, prefix + path, rec, at);
    case RBranch(slots, _) =>
      var i :| 0 <= i < |slots| && SlotFiled(slots[i], |prefix| - base + 1, rec, at);
      SlotDepthIsRight(base, slots[i], prefix + [i], rec, at);
  }

  lemma {:induction false} SlotDepthIsRight(base: nat, s: Slot, prefix: Path, rec: Rec, at: nat)
    requires (base == 0 || base == KEY_NIBBLES) && base < |prefix| <= base + KEY_NIBBLES
    requires SlotOk(s, base + KEY_NIBBLES - |prefix|) && SlotPrefixOk(s, prefix) && SlotPlain(s, base == KEY_NIBBLES) && SlotFiled(s, |prefix| - base, rec, at)
    ensures LocalDepth(rec.prefix) == at && at <= KEY_NIBBLES && Canonical(rec.node, KEY_NIBBLES - at)
    decreases s
  {
    match s
    case Ram(n) =>
      SlotOkRam(n, base + KEY_NIBBLES - |prefix|);
      StoredDepthIsRight(base, n, prefix, rec, at);
    case Promoted(path, _, _, _, storage) => StoredDepthIsRight(KEY_NIBBLES, storage, prefix + path, rec, at);
    case _ =>
  }

  // -------------------------------------------------------------------- example

  function Zeros(n: nat): (p: Path)
    ensures |p| == n && forall i :: 0 <= i < n ==> p[i] == 0
  {
    if n == 0 then [] else [0] + Zeros(n - 1)
  }

  function ValueSlot(cr: Crypto, prefix: Path, path: Path, v: Bytes): Slot {
    Mem(Root(cr, Leaf(path, Value(v))), Rec(prefix, Leaf(path, Value(v))))
  }

  /** Keys 00..00 and 00..01, so large together that their record was promoted, and 10..00. */
  function DeepFrontier(cr: Crypto, a: Bytes, b: Bytes, k: Bytes): RamNode {
    RFork([], 0, Ram(RFork(Zeros(62), 0, ValueSlot(cr, Zeros(64), [], a), 1, ValueSlot(cr, Zeros(63) + [1], [], b))),
          1, ValueSlot(cr, [1], Zeros(63), k))
  }

  lemma ValueSlotOk(cr: Crypto, prefix: Path, path: Path, v: Bytes)
    ensures var s := ValueSlot(cr, prefix, path, v);
      && s != Free && SlotOk(s, |path|) && SlotMemoOk(cr, s) && SlotPrefixOk(s, prefix)
      && forall k: Path :: Get(FlattenSlot(s), k).Some? ==> Get(FlattenSlot(s), k).value.Value?
  {
  }

  lemma DeepFrontierOk(cr: Crypto, a: Bytes, b: Bytes, k: Bytes)
    ensures var f := DeepFrontier(cr, a, b, k);
      RamOk(f, KEY_NIBBLES) && f != REmpty && PrefixOk(f, []) && MemoOk(cr, f) && AccountsPlain(Flatten(f), KEY_NIBBLES)
  {
    hide SlotOk, SlotMemoOk, SlotPrefixOk, RamOk, MemoOk, PrefixOk, RFork, ValueSlot, Flatten, FlattenSlot, Get, Fork;
    var z := Zeros(62);
    var x, y, w := ValueSlot(cr, Zeros(64), [], a), ValueSlot(cr, Zeros(63) + [1], [], b), ValueSlot(cr, [1], Zeros(63), k);
    var low := RFork(z, 0, x, 1, y);
    ValueSlotOk(cr, Zeros(64), [], a);
    ValueSlotOk(cr, Zeros(63) + [1], [], b);
    ValueSlotOk(cr, [1], Zeros(63), k);
    RForkOk(z, 0, x, 1, y, 0);
    RamSlotOk(low, 63);
    RForkOk([], 0, Ram(low), 1, w, 63);
    ForkMemo(cr, z, 0, x, 1, y);
    RamSlotMemo(cr, low);
    ForkMemo(cr, [], 0, Ram(low), 1, w);
    assert [0] + z + [0] == Zeros(64) && [0] + z + [1] == Zeros(63) + [1];
    ForkPrefix(z, 0, x, 1, y, [0]);
    RamSlotPrefix(low, [0]);
    assert [] + [] + [0] == [0] && [] + [] + [1] == [1];
    ForkPrefix([], 0, Ram(low), 1, w, []);
    RamSlotFlattens(low);
    FlattenFork(z, 0, x, 1, y);
    FlattenFork([], 0, Ram(low), 1, w);
    forall q: Path | |q| == KEY_NIBBLES && Get(Flatten(DeepFrontier(cr, a, b, k)), q).Some?
      ensures Get(Flatten(DeepFrontier(cr, a, b, k)), q).value.Value? {
      GetFork([], 0, Flatten(low), 1, FlattenSlot(w), q);
      GetFork(z, 0, FlattenSlot(x), 1, FlattenSlot(y), q[1..]);
    }
  }

  lemma RamSlotMemo(cr: Crypto, f: RamNode)
    requires MemoOk(cr, f)
    ensures SlotMemoOk(cr, Ram(f))
  {
  }

  lemma RamSlotPrefix(f: RamNode, prefix: Path)
    requires PrefixOk(f, prefix)
    ensures SlotPrefixOk(Ram(f), prefix)
  {
  }

  /** A fork slips where its third slots are free at the key's end. */
  lemma ForkSlips(path: Path, i: Nibble, x: Slot, j: Nibble, y: Slot, m: Nibble)
    requires m != i && m != j
    ensures InsertSlips(RFork(path, i, x, j, y), path + [m])
  {
    var slots := NO_SLOTS[i := x][j := y];
    assert slots[m] == Free;
    assert [m][1..] == [];
    assert InsertSlips(RBranch(slots, None), [m]);
    if path == [] {
      assert path + [m] == [m];
    } else {
      assert path <= path + [m] && (path + [m])[|path|..] == [m];
    }
  }

  /** Inserting 00..02 there reports success and loses the key. */
  lemma DeepInsertSlips(cr: Crypto, pol: Policy, a: Bytes, b: Bytes, k: Bytes, v: Bytes)
    ensures var f, key := DeepFrontier(cr, a, b, k), Zeros(63) + [2];
      && RamOk(f, KEY_NIBBLES) && PrefixOk(f, []) && MemoOk(cr, f) && AccountsPlain(Flatten(f), KEY_NIBBLES)
      && InsertSlips(f, key)
      && var w := WalkInsert(cr, pol, f, [], key, SetValue(v));
         w.Ok? && !RamOk(w.value, KEY_NIBBLES) && Get(Flatten(w.value), key).None?
  {
    hide RamOk, MemoOk, PrefixOk, ValueSlot, Flatten, Get, WalkInsert, AccountsPlain;
    DeepFrontierOk(cr, a, b, k);
    var z := Zeros(62);
    var low := RFork(z, 0, ValueSlot(cr, Zeros(64), [], a), 1, ValueSlot(cr, Zeros(63) + [1], [], b));
    ForkSlips(z, 0, ValueSlot(cr, Zeros(64), [], a), 1, ValueSlot(cr, Zeros(63) + [1], [], b), 2);
    hide RFork;
    RootSlips(low, ValueSlot(cr, [1], Zeros(63), k), z + [2]);
    assert [0] + (z + [2]) == Zeros(63) + [2];
    WalkInsertIsExact(cr, pol, DeepFrontier(cr, a, b, k), Zeros(63) + [2], SetValue(v));
  }

  lemma RootSlips(low: RamNode, w: Slot, rest: Path)
    requires InsertSlips(low, rest)
    ensures InsertSlips(RFork([], 0, Ram(low), 1, w), [0] + rest)
  {
    var slots := NO_SLOTS[0 := Ram(low)][1 := w];
    assert slots[0] == Ram(low) && ([0] + rest)[1..] == rest;
  }

  // ---------------------------------------------------------- how it is reached

  lemma {:induction false} PromotedAt(cr: Crypto, pol: Policy, prefix: Path, branch: Node, i: nat)
    requires branch.Branch? && |branch.children| == 16 && i <= 16
    ensures var slots := PromoteChildren(cr, pol, prefix, branch, i);
      && |slots| == 16 - i
      && forall k: nat :: k < 16 - i ==> slots[k] == ChildSlot(cr, pol, prefix, branch, i + k)
    decreases 16 - i
  {
    if i < 16 {
      hide Settle;
      PromotedAt(cr, pol, prefix, branch, i + 1);
      var slots, rest := PromoteChildren(cr, pol, prefix, branch, i), PromoteChildren(cr, pol, prefix, branch, i + 1);
      forall k: nat | k < 16 - i ensures slots[k] == ChildSlot(cr, pol, prefix, branch, i + k) {
        if k > 0 {
          assert slots[k] == rest[k - 1];
        }
      }
    }
  }

  function ChildSlot(cr: Crypto, pol: Policy, prefix: Path, branch: Node, i: nat): Slot
    requires branch.Branch? && |branch.children| == 16
  {
    if i >= 16 || branch.children[i] == Empty then Free else Settle(cr, pol, pol.oversized, Rec(prefix + [i], branch.children[i]))
  }

  /** Promote whatever is edited, keep the parts whole and in RAM. */
  const ALWAYS: Policy := Policy(_ => true, _ => false, _ => None)

  lemma PromoteFork(cr: Crypto, prefix: Path, path: Path, a: Bytes, b: Bytes)
    requires path != []
    ensures Promote(cr, ALWAYS, Rec(prefix, Fork(path, 0, Leaf([], Value(a)), 1, Leaf([], Value(b))))) ==
      RFork(path, 0, ValueSlot(cr, prefix + path + [0], [], a), 1, ValueSlot(cr, prefix + path + [1], [], b))
  {
    var branch := Branch(NO_CHILDREN[0 := Leaf([], Value(a))][1 := Leaf([], Value(b))]);
    PromotedAt(cr, ALWAYS, prefix + path, branch, 0);
    var slots := PromoteChildren(cr, ALWAYS, prefix + path, branch, 0);
    var want := NO_SLOTS[0 := ValueSlot(cr, prefix + path + [0], [], a)][1 := ValueSlot(cr, prefix + path + [1], [], b)];
    forall k: nat | k < 16 ensures slots[k] == want[k] {
      assert slots[k] == ChildSlot(cr, ALWAYS, prefix + path, branch, 0 + k);
    }
    assert slots == want;
  }

  lemma {:induction false} CommonZeros(n: nat)
    ensures CommonPrefix(Zeros(n + 1), Zeros(n) + [1]) == n
  {
    if n > 0 {
      CommonZeros(n - 1);
      assert Zeros(n + 1)[1..] == Zeros(n) && (Zeros(n) + [1])[1..] == Zeros(n - 1) + [1];
    }
  }

  /** The record of 00..00, given 00..01. */
  lemma InsertSplitsZeros(a: Bytes, b: Bytes)
    ensures Canonical(Leaf(Zeros(63), Value(a)), 63)
    ensures Insert(Leaf(Zeros(63), Value(a)), Zeros(62) + [1], SetValue(b)) == Ok(Fork(Zeros(62), 0, Leaf([], Value(a)), 1, Leaf([], Value(b))))
    ensures HasTopBranch(Fork(Zeros(62), 0, Leaf([], Value(a)), 1, Leaf([], Value(b))))
  {
    hide Fork, CommonPrefix, Insert;
    CommonZeros(62);
    var path, key := Zeros(63), Zeros(62) + [1];
    LeafCanonical(path, Value(a));
    LeafSplits(path, Value(a), key, SetValue(b));
    PlaceValue([], b);
    ForkTop(Zeros(62), Leaf([], Value(a)), Leaf([], Value(b)));
    assert path[..62] == Zeros(62) && path[63..] == [] && key[63..] == [];
  }

  lemma PlaceValue(key: Path, v: Bytes)
    ensures PlaceNew(key, SetValue(v)) == Ok(Leaf(key, Value(v)))
  {
  }

  /** The slot of 00..00 after 00..01 came in. */
  lemma DeepSlot(cr: Crypto, a: Bytes, b: Bytes)
    ensures WalkSlotInsert(cr, ALWAYS, ValueSlot(cr, [0], Zeros(63), a), [0], Zeros(63) + [1], SetValue(b)) ==
      Ok(Ram(RFork(Zeros(62), 0, ValueSlot(cr, Zeros(64), [], a), 1, ValueSlot(cr, Zeros(63) + [1], [], b))))
  {
    hide RFork, Insert, Promote, Fork, Canonical, WalkRecInsert, RecInsert;
    var key, rec, n := Zeros(63) + [1], Rec([0], Leaf(Zeros(63), Value(a))), Fork(Zeros(62), 0, Leaf([], Value(a)), 1, Leaf([], Value(b)));
    InsertSplitsZeros(a, b);
    assert key[1..] == Zeros(62) + [1];
    RecInsertIs(cr, rec, key, key[1..], SetValue(b), n);
    PromoteFork(cr, [0], Zeros(62), a, b);
    assert [0] + Zeros(62) + [0] == Zeros(64);
    assert [0] + Zeros(62) + [1] == Zeros(63) + [1];
  }

  lemma RecInsertIs(cr: Crypto, rec: Rec, key: Path, rest: Path, op: LeafOp, n: Node)
    requires OpOk(op) && rest == From(key, LocalDepth(rec.prefix)) && Canonical(rec.node, |rest|) && Insert(rec.node, rest, op) == Ok(n) && HasTopBranch(n)
    ensures WalkRecInsert(cr, ALWAYS, rec, key, op) == Ok(Ram(Promote(cr, ALWAYS, Rec(rec.prefix, n))))
  {
    hide Insert, Canonical, Promote;
  }

  /** The deep frontier is what inserting 00..01 next to 00..00 and 10..00 leaves when the
      record they share is promoted. */
  lemma DeepIsReached(cr: Crypto, a: Bytes, b: Bytes, k: Bytes)
    ensures var f := RFork([], 0, ValueSlot(cr, [0], Zeros(63), a), 1, ValueSlot(cr, [1], Zeros(63), k));
      WalkInsert(cr, ALWAYS, f, [], Zeros(63) + [1], SetValue(b)) == Ok(DeepFrontier(cr, a, b, k))
  {
    hide RFork, WalkSlotInsert, ValueSlot;
    var key, s, w := Zeros(63) + [1], ValueSlot(cr, [0], Zeros(63), a), ValueSlot(cr, [1], Zeros(63), k);
    var low := RFork(Zeros(62), 0, ValueSlot(cr, Zeros(64), [], a), 1, ValueSlot(cr, Zeros(63) + [1], [], b));
    DeepSlot(cr, a, b);
    FlatFork(s, w);
    FlatFork(Ram(low), w);
    assert [] + [key[0]] == [0] && key[0..] == key;
    assert NO_SLOTS[0 := s][1 := w][0 := Ram(low)] == NO_SLOTS[0 := Ram(low)][1 := w];
  }

  lemma ForkTop(path: Path, x: Node, y: Node)
    requires path != []
    ensures HasTopBranch(Fork(path, 0, x, 1, y))
  {
  }

  lemma FlatFork(x: Slot, y: Slot)
    ensures RFork([], 0, x, 1, y) == RBranch(NO_SLOTS[0 := x][1 := y], None)
  {
  }
}

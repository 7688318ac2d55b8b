/** Whole runs of the frontier: inserts, deletes, net updates, pointer installs, spills and
    hashing in any order and under any placement policy.  A run flattens to what the same
    edits do to one record trie exactly when no insert or delete meets an account-space
    slot at 64 nibbles; then layout shows neither in the contents nor in the root.
 */
module FrontierRuns {
  import opened Trie
  import opened TrieLaws
  import opened TrieHistory
  import opened TrieRoot
  import opened Frontier
  import opened FrontierFlatten
  import opened FrontierInvariants
  import opened FrontierWalk
  import opened FrontierNet
  import opened PlainStorage
  import opened BlockRecord
  import B = BlockOps

  // ----------------------------------------------------------------------- spill

  /** Write the cached records that `pick` chooses by their path to disk. */
  function Spill(f: RamNode, prefix: Path, pick: Path -> Option<DiskPtr>): RamNode
    decreases f, 0
  {
    match f
    case REmpty => f
    case RExt(path, child, memo) => RExt(path, Spill(child, prefix + path, pick), memo)
    case RBranch(slots, memo) => RBranch(SpillSlots(slots, prefix, pick, 0), memo)
  }

  function SpillSlots(slots: seq<Slot>, prefix: Path, pick: Path -> Option<DiskPtr>, i: nat): (r: seq<Slot>)
    ensures |r| == if i <= |slots| then |slots| - i else 0
    ensures forall k :: 0 <= k < |r| ==> r[k] == SpillAt(slots[i + k], prefix, i + k, pick)
    decreases slots, 1, |slots| - i
  {
    if i >= |slots| then [] else [SpillAt(slots[i], prefix, i, pick)] + SpillSlots(slots, prefix, pick, i + 1)
  }

  function SpillAt(s: Slot, prefix: Path, i: nat, pick: Path -> Option<DiskPtr>): Slot
    decreases s, 1
  {
    if i < 16 then SpillSlot(s, prefix + [i], pick) else s
  }

  function SpillSlot(s: Slot, prefix: Path, pick: Path -> Option<DiskPtr>): Slot
    decreases s, 0
  {
    match s
    case Mem(root, rec) => (match pick(prefix) case Some(ptr) => Disk(ptr, root, rec) case None => s)
    case Ram(n) => Ram(Spill(n, prefix, pick))
    case Promoted(path, _, _, _, storage) => s.(storage := Spill(storage, prefix + path, pick))
    case _ => s
  }

  /** The free slot or record at a path below the node; a promoted account continues into its
      storage after the account's own nibbles. */
  function RecordAt(f: RamNode, q: Path): Option<Slot>
    decreases f
  {
    match f
    case REmpty => None
    case RExt(path, child, _) => if path <= q then RecordAt(child, q[|path|..]) else None
    case RBranch(slots, _) => if q == [] || |slots| != 16 then None else RecordInSlot(slots[q[0]], q[1..])
  }

  function RecordInSlot(s: Slot, q: Path): Option<Slot>
    decreases s
  {
    match s
    case Ram(n) => RecordAt(n, q)
    case Promoted(path, _, _, _, storage) => if path <= q then RecordAt(storage, q[|path|..]) else None
    case _ => if q == [] then Some(s) else None
  }

  /** What spilling makes of one record slot. */
  function Spilled(o: Option<Slot>, at: Option<DiskPtr>): Option<Slot> {
    if o.Some? && o.value.Mem? && at.Some? then Some(Disk(at.value, o.value.root, o.value.rec)) else o
  }

  /** Every cached record picked is on disk at its pointer, with the same root and contents;
      every other record is what it was. */
  lemma {:induction false} SpillIsExact(f: RamNode, prefix: Path, pick: Path -> Option<DiskPtr>, q: Path)
    ensures RecordAt(Spill(f, prefix, pick), q) == Spilled(RecordAt(f, q), pick(prefix + q))
    decreases f
  {
    hide SpillSlot, RecordInSlot;
    match f
    case REmpty =>
    case RExt(path, child, _) =>
      if path <= q {
        SpillIsExact(child, prefix + path, pick, q[|path|..]);
        Joined(prefix, path, q);
      }
    case RBranch(slots, _) =>
      if q != [] && |slots| == 16 {
        SlotSpillIsExact(slots[q[0]], prefix + [q[0]], pick, q[1..]);
        Joined(prefix, [q[0]], q);
        var ss := SpillSlots(slots, prefix, pick, 0);
        assert ss[q[0]] == SpillAt(slots[0 + q[0]], prefix, 0 + q[0], pick);
      }
  }

  lemma {:induction false} SlotSpillIsExact(s: Slot, prefix: Path, pick: Path -> Option<DiskPtr>, q: Path)
    ensures RecordInSlot(SpillSlot(s, prefix, pick), q) == Spilled(RecordInSlot(s, q), pick(prefix + q))
    decreases s
  {
    hide Spill, RecordAt;
    match s
    case Ram(n) => SpillIsExact(n, prefix, pick, q);
    case Promoted(path, _, _, _, storage) =>
      if path <= q {
        Joined(prefix, path, q);
        SpillIsExact(storage, prefix + path, pick, q[|path|..]);
      }
    case _ => RecordSpillIsExact(s, prefix, pick, q);
  }

  lemma RecordSpillIsExact(s: Slot, prefix: Path, pick: Path -> Option<DiskPtr>, q: Path)
    requires !s.Ram? && !s.Promoted?
    ensures RecordInSlot(SpillSlot(s, prefix, pick), q) == Spilled(RecordInSlot(s, q), pick(prefix + q))
  {
    if q == [] {
      assert prefix + q == prefix;
    }
  }

  lemma Joined(prefix: Path, path: Path, q: Path)
    requires path <= q
    ensures (prefix + path) + q[|path|..] == prefix + q
  {
  }

  // --------------------------------------------------------------------- hashing

  /** The node after its hash was asked for: a memo short-cuts, a missing one is filled. */
  function Hashed(cr: Crypto, f: RamNode): RamNode
    decreases f
  {
    match f
    case REmpty => f
    case RExt(path, child, memo) =>
      if memo.Some? then f
      else
        var c := Hashed(cr, child);
        RExt(path, c, Some(Finalize(cr, MkRef(cr, ExtensionRlp(cr, path, Embed(cr, Hash(Answer(cr, c))))))))
    case RBranch(slots, memo) =>
      if memo.Some? then f
      else
        var ss := HashedSlots(cr, slots);
        RBranch(ss, Some(Finalize(cr, MkRef(cr, cr.rlpList(Answers(cr, ss) + [cr.rlpString([])])))))
  }

  /** The hash read off a node whose memo is filled. */
  function Answer(cr: Crypto, f: RamNode): Bytes {
    if f.REmpty? then cr.keccak(cr.rlpString([])) else if f.memo.Some? then f.memo.value else []
  }

  function HashedSlots(cr: Crypto, slots: seq<Slot>): (r: seq<Slot>)
    ensures |r| == |slots| && forall i :: 0 <= i < |slots| ==> r[i] == HashedSlot(cr, slots[i])
    decreases slots
  {
    if slots == [] then [] else [HashedSlot(cr, slots[0])] + HashedSlots(cr, slots[1..])
  }

  function HashedSlot(cr: Crypto, s: Slot): Slot
    decreases s
  {
    match s
    case Ram(n) => Ram(Hashed(cr, n))
    case Promoted(_, _, _, _, storage) => s.(storage := Hashed(cr, storage))
    case _ => s
  }

  function AnswerSlot(cr: Crypto, s: Slot): Bytes {
    match s
    case Free => []
    case Ram(n) => Answer(cr, n)
    case Disk(_, root, _) => root
    case Mem(root, _) => root
    case Promoted(path, nonce, balance, codeHash, storage) =>
      Finalize(cr, MkRef(cr, LeafRlp(cr, path, cr.accountRlp(nonce, balance, Answer(cr, storage), codeHash))))
  }

  function Answers(cr: Crypto, slots: seq<Slot>): (r: seq<Bytes>)
    ensures |r| == |slots|
    ensures forall i :: 0 <= i < |slots| ==>
      r[i] == if slots[i] == Free then cr.rlpString([]) else Embed(cr, Hash(AnswerSlot(cr, slots[i])))
  {
    if slots == [] then []
    else [if slots[0] == Free then cr.rlpString([]) else Embed(cr, Hash(AnswerSlot(cr, slots[0])))] + Answers(cr, slots[1..])
  }

  // ------------------------------------------------------------ steps that keep all

  /** Pointwise `SlotKept`, with free slots staying free. */
  ghost predicate AllKept(cr: Crypto, slots: seq<Slot>, slots': seq<Slot>, len: nat, prefix: Path) {
    && |slots'| == |slots| == 16
    && forall i: Nibble :: (slots[i] == Free && slots'[i] == Free) || SlotKept(cr, slots[i], slots'[i], len, prefix + [i])
  }

  lemma BranchAllKept(cr: Crypto, slots: seq<Slot>, slots': seq<Slot>, memo: Option<Bytes>, memo': Option<Bytes>, len: nat, prefix: Path)
    requires RamOk(RBranch(slots, memo), len) && AllKept(cr, slots, slots', len - 1, prefix)
    requires memo'.Some? ==> memo'.value == RamHash(cr, RBranch(slots, memo))
    ensures Kept(cr, RBranch(slots, memo), RBranch(slots', memo'), len, prefix)
  {
    hide FlattenSlots, FlattenSlot, SlotHashes, SlotHash, SlotOk, SlotMemoOk, SlotPrefixOk, LiveRam;
    FreeKept(cr);
    assert FlattenSlots(slots') == FlattenSlots(slots) by {
      forall i | 0 <= i < 16 ensures FlattenSlots(slots')[i] == FlattenSlots(slots)[i] { assert SlotKeptAt(cr, slots, slots', len - 1, prefix, i); }
    }
    assert SlotHashes(cr, slots') == SlotHashes(cr, slots) by {
      forall i | 0 <= i < 16 ensures SlotHashes(cr, slots')[i] == SlotHashes(cr, slots)[i] { assert SlotKeptAt(cr, slots, slots', len - 1, prefix, i); }
    }
    LiveKept(cr, slots, slots', len - 1, prefix);
    forall i: Nibble
      ensures SlotOk(slots'[i], len - 1) && SlotMemoOk(cr, slots'[i]) && SlotPrefixOk(slots'[i], prefix + [i]) {
      assert SlotKeptAt(cr, slots, slots', len - 1, prefix, i);
    }
  }

  ghost predicate SlotKeptAt(cr: Crypto, slots: seq<Slot>, slots': seq<Slot>, len: nat, prefix: Path, i: Nibble)
    requires |slots| == |slots'| == 16
  {
    (slots[i] == Free && slots'[i] == Free) || SlotKept(cr, slots[i], slots'[i], len, prefix + [i])
  }

  lemma FreeKept(cr: Crypto)
    ensures SlotMemoOk(cr, Free) && (forall p :: SlotPrefixOk(Free, p)) && forall l: nat :: SlotOk(Free, l)
  {
  }

  lemma LiveKept(cr: Crypto, slots: seq<Slot>, slots': seq<Slot>, len: nat, prefix: Path)
    requires AllKept(cr, slots, slots', len, prefix)
    ensures LiveRam(slots') == LiveRam(slots)
  {
    hide FlattenSlot, SlotHash, SlotOk, SlotMemoOk, SlotPrefixOk;
    forall i | 0 <= i < 16 ensures slots[i] == Free <==> slots'[i] == Free {
      assert SlotKeptAt(cr, slots, slots', len, prefix, i);
    }
  }

  /** Spilling changes no content, hash, memo or stored path. */
  lemma {:induction false} SpillKeepsAll(cr: Crypto, f: RamNode, pick: Path -> Option<DiskPtr>, len: nat, prefix: Path)
    requires RamOk(f, len) && MemoOk(cr, f) && PrefixOk(f, prefix)
    ensures Kept(cr, f, Spill(f, prefix, pick), len, prefix)
    decreases f
  {
    match f
    case REmpty =>
    case RExt(path, child, memo) =>
      SpillKeepsAll(cr, child, pick, len - |path|, prefix + path);
      ExtKept(cr, path, child, Spill(child, prefix + path, pick), memo, memo, len, prefix);
    case RBranch(slots, memo) =>
      MemoHolds(cr, f);
      hide RamOk, RamHash, MemoOk, PrefixOk, Flatten, Kept;
      RamShape(cr, f, len, prefix);
      var ss := SpillSlots(slots, prefix, pick, 0);
      forall i: Nibble ensures (slots[i] == Free && ss[i] == Free) || SlotKept(cr, slots[i], ss[i], len - 1, prefix + [i]) {
        SlotSpillKeepsAll(cr, slots[i], pick, len - 1, prefix + [i]);
        assert ss[i] == SpillAt(slots[0 + i], prefix, 0 + i, pick);
      }
      BranchAllKept(cr, slots, ss, memo, memo, len, prefix);
  }

  lemma {:induction false} SlotSpillKeepsAll(cr: Crypto, s: Slot, pick: Path -> Option<DiskPtr>, len: nat, prefix: Path)
    requires SlotOk(s, len) && SlotMemoOk(cr, s) && SlotPrefixOk(s, prefix)
    ensures (s == Free && SpillSlot(s, prefix, pick) == Free) || SlotKept(cr, s, SpillSlot(s, prefix, pick), len, prefix)
    decreases s
  {
    hide SlotKept, Kept, Spill, RamOk, MemoOk, PrefixOk, Canonical, Root;
    match s
    case Free =>
    case Disk(_, _, _) => RecordSlotKept(cr, s, s, len, prefix);
    case Mem(_, _) => RecordSlotKept(cr, s, SpillSlot(s, prefix, pick), len, prefix);
    case Ram(n) =>
      SpillKeepsAll(cr, n, pick, len, prefix);
      RamSlotKept(cr, n, Spill(n, prefix, pick), len, prefix);
    case Promoted(path, _, _, _, storage) =>
      SpillKeepsAll(cr, storage, pick, KEY_NIBBLES, prefix + path);
      PromotedSlotKept(cr, s, Spill(storage, prefix + path, pick), len, prefix);
  }

  /** Hashing with memos answers the bottom-up recomputation, and filling memos changes
      no content, hash or stored path. */
  lemma {:induction false} HashedKeepsAll(cr: Crypto, f: RamNode, len: nat, prefix: Path)
    requires RamOk(f, len) && MemoOk(cr, f) && PrefixOk(f, prefix)
    ensures Kept(cr, f, Hashed(cr, f), len, prefix) && Answer(cr, Hashed(cr, f)) == RamHash(cr, f)
    decreases f
  {
    match f
    case REmpty =>
    case RExt(path, child, memo) =>
      if memo.None? {
        HashedKeepsAll(cr, child, len - |path|, prefix + path);
        ExtKept(cr, path, child, Hashed(cr, child), memo, Hashed(cr, f).memo, len, prefix);
      }
    case RBranch(slots, memo) =>
      MemoHolds(cr, f);
      hide RamOk, MemoOk, PrefixOk, Flatten, SlotKept, SlotHash, AnswerSlot;
      if memo.None? {
        ghost var ss := HashedSlots(cr, slots);
        SlotsHashed(cr, f, len, prefix);
        AnswersAgree(cr, slots, ss);
        BranchAllKept(cr, slots, ss, memo, Hashed(cr, f).memo, len, prefix);
      }
  }

  lemma {:induction false} SlotsHashed(cr: Crypto, f: RamNode, len: nat, prefix: Path)
    requires RamOk(f, len) && MemoOk(cr, f) && PrefixOk(f, prefix) && f.RBranch?
    ensures AllKept(cr, f.slots, HashedSlots(cr, f.slots), len - 1, prefix)
    ensures forall i :: 0 <= i < 16 ==> AnswerSlot(cr, HashedSlots(cr, f.slots)[i]) == SlotHash(cr, f.slots[i])
    decreases f, 0
  {
    hide RamOk, RamHash, MemoOk, PrefixOk, Flatten, SlotKept, AnswerSlot, SlotHash;
    RamShape(cr, f, len, prefix);
    var ss := HashedSlots(cr, f.slots);
    forall i: Nibble
      ensures (f.slots[i] == Free && ss[i] == Free) || SlotKept(cr, f.slots[i], ss[i], len - 1, prefix + [i])
      ensures AnswerSlot(cr, ss[i]) == SlotHash(cr, f.slots[i]) {
      SlotHashedKeepsAll(cr, f.slots[i], len - 1, prefix + [i]);
    }
  }

  lemma AnswersAgree(cr: Crypto, slots: seq<Slot>, ss: seq<Slot>)
    requires |ss| == |slots| && forall i :: 0 <= i < |slots| ==> (slots[i] == Free <==> ss[i] == Free)
    requires forall i :: 0 <= i < |slots| ==> AnswerSlot(cr, ss[i]) == SlotHash(cr, slots[i])
    ensures Answers(cr, ss) == SlotHashes(cr, slots)
  {
    hide AnswerSlot, SlotHash, Answers, SlotHashes;
    forall i | 0 <= i < |slots| ensures Answers(cr, ss)[i] == SlotHashes(cr, slots)[i] {
    }
  }

  lemma {:induction false} SlotHashedKeepsAll(cr: Crypto, s: Slot, len: nat, prefix: Path)
    requires SlotOk(s, len) && SlotMemoOk(cr, s) && SlotPrefixOk(s, prefix)
    ensures (s == Free && HashedSlot(cr, s) == Free) || SlotKept(cr, s, HashedSlot(cr, s), len, prefix)
    ensures AnswerSlot(cr, HashedSlot(cr, s)) == SlotHash(cr, s)
    decreases s
  {
    hide SlotKept, Kept, Hashed, Answer, RamHash, RamOk, MemoOk, PrefixOk, Canonical, Root;
    match s
    case Free =>
    case Disk(_, _, _) => RecordSlotKept(cr, s, s, len, prefix);
    case Mem(_, _) => RecordSlotKept(cr, s, s, len, prefix);
    case Ram(n) =>
      HashedKeepsAll(cr, n, len, prefix);
      RamSlotKept(cr, n, Hashed(cr, n), len, prefix);
    case Promoted(path, _, _, _, storage) =>
      HashedKeepsAll(cr, storage, KEY_NIBBLES, prefix + path);
      PromotedSlotKept(cr, s, Hashed(cr, storage), len, prefix);
  }

  // ------------------------------------------------------------------------ runs

  datatype FrontierOp =
    | FInsert(key: Path, put: LeafOp, pol: Policy)
    | FDelete(key: Path, del: DeleteOp, pol: Policy)
    | FNet(key: Path, net: B.Net, pol: Policy)
    | FInstall(at: Path, ptr: DiskPtr)
    | FSpill(pick: Path -> Option<DiskPtr>)
    | FHash

  predicate WellFormed(o: FrontierOp) {
    && (o.FInsert? ==> |o.key| == KEY_NIBBLES && OpOk(o.put))
    && (o.FDelete? ==> |o.key| == KEY_NIBBLES && DeleteOpOk(o.del))
    && (o.FNet? ==> |o.key| == KEY_NIBBLES && Normal(o.net))
  }

  /** A live frontier: canonical, with plain storage tries, exact memos and every record
      filed under its own path. */
  ghost predicate FrontierOk(cr: Crypto, f: RamNode) {
    && RamOk(f, KEY_NIBBLES) && f != REmpty && AccountsPlain(Flatten(f), KEY_NIBBLES)
    && MemoOk(cr, f) && PrefixOk(f, [])
  }

  /** One step with the source's own walks; a net update of a plain value stops the run. */
  ghost function Step(cr: Crypto, f: RamNode, o: FrontierOp): Result<RamNode>
    requires WellFormed(o)
  {
    match o
    case FInsert(key, put, pol) => WalkInsert(cr, pol, f, [], key, put)
    case FDelete(key, del, pol) => RootAfter(cr, pol, f, WalkDelete(cr, pol, f, [], key, del))
    case FNet(key, net, pol) =>
      if Structured(Get(Flatten(f), key)) then RootAfter(cr, pol, f, RamNet(cr, pol, f, [], key, net)) else Err
    case FInstall(at, ptr) => (match InstallPtr(f, at, ptr) case Some(g) => Ok(g) case None => Ok(f))
    case FSpill(pick) => Ok(Spill(f, [], pick))
    case FHash => Ok(Hashed(cr, f))
  }

  /** The same step on one record trie: layout operations do nothing. */
  ghost function RecordStep(n: Node, o: FrontierOp): Result<Node>
    requires WellFormed(o) && Canonical(n, KEY_NIBBLES)
  {
    match o
    case FInsert(key, put, _) => Insert(n, key, put)
    case FDelete(key, del, _) =>
      var r := Delete(n, key, del);
      if r.Err? then Err else Ok(Left(n, r.value))
    case FNet(key, net, _) => if Structured(Get(n, key)) then Ok(Left(n, NetNode(n, key, net))) else Err
    case _ => Ok(n)
  }

  /** The step meets no account-space slot at 64 nibbles. */
  ghost predicate Clear(f: RamNode, o: FrontierOp) {
    && (o.FInsert? ==> !InsertSlips(f, o.key))
    && (o.FDelete? ==> !DeleteSlips(f, o.key, o.del))
  }

  ghost predicate StepOk(cr: Crypto, f: RamNode, o: FrontierOp)
    requires WellFormed(o) && Canonical(Flatten(f), KEY_NIBBLES)
  {
    StepsTo(cr, Step(cr, f, o), RecordStep(Flatten(f), o))
  }

  ghost predicate StepsTo(cr: Crypto, r: Result<RamNode>, n: Result<Node>) {
    && (r.Ok? <==> n.Ok? && !n.value.Leaf?)
    && (r.Ok? ==> FrontierOk(cr, r.value) && n == Ok(Flatten(r.value)))
  }

  /** One step keeps the frontier sound, commutes with flattening and fails exactly when
      the record step does or would leave a single key: if and only if it is clear. */
  lemma StepCommutes(cr: Crypto, f: RamNode, o: FrontierOp)
    requires WellFormed(o) && FrontierOk(cr, f)
    ensures Canonical(Flatten(f), KEY_NIBBLES) && (StepOk(cr, f, o) <==> Clear(f, o))
  {
    hide RamOk, Canonical, AccountsPlain, MemoOk, PrefixOk, WalkInsert, WalkDelete, RamNet, NetNode, RootAfter, Insert, Delete, Flatten, RamHash,
      InstallPtr, Spill, Hashed, InsertSlips, DeleteSlips, Structured;
    FlattenOk(f, KEY_NIBBLES);
    match o
    case FInsert(key, put, pol) => InsertStep(cr, f, key, put, pol);
    case FDelete(key, del, pol) => DeleteStep(cr, f, key, del, pol);
    case FNet(key, net, pol) => NetStep(cr, f, key, net, pol);
    case FInstall(at, ptr) => InstallKeepsAll(cr, f, at, ptr, KEY_NIBBLES, []);
    case FSpill(pick) => SpillKeepsAll(cr, f, pick, KEY_NIBBLES, []);
    case FHash => HashedKeepsAll(cr, f, KEY_NIBBLES, []);
  }

  lemma InsertStep(cr: Crypto, f: RamNode, key: Path, put: LeafOp, pol: Policy)
    requires |key| == KEY_NIBBLES && OpOk(put) && FrontierOk(cr, f) && Canonical(Flatten(f), KEY_NIBBLES)
    ensures StepsTo(cr, WalkInsert(cr, pol, f, [], key, put), Insert(Flatten(f), key, put)) <==> !InsertSlips(f, key)
  {
    hide RamOk, Canonical, AccountsPlain, MemoOk, PrefixOk, WalkInsert, RamInsert, Insert, Flatten, InsertSlips, Get;
    WalkInsertIsExact(cr, pol, f, key, put);
    if !InsertSlips(f, key) {
      RamInsertStep(cr, f, key, put, pol);
    }
  }

  lemma RamInsertStep(cr: Crypto, f: RamNode, key: Path, put: LeafOp, pol: Policy)
    requires |key| == KEY_NIBBLES && OpOk(put) && FrontierOk(cr, f) && Canonical(Flatten(f), KEY_NIBBLES)
    ensures StepsTo(cr, RamInsert(cr, pol, f, [], key, put), Insert(Flatten(f), key, put))
  {
    hide RamOk, Canonical, AccountsPlain, MemoOk, PrefixOk, RamInsert, Insert, Updated, Resolve, ValuesOnly, Flatten;
    InsertCommutes(cr, pol, f, [], key, put);
    InsertKeepsMemos(cr, pol, f, [], key, put);
    InsertKeepsPrefixes(cr, pol, f, [], key, put);
    InsertSpec(Flatten(f), key, put);
    PlainAt(Flatten(f), key);
    ResolvePlain(Get(Flatten(f), key), put);
    var r := RamInsert(cr, pol, f, [], key, put);
    if r.Ok? {
      PlainStays(Flatten(f), Flatten(r.value), key, Some(Resolve(Get(Flatten(f), key), put).value));
      FlattenOk(r.value, KEY_NIBBLES);
    }
  }

  lemma DeleteStep(cr: Crypto, f: RamNode, key: Path, del: DeleteOp, pol: Policy)
    requires |key| == KEY_NIBBLES && DeleteOpOk(del) && FrontierOk(cr, f) && Canonical(Flatten(f), KEY_NIBBLES)
    ensures StepsTo(cr, RootAfter(cr, pol, f, WalkDelete(cr, pol, f, [], key, del)), RecordStep(Flatten(f), FDelete(key, del, pol)))
      <==> !DeleteSlips(f, key, del)
  {
    hide RamOk, Canonical, AccountsPlain, MemoOk, PrefixOk, WalkDelete, RamDelete, Delete, Flatten, DeleteSlips, Get;
    WalkDeleteIsExact(cr, pol, f, key, del);
    DeleteCommutes(cr, pol, f, [], key, del);
    DeleteKeepsMemos(cr, pol, f, [], key, del);
    DeleteKeepsPrefixes(cr, pol, f, [], key, del);
    if DeleteSlips(f, key, del) {
      ChangeShows(Flatten(f), key, del);
      NotEmpty(f);
    } else {
      FlattenOk(f, KEY_NIBBLES);
      DeletedPlain(Flatten(f), key, del);
      NeverRemoved(Flatten(f), key, del);
      var r, d := RamDelete(cr, pol, f, [], key, del), Delete(Flatten(f), key, del);
      if r.Ok? {
        RootStep(cr, pol, f, r, d.value);
      }
    }
  }

  lemma NotEmpty(f: RamNode)
    requires f != REmpty
    ensures Flatten(f) != Empty
  {
  }

  /** What a walk reports, handled at the root. */
  lemma RootStep(cr: Crypto, pol: Policy, f: RamNode, r: Result<RamDeleted>, d: Deleted<Node>)
    requires FrontierOk(cr, f) && DeletesAs(r, Ok(d), KEY_NIBBLES) && DeletedMemoOk(cr, r) && DeletedPrefixOk(r, [])
    requires !d.Removed? && (d.Changed? ==> AccountsPlain(d.now, KEY_NIBBLES))
    ensures StepsTo(cr, RootAfter(cr, pol, f, r), Ok(Left(Flatten(f), d)))
  {
    hide RamOk, Canonical, AccountsPlain, MemoOk, PrefixOk, SlotOk, SlotMemoOk, SlotPrefixOk, Flatten, FlattenSlot, Promote, PrependPath, HasTopBranch;
    FlattenOk(f, KEY_NIBBLES);
    if r.value.RChanged? {
      FlattenOk(r.value.now, KEY_NIBBLES);
    } else if r.value.RCollapsed? {
      CollapsedRoot(cr, pol, r.value.edge, r.value.survivor);
    }
  }

  lemma NetStep(cr: Crypto, f: RamNode, key: Path, u: B.Net, pol: Policy)
    requires |key| == KEY_NIBBLES && Normal(u) && FrontierOk(cr, f) && Canonical(Flatten(f), KEY_NIBBLES)
    ensures StepOk(cr, f, FNet(key, u, pol))
  {
    hide RamOk, Canonical, AccountsPlain, MemoOk, PrefixOk, RamNet, NetNode, Flatten, RootAfter, Structured, Get;
    var n := Flatten(f);
    if Structured(Get(n, key)) {
      NetCommutes(cr, pol, f, key, u);
      FlattenOk(f, KEY_NIBBLES);
      NetPlain(n, key, u);
      RootStep(cr, pol, f, RamNet(cr, pol, f, [], key, u), NetNode(n, key, u));
    }
  }

  /** A net update keeps storage tries plain and empties no trie of two keys. */
  lemma NetPlain(n: Node, key: Path, u: B.Net)
    requires |key| == KEY_NIBBLES && NetOk(u) && RecordOk(n, key) && AccountsPlain(n, KEY_NIBBLES) && (n.Branch? || n.Extension?)
    ensures var d := NetNode(n, key, u); !d.Removed? && (d.Changed? ==> AccountsPlain(d.now, KEY_NIBBLES))
  {
    hide Canonical, NetNode, NetItem, Updated, AccountsPlain, ValuesOnly, Get;
    NetNodeSpec(n, key, u);
    var k, l := TwoKeys(n, KEY_NIBBLES);
    assert k != l;
    var d := NetNode(n, key, u);
    if d.Changed? {
      PlainStays(n, d.now, key, NetItem(Get(n, key), u).item);
    }
  }

  /** A delete that reports a change leaves another trie. */
  lemma ChangeShows(n: Node, key: Path, del: DeleteOp)
    requires DeleteOpOk(del) && Canonical(n, |key|)
    ensures var r := Delete(n, key, del); r.Ok? && r.value.Changed? ==> r.value.now != n
  {
    hide Canonical, Delete, ApplyDelete;
    DeleteSpec(n, key, del);
    var o := Get(n, key);
    if o.Some? && ItemOk(o) {
      ItemChanges(o.value, del);
    }
  }

  lemma ItemChanges(item: Item, del: DeleteOp)
    requires DeleteOpOk(del) && ItemOk(Some(item))
    ensures ApplyDelete(item, del) != Ok(Changed(item))
  {
    hide Canonical, Delete;
    if del.DeleteSlot? && item.Account? {
      DeleteSpec(item.storage, del.slot, DeleteValue);
    }
  }

  /** A frontier always holds two keys, so no delete empties it. */
  lemma NeverRemoved(n: Node, key: Path, del: DeleteOp)
    requires |key| == KEY_NIBBLES && DeleteOpOk(del) && Canonical(n, KEY_NIBBLES) && (n.Branch? || n.Extension?)
    ensures Delete(n, key, del) != Ok(Removed)
  {
    hide Canonical, Delete, Updated;
    DeleteSpec(n, key, del);
    var k, l := TwoKeys(n, KEY_NIBBLES);
    assert k != l;
  }

  lemma DeletedPlain(n: Node, key: Path, del: DeleteOp)
    requires |key| == KEY_NIBBLES && DeleteOpOk(del) && Canonical(n, KEY_NIBBLES) && AccountsPlain(n, KEY_NIBBLES)
    ensures var r := Delete(n, key, del); r.Ok? && r.value.Changed? ==> AccountsPlain(r.value.now, KEY_NIBBLES)
  {
    hide Canonical, Delete, Updated, AccountsPlain, ApplyDelete, ValuesOnly;
    DeleteSpec(n, key, del);
    PlainAt(n, key);
    if Get(n, key).Some? {
      ApplyDeletePlain(Get(n, key).value, del);
    }
    var r := Delete(n, key, del);
    if r.Ok? && r.value.Changed? {
      var a := ApplyDelete(Get(n, key).value, del);
      PlainStays(n, r.value.now, key, if a.value.Changed? then Some(a.value.now) else None);
    }
  }

  /** A collapse at the root lifts the survivor's branch back into RAM. */
  lemma CollapsedRoot(cr: Crypto, pol: Policy, edge: Path, survivor: Slot)
    requires 0 < |edge| <= KEY_NIBBLES && survivor != Free && !survivor.Ram? && SlotOk(survivor, KEY_NIBBLES - |edge|)
    ensures var n := PrependPath(FlattenSlot(survivor), edge);
      && (!n.Leaf? <==> (survivor.Disk? || survivor.Mem?) && HasTopBranch(PrependPath(survivor.rec.node, edge)))
      && (!n.Leaf? ==>
        && n == PrependPath(survivor.rec.node, edge) && HasTopBranch(n)
        && var g := Promote(cr, pol, Rec([], n));
        Flatten(g) == n && RamOk(g, KEY_NIBBLES) && g != REmpty && MemoOk(cr, g) && PrefixOk(g, []))
  {
    hide RamOk, Canonical, MemoOk, PrefixOk, Promote, Flatten;
    FlattenSlotOk(survivor, KEY_NIBBLES - |edge|);
    var n := PrependPath(FlattenSlot(survivor), edge);
    if !survivor.Promoted? {
      CanonicalPrepend(survivor.rec.node, edge, KEY_NIBBLES - |edge|);
      CanonicalTop(n, KEY_NIBBLES);
      if !n.Leaf? {
        PromoteFlattens(cr, pol, Rec([], n), KEY_NIBBLES);
        PromoteMemo(cr, pol, Rec([], n));
        PromotePrefix(cr, pol, Rec([], n));
      }
    }
  }

  lemma CanonicalTop(n: Node, len: nat)
    requires Canonical(n, len) && n != Empty
    ensures n.Leaf? || HasTopBranch(n)
  {
  }

  ghost predicate AllWellFormed(ops: seq<FrontierOp>) {
    forall i :: 0 <= i < |ops| ==> WellFormed(ops[i])
  }

  ghost function Run(cr: Crypto, f: RamNode, ops: seq<FrontierOp>): Result<RamNode>
    requires AllWellFormed(ops)
    decreases |ops|
  {
    if ops == [] then Ok(f)
    else
      var r := Step(cr, f, ops[0]);
      if r.Err? then Err else Run(cr, r.value, ops[1..])
  }

  /** No step of the run meets an account-space slot at 64 nibbles. */
  ghost predicate RunClear(cr: Crypto, f: RamNode, ops: seq<FrontierOp>)
    requires AllWellFormed(ops)
    decreases |ops|
  {
    ops != [] ==> Clear(f, ops[0]) && (Step(cr, f, ops[0]).Ok? ==> RunClear(cr, Step(cr, f, ops[0]).value, ops[1..]))
  }

  /** Every step of the run keeps the frontier sound and commutes with flattening. */
  ghost predicate RunOk(cr: Crypto, f: RamNode, ops: seq<FrontierOp>)
    requires AllWellFormed(ops)
    decreases |ops|
  {
    && FrontierOk(cr, f)
    && (ops != [] ==>
      && Canonical(Flatten(f), KEY_NIBBLES) && StepOk(cr, f, ops[0])
      && (Step(cr, f, ops[0]).Ok? ==> RunOk(cr, Step(cr, f, ops[0]).value, ops[1..])))
  }

  /** The run on one record trie. */
  ghost predicate RecordRun(n: Node, ops: seq<FrontierOp>, m: Node)
    decreases |ops|
  {
    if ops == [] then m == n
    else
      && WellFormed(ops[0]) && Canonical(n, KEY_NIBBLES)
      && RecordStep(n, ops[0]).Ok? && RecordRun(RecordStep(n, ops[0]).value, ops[1..], m)
  }

  /** From a live frontier, every step of a run is right if and only if the run is clear. */
  lemma {:induction false} RunOkIffClear(cr: Crypto, f: RamNode, ops: seq<FrontierOp>)
    requires FrontierOk(cr, f) && AllWellFormed(ops)
    ensures RunOk(cr, f, ops) <==> RunClear(cr, f, ops)
    decreases |ops|
  {
    hide Canonical, Step, RecordStep, Flatten, RamOk, MemoOk, PrefixOk, AccountsPlain, Clear;
    if ops != [] {
      StepCommutes(cr, f, ops[0]);
      var r := Step(cr, f, ops[0]);
      if StepOk(cr, f, ops[0]) && r.Ok? {
        RunOkIffClear(cr, r.value, ops[1..]);
      }
    }
  }

  /** Every successful clear run, whatever it promotes, splits, collapses, re-homes, spills,
      relocates or memoises, ends in a live frontier and flattens to the record run. */
  lemma {:induction false} RunCommutes(cr: Crypto, f: RamNode, ops: seq<FrontierOp>)
    requires FrontierOk(cr, f) && AllWellFormed(ops) && RunClear(cr, f, ops) && Run(cr, f, ops).Ok?
    ensures FrontierOk(cr, Run(cr, f, ops).value) && RecordRun(Flatten(f), ops, Flatten(Run(cr, f, ops).value))
    decreases |ops|
  {
    hide Canonical, Step, RecordStep, Flatten, RamOk, MemoOk, PrefixOk, AccountsPlain, Clear;
    if ops != [] {
      StepCommutes(cr, f, ops[0]);
      RunCommutes(cr, Step(cr, f, ops[0]).value, ops[1..]);
    }
  }

  /** Only the content operations of a run, without their placement policies. */
  datatype Edit = Put(key: Path, put: LeafOp) | Del(key: Path, del: DeleteOp) | Net(key: Path, net: B.Net)

  predicate IsEdit(o: FrontierOp) {
    o.FInsert? || o.FDelete? || o.FNet?
  }

  function EditOf(o: FrontierOp): Edit
    requires IsEdit(o)
  {
    match o
    case FInsert(key, put, _) => Edit.Put(key, put)
    case FDelete(key, del, _) => Del(key, del)
    case FNet(key, net, _) => Edit.Net(key, net)
  }

  function Edits(ops: seq<FrontierOp>): seq<Edit> {
    if ops == [] then []
    else (if IsEdit(ops[0]) then [EditOf(ops[0])] else []) + Edits(ops[1..])
  }

  lemma {:induction false} SkipLayout(n: Node, ops: seq<FrontierOp>, m: Node) returns (rest: seq<FrontierOp>)
    requires RecordRun(n, ops, m)
    ensures RecordRun(n, rest, m) && Edits(rest) == Edits(ops) && |rest| <= |ops|
    ensures rest != [] ==> IsEdit(rest[0])
    decreases |ops|
  {
    if ops == [] || IsEdit(ops[0]) {
      rest := ops;
    } else {
      rest := SkipLayout(n, ops[1..], m);
    }
  }

  lemma SameEdit(n: Node, x: FrontierOp, y: FrontierOp)
    requires IsEdit(x) && IsEdit(y) && EditOf(x) == EditOf(y) && WellFormed(x) && WellFormed(y) && Canonical(n, KEY_NIBBLES)
    ensures RecordStep(n, x) == RecordStep(n, y)
  {
    hide Canonical, Insert, Delete, Structured, NetNode, BlockRecord.Left, Get;
  }

  /** The record run is determined by the edits alone. */
  lemma {:induction false} EditsDetermine(n: Node, ops: seq<FrontierOp>, m: Node, ops': seq<FrontierOp>, m': Node)
    requires RecordRun(n, ops, m) && RecordRun(n, ops', m') && Edits(ops) == Edits(ops')
    ensures m == m'
    decreases |ops|, |ops'|
  {
    hide Canonical, Insert, Delete, Structured, NetNode, BlockRecord.Left, Get, RecordStep;
    var a := SkipLayout(n, ops, m);
    var b := SkipLayout(n, ops', m');
    if a != [] && b != [] {
      assert Edits(a)[0] == Edits(b)[0];
      assert Edits(a)[1..] == Edits(a[1..]) && Edits(b)[1..] == Edits(b[1..]);
      SameEdit(n, a[0], b[0]);
      EditsDetermine(RecordStep(n, a[0]).value, a[1..], m, b[1..], m');
    }
  }

  /** Layout never shows: two clear runs with the same edits from frontiers with the same
      contents end with the same contents, hence the same lookups and the same root
      whenever no frontier child is small enough to be inlined. */
  lemma LayoutNeverShows(cr: Crypto, f: RamNode, ops: seq<FrontierOp>, f': RamNode, ops': seq<FrontierOp>)
    requires FrontierOk(cr, f) && AllWellFormed(ops) && RunClear(cr, f, ops) && Run(cr, f, ops).Ok?
    requires FrontierOk(cr, f') && AllWellFormed(ops') && RunClear(cr, f', ops') && Run(cr, f', ops').Ok?
    requires Flatten(f) == Flatten(f') && Edits(ops) == Edits(ops')
    ensures var g, g' := Run(cr, f, ops).value, Run(cr, f', ops').value;
      && Flatten(g) == Flatten(g')
      && (AllHashed(cr, g) && AllHashed(cr, g') ==> Answer(cr, Hashed(cr, g)) == Answer(cr, Hashed(cr, g')) == Root(cr, Flatten(g)))
  {
    hide Canonical, Run, RunClear, RecordRun, Flatten, RamOk, MemoOk, PrefixOk, Edits, Hashed, Answer, RamHash, Root, AllHashed;
    var g, g' := Run(cr, f, ops).value, Run(cr, f', ops').value;
    RunCommutes(cr, f, ops);
    RunCommutes(cr, f', ops');
    EditsDetermine(Flatten(f), ops, Flatten(g), ops', Flatten(g'));
    HashedKeepsAll(cr, g, KEY_NIBBLES, []);
    HashedKeepsAll(cr, g', KEY_NIBBLES, []);
    if AllHashed(cr, g) && AllHashed(cr, g') {
      HashIsFlatRoot(cr, g, KEY_NIBBLES);
      HashIsFlatRoot(cr, g', KEY_NIBBLES);
    }
  }

  /** After any clear run, hashing with memos answers the bottom-up recomputation. */
  lemma RunHashIsExact(cr: Crypto, f: RamNode, ops: seq<FrontierOp>)
    requires FrontierOk(cr, f) && AllWellFormed(ops) && RunClear(cr, f, ops) && Run(cr, f, ops).Ok?
    ensures Answer(cr, Hashed(cr, Run(cr, f, ops).value)) == RamHash(cr, Run(cr, f, ops).value)
  {
    hide Run, RunClear, Answer, Hashed, RamHash, Kept, Flatten;
    RunCommutes(cr, f, ops);
    HashedKeepsAll(cr, Run(cr, f, ops).value, KEY_NIBBLES, []);
  }

  /** After any clear run, looking up the path a record stores finds exactly its pointer, and
      installing a relocated pointer there cannot fail. */
  lemma RunFindsRecords(cr: Crypto, f: RamNode, ops: seq<FrontierOp>, ptr: DiskPtr, rec: Rec, ptr': DiskPtr)
    requires FrontierOk(cr, f) && AllWellFormed(ops) && RunClear(cr, f, ops) && Run(cr, f, ops).Ok?
    requires HasRec(Run(cr, f, ops).value, ptr, rec)
    ensures var g := Run(cr, f, ops).value;
      && FindPtr(g, rec.prefix) == Some(ptr)
      && InstallPtr(g, rec.prefix, ptr').Some? && FindPtr(InstallPtr(g, rec.prefix, ptr').value, rec.prefix) == Some(ptr')
  {
    hide Run, RunClear, RamOk, PrefixOk, MemoOk, HasRec, FindPtr, InstallPtr, Flatten;
    var g := Run(cr, f, ops).value;
    RunCommutes(cr, f, ops);
    StoredPathFindsRecord(g, [], KEY_NIBBLES, ptr, rec);
    assert rec.prefix[0..] == rec.prefix;
    InstallIffFound(g, rec.prefix, ptr');
  }
}

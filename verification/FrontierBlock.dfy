/** A whole block on the frontier.  A branch on top is fanned out: each of the sixteen slots
    takes its own accounts' net updates, with no other slot in sight, and the branch
    collapses once at the end.  Other tops take the updates one by one.  Both leave the trie
    of the block.
 */
module FrontierBlock {
  import opened Trie
  import opened TrieLaws
  import opened TrieHistory
  import opened TrieRoot
  import opened Frontier
  import opened FrontierFlatten
  import opened FrontierInvariants
  import opened FrontierWalk
  import opened FrontierNet
  import opened FrontierRuns
  import opened PlainStorage
  import opened BlockRecord
  import opened BlockTrie
  import B = BlockOps

  datatype Update = Update(key: Path, net: B.Net)

  predicate UpdatesOk(us: seq<Update>) {
    forall i :: 0 <= i < |us| ==> |us[i].key| == KEY_NIBBLES && Normal(us[i].net)
  }

  /** The block's net updates, one for each touched account, in some order. */
  ghost predicate Normalised(us: seq<Update>, ops: seq<B.KeyedOp>) {
    && (forall i, j :: 0 <= i < j < |us| ==> us[i].key != us[j].key)
    && (forall k: Path :: k in B.Touched(ops) <==> exists i :: 0 <= i < |us| && us[i].key == k)
    && forall i :: 0 <= i < |us| ==> us[i].net == B.NetOf(B.OpsFor(ops, us[i].key))
  }

  // --------------------------------------------------------------------- fan-out

  function SlotAfter(s: Slot, d: Deleted<Slot>): Slot {
    match d case Absent => s case Changed(t) => t case Removed => Free
  }

  /** One slot taking its accounts' updates. */
  ghost function SlotBlock(cr: Crypto, pol: Policy, s: Slot, us: seq<Update>): Result<Slot>
    requires UpdatesOk(us)
    decreases |us|
  {
    if us == [] then Ok(s)
    else
      var Update(key, net) := us[0];
      var r := SlotNet(cr, pol, s, [key[0]], key[1..], net);
      if r.Err? then Err else SlotBlock(cr, pol, SlotAfter(s, r.value), us[1..])
  }

  /** The updates of the accounts below slot `i`, in order. */
  function Bucket(us: seq<Update>, i: Nibble): (r: seq<Update>)
    requires UpdatesOk(us)
    ensures UpdatesOk(r) && forall j :: 0 <= j < |r| ==> r[j].key[0] == i
  {
    if us == [] then [] else (if us[0].key[0] == i then [us[0]] else []) + Bucket(us[1..], i)
  }

  ghost function FannedSlot(cr: Crypto, pol: Policy, slots: seq<Slot>, us: seq<Update>, i: Nibble): Result<Slot>
    requires UpdatesOk(us) && |slots| == 16
  {
    SlotBlock(cr, pol, slots[i], Bucket(us, i))
  }

  ghost function FannedSlots(cr: Crypto, pol: Policy, slots: seq<Slot>, us: seq<Update>): (ss: seq<Slot>)
    requires UpdatesOk(us) && |slots| == 16 && forall i: Nibble :: FannedSlot(cr, pol, slots, us, i).Ok?
    ensures |ss| == 16 && forall i: Nibble :: ss[i] == FannedSlot(cr, pol, slots, us, i).value
  {
    seq(16, i requires 0 <= i < 16 => FannedSlot(cr, pol, slots, us, i).value)
  }

  /** The sixteen slots on their own, then one collapse of the top branch. */
  ghost function FanOut(cr: Crypto, pol: Policy, f: RamNode, us: seq<Update>): Result<RamNode>
    requires UpdatesOk(us) && f.RBranch?
  {
    if |f.slots| == 16 && forall i: Nibble :: FannedSlot(cr, pol, f.slots, us, i).Ok?
    then RootAfter(cr, pol, f, Ok(RCollapse(FannedSlots(cr, pol, f.slots, us))))
    else Err
  }

  /** The updates one by one from the root. */
  ghost function Serial(cr: Crypto, pol: Policy, f: RamNode, us: seq<Update>): Result<RamNode>
    requires UpdatesOk(us)
    decreases |us|
  {
    if us == [] then Ok(f)
    else
      var r := RootAfter(cr, pol, f, RamNet(cr, pol, f, [], us[0].key, us[0].net));
      if r.Err? then Err else Serial(cr, pol, r.value, us[1..])
  }

  // ------------------------------------------------------------------ what is owed

  ghost predicate AllStructured(n: Node, len: nat) {
    forall k: Path :: |k| == len ==> Structured(Get(n, k))
  }

  /** The item of account `k` after the updates. */
  ghost function ItemAfter(o: Option<Item>, us: seq<Update>, k: Path): (r: Option<Item>)
    requires UpdatesOk(us) && Structured(o)
    ensures Structured(r)
    decreases |us|
  {
    if us == [] then o else ItemAfter(if us[0].key == k then NetItem(o, us[0].net).item else o, us[1..], k)
  }

  /** The trie below `edge` holds every account as the updates leave it. */
  ghost predicate Becomes(n: Node, m: Node, edge: Path, len: nat, us: seq<Update>)
    requires UpdatesOk(us)
  {
    forall k: Path :: |k| == len ==> Structured(Get(n, k)) && Get(m, k) == ItemAfter(Get(n, k), us, edge + k)
  }

  lemma {:induction false} BucketIsEnough(o: Option<Item>, us: seq<Update>, i: Nibble, k: Path)
    requires UpdatesOk(us) && Structured(o) && k != [] && k[0] == i
    ensures ItemAfter(o, Bucket(us, i), k) == ItemAfter(o, us, k)
    decreases |us|
  {
    hide Structured, NetItem;
    if us != [] {
      var o' := if us[0].key == k then NetItem(o, us[0].net).item else o;
      BucketIsEnough(o', us[1..], i, k);
      var rest := Bucket(us[1..], i);
      if us[0].key[0] == i {
        assert Bucket(us, i)[0] == us[0] && Bucket(us, i)[1..] == rest;
      } else {
        assert Bucket(us, i) == rest;
      }
    }
  }

  lemma StructuredIsPlain(n: Node, len: nat)
    requires AllStructured(n, len)
    ensures FlatPlain(n, len, false) && AccountsPlain(n, len)
  {
    hide ValuesOnly, Canonical, Get;
  }

  /** One update on one slot of the top branch. */
  lemma SlotUpdates(cr: Crypto, pol: Policy, s: Slot, key: Path, u: B.Net)
    requires |key| == KEY_NIBBLES && Normal(u) && SlotSound(cr, s, KEY_NIBBLES - 1, [key[0]]) && AllStructured(FlattenSlot(s), KEY_NIBBLES - 1)
    ensures var r := SlotNet(cr, pol, s, [key[0]], key[1..], u);
      && r.Ok? && SlotSound(cr, SlotAfter(s, r.value), KEY_NIBBLES - 1, [key[0]])
      && Updated(FlattenSlot(s), FlattenSlot(SlotAfter(s, r.value)), key[1..], NetItem(Get(FlattenSlot(s), key[1..]), u).item)
  {
    hide Structured, NetItem, SlotNet, Updated, FlattenSlot, SlotOk, SlotMemoOk, SlotPrefixOk, OnlyKey, FlatPlain, SlotPlain, Get;
    StructuredIsPlain(FlattenSlot(s), KEY_NIBBLES - 1);
    SlotPlainFromFlat(s, KEY_NIBBLES - 1, false);
    SlotNetDoes(cr, pol, s, [key[0]], key[1..], u);
    UpdatedNot(FlattenSlot(s), key[1..]);
    FreeSound(cr);
    if OnlyKey(FlattenSlot(s), key[1..]) {
      OnlyKeyEmpties(FlattenSlot(s), key[1..]);
    }
  }

  lemma FreeSound(cr: Crypto)
    ensures FlattenSlot(Free) == Empty && forall len: nat, p: Path :: SlotSound(cr, Free, len, p)
  {
  }

  lemma StaysStructured(n: Node, m: Node, key: Path, o: Option<Item>)
    requires AllStructured(n, |key|) && Updated(n, m, key, o) && Structured(o)
    ensures AllStructured(m, |key|)
  {
    hide Structured, Get;
  }

  lemma BecomesOn(n: Node, m: Node, p: Node, i: Nibble, us: seq<Update>)
    requires UpdatesOk(us) && us != [] && us[0].key[0] == i && AllStructured(n, KEY_NIBBLES - 1)
    requires Updated(n, m, us[0].key[1..], NetItem(Get(n, us[0].key[1..]), us[0].net).item) && Becomes(m, p, [i], KEY_NIBBLES - 1, us[1..])
    ensures Becomes(n, p, [i], KEY_NIBBLES - 1, us)
  {
    hide Structured, NetItem, Get;
    var key := us[0].key;
    forall k: Path | |k| == KEY_NIBBLES - 1 ensures Get(p, k) == ItemAfter(Get(n, k), us, [i] + k) {
      assert ([i] + k)[1..] == k && key == [key[0]] + key[1..];
      assert [i] + k == key <==> k == key[1..];
    }
  }

  lemma {:induction false} SlotBlockSpec(cr: Crypto, pol: Policy, s: Slot, i: Nibble, us: seq<Update>)
    requires UpdatesOk(us) && (forall j :: 0 <= j < |us| ==> us[j].key[0] == i)
    requires SlotSound(cr, s, KEY_NIBBLES - 1, [i]) && AllStructured(FlattenSlot(s), KEY_NIBBLES - 1)
    ensures var r := SlotBlock(cr, pol, s, us);
      r.Ok? && SlotSound(cr, r.value, KEY_NIBBLES - 1, [i]) && Becomes(FlattenSlot(s), FlattenSlot(r.value), [i], KEY_NIBBLES - 1, us)
    decreases |us|
  {
    hide Structured, NetItem, SlotNet, SlotSound, FlattenSlot, Updated, Becomes, Get;
    if us == [] {
      BecomesItself(FlattenSlot(s), [i], KEY_NIBBLES - 1);
    } else {
      var Update(key, net) := us[0];
      SlotUpdates(cr, pol, s, key, net);
      var r := SlotNet(cr, pol, s, [key[0]], key[1..], net);
      var t := SlotAfter(s, r.value);
      StaysStructured(FlattenSlot(s), FlattenSlot(t), key[1..], NetItem(Get(FlattenSlot(s), key[1..]), net).item);
      SlotBlockSpec(cr, pol, t, i, us[1..]);
      BecomesOn(FlattenSlot(s), FlattenSlot(t), FlattenSlot(SlotBlock(cr, pol, t, us[1..]).value), i, us);
    }
  }

  lemma BecomesItself(n: Node, edge: Path, len: nat)
    requires AllStructured(n, len)
    ensures Becomes(n, n, edge, len, [])
  {
  }

  // ------------------------------------------------------------ the collapse at last

  lemma SlotsStructured(children: seq<Node>, len: nat)
    requires |children| == 16 && 0 < len && AllStructured(Branch(children), len)
    ensures forall i: Nibble :: AllStructured(children[i], len - 1)
  {
    forall i: Nibble, k: Path | |k| == len - 1 ensures Structured(Get(children[i], k)) {
      assert ([i] + k)[1..] == k;
      assert Get(Branch(children), [i] + k) == Get(children[i], k);
    }
  }

  lemma BranchBecomes(children: seq<Node>, cs: seq<Node>, us: seq<Update>)
    requires UpdatesOk(us) && |children| == |cs| == 16
    requires forall i: Nibble :: Becomes(children[i], cs[i], [i], KEY_NIBBLES - 1, Bucket(us, i))
    ensures Becomes(Branch(children), Branch(cs), [], KEY_NIBBLES, us)
  {
    hide Structured, ItemAfter, Get, Becomes, Bucket;
    forall k: Path | |k| == KEY_NIBBLES
      ensures Structured(Get(Branch(children), k)) && Get(Branch(cs), k) == ItemAfter(Get(Branch(children), k), us, k) {
      GetsBranch(children, k);
      GetsBranch(cs, k);
      BecomesAt(children[k[0]], cs[k[0]], us, k);
    }
    BecomesAll(Branch(children), Branch(cs), us);
  }

  lemma BecomesAt(child: Node, c: Node, us: seq<Update>, k: Path)
    requires UpdatesOk(us) && |k| == KEY_NIBBLES && Becomes(child, c, [k[0]], KEY_NIBBLES - 1, Bucket(us, k[0]))
    ensures Structured(Get(child, k[1..])) && Get(c, k[1..]) == ItemAfter(Get(child, k[1..]), us, k)
  {
    hide Structured, ItemAfter, Get, Bucket;
    assert Structured(Get(child, k[1..]));
    BucketIsEnough(Get(child, k[1..]), us, k[0], k);
    assert [k[0]] + k[1..] == k;
  }

  lemma BecomesAll(n: Node, m: Node, us: seq<Update>)
    requires UpdatesOk(us) && forall k: Path :: |k| == KEY_NIBBLES ==> Structured(Get(n, k)) && Get(m, k) == ItemAfter(Get(n, k), us, k)
    ensures Becomes(n, m, [], KEY_NIBBLES, us)
  {
    hide Structured, ItemAfter, Get;
    assert forall k: Path :: [] + k == k;
  }

  /** Sound slots collapse to a sound top with the branch's lookups. */
  lemma CollapseAny(cr: Crypto, ss: seq<Slot>)
    requires |ss| == 16 && forall i: Nibble :: SlotSound(cr, ss[i], KEY_NIBBLES - 1, [i])
    ensures |LiveRam(ss)| == 0 ==> RCollapse(ss) == RRemoved && forall k: Path :: |k| == KEY_NIBBLES ==> Get(Branch(FlattenSlots(ss)), k) == None
    ensures |LiveRam(ss)| > 0 ==> (
      var d := Collapse(FlattenSlots(ss));
      && DeletesAs(Ok(RCollapse(ss)), Ok(d), KEY_NIBBLES) && DeletedMemoOk(cr, Ok(RCollapse(ss))) && DeletedPrefixOk(Ok(RCollapse(ss)), [])
      && d.Changed? && Canonical(d.now, KEY_NIBBLES) && SameLookups(Branch(FlattenSlots(ss)), d.now, KEY_NIBBLES))
  {
    hide SlotOk, SlotMemoOk, SlotPrefixOk, FlattenSlot, FlattenSlots, LiveRam, LiveSlots, RCollapse, Collapse, DeletesAs, Canonical, Get, SameLookups;
    forall i: Nibble ensures SlotOk(ss[i], KEY_NIBBLES - 1) && SlotMemoOk(cr, ss[i]) && SlotPrefixOk(ss[i], [] + [i]) {
      assert SlotSound(cr, ss[i], KEY_NIBBLES - 1, [i]) && [] + [i] == [i];
    }
    forall i | 0 <= i < 16 ensures (ss[i] == Free <==> FlattenSlot(ss[i]) == Empty) && Canonical(FlattenSlots(ss)[i], KEY_NIBBLES - 1) {
      FlattenSlotOk(ss[i], KEY_NIBBLES - 1);
    }
    if |LiveRam(ss)| == 0 {
      NoneLive(ss);
    } else {
      RCollapseCases(ss, KEY_NIBBLES);
      CollapseMemo(cr, ss);
      CollapsePrefix(ss, []);
      LiveAgree(ss);
      LiveCollapse(FlattenSlots(ss));
    }
  }

  lemma NoneLive(ss: seq<Slot>)
    requires |ss| == 16 && |LiveRam(ss)| == 0
    ensures RCollapse(ss) == RRemoved && forall k: Path :: |k| == KEY_NIBBLES ==> Get(Branch(FlattenSlots(ss)), k) == None
  {
    forall i | 0 <= i < 16 ensures FlattenSlots(ss)[i] == Empty {
      assert i !in LiveRam(ss);
    }
  }

  lemma LiveCollapse(cs: seq<Node>)
    requires |cs| == 16 && |LiveSlots(cs)| >= 1 && forall i :: 0 <= i < 16 ==> Canonical(cs[i], KEY_NIBBLES - 1)
    ensures var d := Collapse(cs); d.Changed? && Canonical(d.now, KEY_NIBBLES) && SameLookups(Branch(cs), d.now, KEY_NIBBLES)
  {
    hide Get, SameLookups, Canonical, LiveSlots, PrependPath;
    if |LiveSlots(cs)| == 1 {
      LoneCollapse(cs, KEY_NIBBLES);
    } else {
      BranchCanonical(cs, KEY_NIBBLES);
      SameSelf(Branch(cs), KEY_NIBBLES);
    }
  }

  // -------------------------------------------------------- items and the block law

  lemma {:induction false} NetOfNormal(ops: seq<B.StateOp>)
    requires forall i :: 0 <= i < |ops| ==> StateOpOk(ops[i])
    ensures Normal(B.NetOf(ops))
  {
    if ops != [] {
      NetOfNormal(ops[..|ops| - 1]);
    }
  }

  lemma {:induction false} WritesFront(a: Option<B.Acct>, w: B.Write, ws: seq<B.Write>)
    ensures B.ApplyWrites(a, [w] + ws) == B.ApplyWrites(B.Act(a, B.WriteOp(w)), ws)
    decreases |ws|
  {
    hide B.Act;
    var all := [w] + ws;
    if ws == [] {
      assert all[..0] == [] && B.ApplyWrites(a, all[..0]) == a;
    } else {
      WritesFront(a, w, ws[..|ws| - 1]);
      assert all[..|all| - 1] == [w] + ws[..|ws| - 1];
    }
  }

  lemma CutActs(o: Option<Item>, op: DeleteOp)
    requires Structured(o) && DeleteOpOk(op) && !op.DeleteValue?
    ensures AcctOf(CutItem(o, op).item) == B.Act(AcctOf(o), DelOp(op))
  {
    hide Structured, ApplyDelete, SlotsOf;
    if o.Some? {
      ApplyDeleteActs(o.value, op);
    }
  }

  lemma PutActs(o: Option<Item>, op: LeafOp)
    requires Structured(o) && OpOk(op) && !op.SetValue?
    ensures AcctOf(PutItem(o, op).item) == B.Act(AcctOf(o), PutOp(op))
  {
    hide Canonical, ValuesOnly, Resolve, SlotsOf;
    ResolveActs(o, op);
  }

  lemma {:induction false} WritesAct(o: Option<Item>, ws: seq<B.Write>, changed: bool)
    requires Structured(o) && WritesOk(ws)
    ensures AcctOf(WriteItems(o, ws, changed).item) == B.ApplyWrites(AcctOf(o), ws)
    decreases |ws|
  {
    hide Structured, PutItem, CutItem, AcctOf, B.Act, B.ApplyWrites;
    if ws == [] {
      NoWrites(AcctOf(o));
    } else {
      var w := ws[0];
      if w.value.Some? {
        PutActs(o, SetSlot(w.slot, w.value.value));
      } else {
        CutActs(o, DeleteSlot(w.slot));
      }
      var x := WriteItem(o, w);
      WritesAct(x.item, ws[1..], changed || x.changed);
      assert ws == [w] + ws[1..];
      WritesFront(AcctOf(o), w, ws[1..]);
    }
  }

  lemma NoWrites(a: Option<B.Acct>)
    ensures B.ApplyWrites(a, []) == a
  {
  }

  lemma NothingToWipe(o: Option<Item>)
    requires Structured(o) && Collect(StorageOf(o)) == []
    ensures B.Act(AcctOf(o), B.WipeStorage) == AcctOf(o)
  {
  }

  /** The net update of the item is the net update of the account. */
  lemma NetItemActs(o: Option<Item>, u: B.Net)
    requires Structured(o) && NetOk(u)
    ensures AcctOf(NetItem(o, u).item) == B.ApplyNet(AcctOf(o), u)
  {
    if !u.account.Delete? {
      hide Structured, PutItem, CutItem, WriteItems, Collect, AcctOf, B.ApplyWrites, B.Act;
      var wipe := u.wipe && Collect(StorageOf(o)) != [];
      if wipe {
        CutActs(o, WipeStorage);
      } else if u.wipe {
        NothingToWipe(o);
      }
      var x := if wipe then CutItem(o, WipeStorage).item else o;
      if u.account.Set? {
        PutActs(x, SetAccount(u.account.nonce, u.account.balance, u.account.codeHash));
      }
      var p := PrepareItem(o, u);
      WritesAct(p.item, u.slots, p.changed);
    }
  }

  lemma {:induction false} ItemAfterNever(o: Option<Item>, us: seq<Update>, k: Path)
    requires UpdatesOk(us) && Structured(o) && forall i :: 0 <= i < |us| ==> us[i].key != k
    ensures ItemAfter(o, us, k) == o
    decreases |us|
  {
    hide Structured;
    if us != [] {
      ItemAfterNever(o, us[1..], k);
    }
  }

  lemma {:induction false} ItemAfterOnce(o: Option<Item>, us: seq<Update>, i: nat)
    requires UpdatesOk(us) && Structured(o) && i < |us| && forall a, b :: 0 <= a < b < |us| ==> us[a].key != us[b].key
    ensures ItemAfter(o, us, us[i].key) == NetItem(o, us[i].net).item
    decreases |us|
  {
    hide Structured, NetItem;
    var k := us[i].key;
    if i == 0 {
      ItemAfterNever(NetItem(o, us[0].net).item, us[1..], k);
    } else {
      assert us[1..][i - 1] == us[i];
      ItemAfterOnce(o, us[1..], i - 1);
    }
  }

  lemma NormalisedOk(us: seq<Update>, ops: seq<B.KeyedOp>)
    requires BlockOk(ops) && Normalised(us, ops)
    ensures UpdatesOk(us)
  {
    hide NetOk, B.NetOf, B.OpsFor, StateOpOk, Normal;
    forall i | 0 <= i < |us| ensures |us[i].key| == KEY_NIBBLES && Normal(us[i].net) {
      TouchedOk(ops);
      assert us[i].key in B.Touched(ops);
      OpsForOk(ops, us[i].key);
      NetOfNormal(B.OpsFor(ops, us[i].key));
    }
  }

  /** Each account ends as its net update leaves it. */
  lemma AccountAfter(o: Option<Item>, us: seq<Update>, ops: seq<B.KeyedOp>, k: Path)
    requires Structured(o) && UpdatesOk(us) && Normalised(us, ops)
    ensures AcctOf(ItemAfter(o, us, k)) == B.ApplyNet(AcctOf(o), B.NetOf(B.OpsFor(ops, k)))
  {
    hide Structured, AcctOf, NetItem, ItemAfter, B.NetOf, B.OpsFor, B.ApplyNet;
    if k in B.Touched(ops) {
      var i :| 0 <= i < |us| && us[i].key == k;
      ItemAfterOnce(o, us, i);
      NetItemActs(o, us[i].net);
    } else {
      ItemAfterNever(o, us, k);
      B.UntouchedOps(ops, k);
      NoNet(AcctOf(o), []);
    }
  }

  lemma BecomesShows(n: Node, m: Node, w: B.World, us: seq<Update>, ops: seq<B.KeyedOp>)
    requires UpdatesOk(us) && Normalised(us, ops) && BlockOk(ops) && Shows(n, w)
    requires Canonical(m, KEY_NIBBLES) && Becomes(n, m, [], KEY_NIBBLES, us)
    ensures Shows(m, B.ApplyBlock(w, ops))
  {
    hide Structured, AcctOf, NetItem, ItemAfter, B.NetOf, B.OpsFor, B.ApplyNet, B.ApplyBlock, Canonical, Get, Normalised, BlockOk;
    forall k: Path ensures B.At(B.ApplyBlock(w, ops), k) == B.ApplyNet(B.At(w, k), B.NetOf(B.OpsFor(ops, k))) {
      B.ApplyBlockAt(w, ops, k);
    }
    forall k: Path | |k| == KEY_NIBBLES ensures Structured(Get(m, k)) && AcctOf(Get(m, k)) == B.At(B.ApplyBlock(w, ops), k) {
      assert [] + k == k;
      AccountAfter(Get(n, k), us, ops, k);
    }
    BlockKeys(w, ops);
  }

  lemma BlockKeys(w: B.World, ops: seq<B.KeyedOp>)
    requires BlockOk(ops) && forall k: Path :: k in w ==> |k| == KEY_NIBBLES
    ensures forall k: Path :: k in B.ApplyBlock(w, ops) ==> |k| == KEY_NIBBLES
  {
    TouchedOk(ops);
  }

  /** A trie is a single leaf exactly for a world of one account. */
  lemma LeafIsOne(n: Node, w: B.World)
    requires Shows(n, w)
    ensures (n.Empty? <==> w == map[]) && (n.Leaf? <==> |w| == 1)
  {
    hide Canonical, Get, Structured, AcctOf;
    forall k: Path ensures k in w <==> |k| == KEY_NIBBLES && Get(n, k).Some? {
      if |k| == KEY_NIBBLES {
        HeldIsThere(Get(n, k));
        assert AcctOf(Get(n, k)) == B.At(w, k);
      }
    }
    match n
    case Empty =>
      forall k: Path ensures k !in w { NothingThere(k); }
      assert w.Keys == {};
      assert w == map[];
    case Leaf(path, item) =>
      LeafKey(n, KEY_NIBBLES);
      assert w.Keys == {path};
      assert |w| == |w.Keys|;
    case _ =>
      var k, l := TwoKeys(n, KEY_NIBBLES);
      assert k != l && {k, l} <= w.Keys;
      Subset({k, l}, w.Keys);
      assert |w| == |w.Keys|;
  }

  lemma Subset(a: set<Path>, b: set<Path>)
    requires a <= b
    ensures |a| <= |b|
  {
    assert b == a + (b - a);
    assert |b| == |a| + |b - a|;
  }

  lemma HeldIsThere(o: Option<Item>)
    requires Structured(o)
    ensures AcctOf(o).Some? <==> o.Some?
  {
  }

  lemma LeafKey(n: Node, len: nat)
    requires n.Leaf? && Canonical(n, len)
    ensures |n.path| == len && forall k: Path :: Get(n, k).Some? <==> k == n.path
  {
  }

  // ------------------------------------------------------------------ whole blocks

  /** The frontier after a block, and why it may have failed. */
  ghost predicate BlockLands(cr: Crypto, r: Result<RamNode>, w: B.World) {
    && (r.Ok? <==> |w| != 1)
    && (r.Ok? ==> Shows(Flatten(r.value), w) && (if w == map[] then r.value == REmpty else FrontierOk(cr, r.value)))
  }

  lemma FannedIsSound(cr: Crypto, pol: Policy, f: RamNode, us: seq<Update>)
    requires UpdatesOk(us) && FrontierOk(cr, f) && f.RBranch? && AllStructured(Flatten(f), KEY_NIBBLES)
    ensures |f.slots| == 16 && forall i: Nibble :: FannedSlot(cr, pol, f.slots, us, i).Ok?
    ensures var ss := FannedSlots(cr, pol, f.slots, us);
      && (forall i: Nibble :: SlotSound(cr, ss[i], KEY_NIBBLES - 1, [i]))
      && Becomes(Flatten(f), Branch(FlattenSlots(ss)), [], KEY_NIBBLES, us)
  {
    hide RamOk, MemoOk, PrefixOk, AccountsPlain, Flatten, FlattenSlot, SlotSound, SlotBlock, Becomes, AllStructured, Canonical, Bucket;
    SlotsSound(cr, f, KEY_NIBBLES, []);
    BranchFlat(cr, f, KEY_NIBBLES, []);
    SlotsStructured(FlattenSlots(f.slots), KEY_NIBBLES);
    forall i: Nibble
      ensures var r := FannedSlot(cr, pol, f.slots, us, i);
        r.Ok? && SlotSound(cr, r.value, KEY_NIBBLES - 1, [i]) && Becomes(FlattenSlot(f.slots[i]), FlattenSlot(r.value), [i], KEY_NIBBLES - 1, Bucket(us, i)) {
      assert [] + [i] == [i];
      SlotBlockSpec(cr, pol, f.slots[i], i, Bucket(us, i));
    }
    BranchBecomes(FlattenSlots(f.slots), FlattenSlots(FannedSlots(cr, pol, f.slots, us)), us);
  }

  lemma BecomesAs(n: Node, m: Node, m': Node, us: seq<Update>)
    requires UpdatesOk(us) && Becomes(n, m, [], KEY_NIBBLES, us) && SameLookups(m, m', KEY_NIBBLES)
    ensures Becomes(n, m', [], KEY_NIBBLES, us)
  {
    hide Structured, ItemAfter, Get;
  }

  lemma ShowsStructured(n: Node, w: B.World)
    requires Shows(n, w)
    ensures AllStructured(n, KEY_NIBBLES) && AccountsPlain(n, KEY_NIBBLES)
  {
    hide Canonical, ValuesOnly, AcctOf, Get;
  }

  /** The fan-out applies the block: the frontier flattens to the one trie of the world the
      block leaves, or is empty with it, and keeps every invariant.  It fails exactly when the
      block leaves a single account. */
  lemma FanOutIsBlock(cr: Crypto, pol: Policy, f: RamNode, us: seq<Update>, ops: seq<B.KeyedOp>, w: B.World)
    requires FrontierOk(cr, f) && f.RBranch? && BlockOk(ops) && Normalised(us, ops) && Shows(Flatten(f), w)
    ensures UpdatesOk(us) && BlockLands(cr, FanOut(cr, pol, f, us), B.ApplyBlock(w, ops))
  {
    hide FrontierOk, Flatten, Shows, RamOk, RCollapse, FlattenSlots, SlotSound, Collapse, DeletesAs, DeletedMemoOk, DeletedPrefixOk, AllStructured, Becomes,
      Canonical, Get, B.ApplyBlock, BlockOk, Normalised, UpdatesOk, LiveRam, FannedSlot, RootAfter, SameLookups, AccountsPlain;
    NormalisedOk(us, ops);
    ShowsStructured(Flatten(f), w);
    FannedIsSound(cr, pol, f, us);
    var ss := FannedSlots(cr, pol, f.slots, us);
    CollapseAny(cr, ss);
    if |LiveRam(ss)| == 0 {
      Emptied(cr, pol, f, ss, us, ops, w);
    } else {
      var d := Collapse(FlattenSlots(ss));
      BecomesAs(Flatten(f), Branch(FlattenSlots(ss)), d.now, us);
      BecomesShows(Flatten(f), d.now, w, us, ops);
      ShowsStructured(d.now, B.ApplyBlock(w, ops));
      LeafIsOne(d.now, B.ApplyBlock(w, ops));
      RootStep(cr, pol, f, Ok(RCollapse(ss)), d);
      LiveFrontier(cr, RootAfter(cr, pol, f, Ok(RCollapse(ss))), d.now);
    }
  }

  lemma LiveFrontier(cr: Crypto, r: Result<RamNode>, n: Node)
    requires StepsTo(cr, r, Ok(n))
    ensures r.Ok? ==> n != Empty
  {
    hide RamOk, MemoOk, PrefixOk, AccountsPlain;
    if r.Ok? {
      NotEmpty(r.value);
    }
  }

  lemma Emptied(cr: Crypto, pol: Policy, f: RamNode, ss: seq<Slot>, us: seq<Update>, ops: seq<B.KeyedOp>, w: B.World)
    requires UpdatesOk(us) && BlockOk(ops) && Normalised(us, ops) && Shows(Flatten(f), w)
    requires RCollapse(ss) == RRemoved && Becomes(Flatten(f), Branch(FlattenSlots(ss)), [], KEY_NIBBLES, us)
    requires forall k: Path :: |k| == KEY_NIBBLES ==> Get(Branch(FlattenSlots(ss)), k) == None
    ensures BlockLands(cr, RootAfter(cr, pol, f, Ok(RCollapse(ss))), B.ApplyBlock(w, ops))
  {
    hide FlattenSlots, RCollapse, Becomes, Canonical, B.ApplyBlock, BlockOk, Normalised, UpdatesOk, Shows, FrontierOk;
    forall k: Path ensures Get(Empty, k) == None { NothingThere(k); }
    BecomesAs(Flatten(f), Branch(FlattenSlots(ss)), Empty, us);
    EmptyCanonical(KEY_NIBBLES);
    BecomesShows(Flatten(f), Empty, w, us, ops);
    LeafIsOne(Empty, B.ApplyBlock(w, ops));
  }

  /** The updates one by one, where no step leaves a single account. */
  lemma {:induction false} SerialBecomes(cr: Crypto, pol: Policy, f: RamNode, us: seq<Update>)
    requires UpdatesOk(us) && FrontierOk(cr, f) && AllStructured(Flatten(f), KEY_NIBBLES)
    ensures var r := Serial(cr, pol, f, us); r.Ok? ==> FrontierOk(cr, r.value) && Becomes(Flatten(f), Flatten(r.value), [], KEY_NIBBLES, us)
    decreases |us|
  {
    hide RamOk, MemoOk, PrefixOk, AccountsPlain, Flatten, RootAfter, RamNet, NetNode, NetItem, Structured, Becomes, Canonical, Updated, Get, StepOk;
    if us == [] {
      BecomesItself(Flatten(f), [], KEY_NIBBLES);
    } else {
      SerialStep(cr, pol, f, us[0]);
      var r := RootAfter(cr, pol, f, RamNet(cr, pol, f, [], us[0].key, us[0].net));
      if r.Ok? {
        var o := NetItem(Get(Flatten(f), us[0].key), us[0].net).item;
        StaysStructured(Flatten(f), Flatten(r.value), us[0].key, o);
        SerialBecomes(cr, pol, r.value, us[1..]);
        var g := Serial(cr, pol, r.value, us[1..]);
        if g.Ok? {
          BecomesNext(Flatten(f), Flatten(r.value), Flatten(g.value), us);
        }
      }
    }
  }

  lemma SerialStep(cr: Crypto, pol: Policy, f: RamNode, u: Update)
    requires |u.key| == KEY_NIBBLES && Normal(u.net) && FrontierOk(cr, f) && AllStructured(Flatten(f), KEY_NIBBLES)
    ensures var r := RootAfter(cr, pol, f, RamNet(cr, pol, f, [], u.key, u.net));
      r.Ok? ==> FrontierOk(cr, r.value) && Updated(Flatten(f), Flatten(r.value), u.key, NetItem(Get(Flatten(f), u.key), u.net).item)
  {
    hide RamOk, MemoOk, PrefixOk, AccountsPlain, Flatten, RootAfter, RamNet, NetNode, NetItem, Structured, Canonical, Updated, Get, OnlyKey;
    var n := Flatten(f);
    StepCommutes(cr, f, FNet(u.key, u.net, pol));
    NetNodeSpec(n, u.key, u.net);
    UpdatedNot(n, u.key);
    if OnlyKey(n, u.key) {
      OnlyKeyEmpties(n, u.key);
    }
  }

  lemma BecomesNext(n: Node, m: Node, p: Node, us: seq<Update>)
    requires UpdatesOk(us) && us != [] && AllStructured(n, KEY_NIBBLES)
    requires Updated(n, m, us[0].key, NetItem(Get(n, us[0].key), us[0].net).item) && Becomes(m, p, [], KEY_NIBBLES, us[1..])
    ensures Becomes(n, p, [], KEY_NIBBLES, us)
  {
    hide Structured, NetItem, Get;
    forall k: Path | |k| == KEY_NIBBLES ensures Get(p, k) == ItemAfter(Get(n, k), us, [] + k) {
      assert [] + k == k;
    }
  }

  lemma SerialIsBlock(cr: Crypto, pol: Policy, f: RamNode, us: seq<Update>, ops: seq<B.KeyedOp>, w: B.World)
    requires FrontierOk(cr, f) && BlockOk(ops) && Normalised(us, ops) && Shows(Flatten(f), w)
    ensures UpdatesOk(us) && (Serial(cr, pol, f, us).Ok? ==> BlockLands(cr, Serial(cr, pol, f, us), B.ApplyBlock(w, ops)))
  {
    hide FrontierOk, Flatten, Shows, RamOk, AllStructured, Becomes, Canonical, B.ApplyBlock, BlockOk, Normalised, UpdatesOk, Serial, AccountsPlain, MemoOk, PrefixOk;
    NormalisedOk(us, ops);
    ShowsStructured(Flatten(f), w);
    SerialBecomes(cr, pol, f, us);
    var r := Serial(cr, pol, f, us);
    if r.Ok? {
      LiveFlat(cr, r.value);
      BecomesShows(Flatten(f), Flatten(r.value), w, us, ops);
      LeafIsOne(Flatten(r.value), B.ApplyBlock(w, ops));
    }
  }

  // -------------------------------------------------------- when one by one succeeds

  /** The world after some of the updates. */
  function WorldAfter(w: B.World, us: seq<Update>): B.World
    decreases |us|
  {
    if us == [] then w
    else WorldAfter(B.With(w, us[0].key, B.ApplyNet(B.At(w, us[0].key), us[0].net)), us[1..])
  }

  /** No prefix of the updates leaves a single account. */
  ghost predicate NeverOne(w: B.World, us: seq<Update>) {
    forall i :: 0 <= i <= |us| ==> |WorldAfter(w, us[..i])| != 1
  }

  lemma NeverOneSteps(w: B.World, us: seq<Update>)
    requires us != []
    ensures var w' := B.With(w, us[0].key, B.ApplyNet(B.At(w, us[0].key), us[0].net));
      NeverOne(w, us) <==> |w| != 1 && NeverOne(w', us[1..])
  {
    hide B.ApplyNet, B.With;
    var w' := B.With(w, us[0].key, B.ApplyNet(B.At(w, us[0].key), us[0].net));
    assert us[..0] == [];
    forall i | 0 <= i < |us| ensures WorldAfter(w, us[..i + 1]) == WorldAfter(w', us[1..][..i]) {
      assert us[..i + 1][1..] == us[1..][..i];
    }
    if NeverOne(w, us) {
      forall i | 0 <= i <= |us[1..]| ensures |WorldAfter(w', us[1..][..i])| != 1 {
        assert |WorldAfter(w, us[..i + 1])| != 1;
      }
      assert |WorldAfter(w, us[..0])| != 1;
    }
    if |w| != 1 && NeverOne(w', us[1..]) {
      forall i | 0 <= i <= |us| ensures |WorldAfter(w, us[..i])| != 1 {
        if i > 0 {
          assert |WorldAfter(w', us[1..][..i - 1])| != 1;
        }
      }
    }
  }

  lemma StepShows(n: Node, m: Node, w: B.World, u: Update)
    requires Shows(n, w) && |u.key| == KEY_NIBBLES && NetOk(u.net) && Canonical(m, KEY_NIBBLES)
    requires Updated(n, m, u.key, NetItem(Get(n, u.key), u.net).item)
    ensures Shows(m, B.With(w, u.key, B.ApplyNet(B.At(w, u.key), u.net)))
  {
    hide Canonical, Structured, AcctOf, NetItem, B.ApplyNet, Get;
    NetItemActs(Get(n, u.key), u.net);
  }

  /** One update from the root: it fails exactly when it leaves a single account. */
  lemma SerialStepIsExact(cr: Crypto, pol: Policy, f: RamNode, u: Update, w: B.World)
    requires |u.key| == KEY_NIBBLES && Normal(u.net) && FrontierOk(cr, f) && Shows(Flatten(f), w)
    ensures var r, w' := RootAfter(cr, pol, f, RamNet(cr, pol, f, [], u.key, u.net)), B.With(w, u.key, B.ApplyNet(B.At(w, u.key), u.net));
      (r.Ok? <==> |w'| != 1) && (r.Ok? ==> FrontierOk(cr, r.value) && Shows(Flatten(r.value), w'))
  {
    hide RamOk, MemoOk, PrefixOk, AccountsPlain, Flatten, RootAfter, RamNet, NetNode, NetItem, Structured, Canonical, Updated, Get, OnlyKey, B.With, B.ApplyNet, FrontierOk,
      Shows;
    var n := Flatten(f);
    ShowsStructured(n, w);
    StepCommutes(cr, f, FNet(u.key, u.net, pol));
    var m := BlockRecord.Left(n, NetNode(n, u.key, u.net));
    NetLeaves(n, u);
    StepShows(n, m, w, u);
    LeafIsOne(m, B.With(w, u.key, B.ApplyNet(B.At(w, u.key), u.net)));
  }

  lemma NetLeaves(n: Node, u: Update)
    requires |u.key| == KEY_NIBBLES && NetOk(u.net) && RecordOk(n, u.key)
    ensures var m := BlockRecord.Left(n, NetNode(n, u.key, u.net));
      Canonical(m, KEY_NIBBLES) && Updated(n, m, u.key, NetItem(Get(n, u.key), u.net).item)
  {
    hide NetNode, NetItem, Structured, Canonical, Updated, Get, OnlyKey;
    NetNodeSpec(n, u.key, u.net);
    UpdatedNot(n, u.key);
    EmptyCanonical(KEY_NIBBLES);
    if OnlyKey(n, u.key) {
      OnlyKeyEmpties(n, u.key);
    }
  }

  /** One by one succeeds exactly when no prefix of the updates leaves a single account, and
      then leaves the world of all of them. */
  lemma {:induction false} SerialSucceeds(cr: Crypto, pol: Policy, f: RamNode, us: seq<Update>, w: B.World)
    requires UpdatesOk(us) && FrontierOk(cr, f) && Shows(Flatten(f), w)
    ensures var r := Serial(cr, pol, f, us);
      (r.Ok? <==> NeverOne(w, us)) && (r.Ok? ==> FrontierOk(cr, r.value) && Shows(Flatten(r.value), WorldAfter(w, us)))
    decreases |us|
  {
    hide FrontierOk, Flatten, Shows, RootAfter, RamNet, B.With, B.ApplyNet, NeverOne;
    LiveFlat(cr, f);
    LeafIsOne(Flatten(f), w);
    if us == [] {
      NeverOneEmpty(w);
    } else {
      NeverOneSteps(w, us);
      SerialStepIsExact(cr, pol, f, us[0], w);
      var r := RootAfter(cr, pol, f, RamNet(cr, pol, f, [], us[0].key, us[0].net));
      var w' := B.With(w, us[0].key, B.ApplyNet(B.At(w, us[0].key), us[0].net));
      if r.Ok? {
        SerialSucceeds(cr, pol, r.value, us[1..], w');
      } else {
        NeverOneStarts(w', us[1..]);
      }
    }
  }

  lemma NeverOneEmpty(w: B.World)
    ensures NeverOne(w, []) <==> |w| != 1
  {
    var us: seq<Update> := [];
    assert us[..0] == us;
    if NeverOne(w, us) {
      assert |WorldAfter(w, us[..0])| != 1;
    }
  }

  lemma NeverOneStarts(w: B.World, us: seq<Update>)
    requires |w| == 1
    ensures !NeverOne(w, us)
  {
    assert us[..0] == [];
    assert WorldAfter(w, us[..0]) == w;
  }

  lemma LiveFlat(cr: Crypto, f: RamNode)
    requires FrontierOk(cr, f)
    ensures Canonical(Flatten(f), KEY_NIBBLES) && !Flatten(f).Empty? && !Flatten(f).Leaf?
  {
    hide Flatten, Canonical, MemoOk, PrefixOk, AccountsPlain;
    FlattenOk(f, KEY_NIBBLES);
  }

  ghost function Applied(cr: Crypto, pol: Policy, f: RamNode, us: seq<Update>): Result<RamNode>
    requires UpdatesOk(us)
  {
    if f.RBranch? then FanOut(cr, pol, f, us) else Serial(cr, pol, f, us)
  }

  /** Undoing a block on the frontier: applying it and then its inverse block leaves the
      contents the frontier had, exactly when the block wipes no account and rewrites a slot it
      held. */
  lemma FrontierUndone(cr: Crypto, pol: Policy, f: RamNode, us: seq<Update>, ops: seq<B.KeyedOp>, w: B.World, inv: seq<B.KeyedOp>, back: seq<Update>)
    requires FrontierOk(cr, f) && BlockOk(ops) && Normalised(us, ops) && Shows(Flatten(f), w)
    requires B.InverseOf(w, ops, inv) && BlockOk(inv) && Normalised(back, inv)
    ensures UpdatesOk(us) && UpdatesOk(back)
    ensures var g := Applied(cr, pol, f, us);
      g.Ok? && g.value != REmpty && Applied(cr, pol, g.value, back).Ok? ==> (
      var h := Applied(cr, pol, g.value, back).value;
      Flatten(h) == Flatten(f) <==> forall k :: !B.Rewrites(B.At(w, k), B.OpsFor(ops, k)))
  {
    hide FrontierOk, Flatten, Shows, B.ApplyBlock, BlockOk, Normalised, UpdatesOk, Serial, FanOut, B.InverseOf, B.Rewrites, B.OpsFor;
    NormalisedOk(us, ops);
    NormalisedOk(back, inv);
    AppliedIsBlock(cr, pol, f, us, ops, w);
    var g := Applied(cr, pol, f, us);
    if g.Ok? && g.value != REmpty {
      AppliedIsBlock(cr, pol, g.value, back, inv, B.ApplyBlock(w, ops));
      var h := Applied(cr, pol, g.value, back);
      if h.Ok? {
        BlockUndone(Flatten(f), Flatten(h.value), w, ops, inv);
      }
    }
  }

  lemma AppliedIsBlock(cr: Crypto, pol: Policy, f: RamNode, us: seq<Update>, ops: seq<B.KeyedOp>, w: B.World)
    requires FrontierOk(cr, f) && BlockOk(ops) && Normalised(us, ops) && Shows(Flatten(f), w)
    ensures UpdatesOk(us)
    ensures var r := Applied(cr, pol, f, us); r.Ok? || f.RBranch? ==> BlockLands(cr, r, B.ApplyBlock(w, ops))
  {
    hide FrontierOk, Flatten, Shows, B.ApplyBlock, BlockOk, Normalised, UpdatesOk, Serial, FanOut, BlockLands;
    if f.RBranch? {
      FanOutIsBlock(cr, pol, f, us, ops, w);
    } else {
      SerialIsBlock(cr, pol, f, us, ops, w);
    }
  }
}

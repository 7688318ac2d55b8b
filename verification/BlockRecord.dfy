/** Net updates applied to one record trie: what storage tries contain, what each account
    operation does to the trie, and the net update with the inverse operations it pushes.
 */
module BlockRecord {
  import opened Trie
  import opened TrieLaws
  import opened TrieHistory
  import opened TrieRoot
  import opened FrontierFlatten
  import opened PlainStorage
  import B = BlockOps

  // ------------------------------------------------------------ storage contents

  function Beneath(p: Path, es: seq<B.Entry>): (r: seq<B.Entry>)
    ensures |r| == |es| && forall i :: 0 <= i < |es| ==> r[i] == B.Entry(p + es[i].slot, es[i].bytes)
  {
    if es == [] then [] else [B.Entry(p + es[0].slot, es[0].bytes)] + Beneath(p, es[1..])
  }

  /** Every slot and value of a storage trie, in walk order. */
  function Collect(n: Node): seq<B.Entry>
    decreases n, 17
  {
    match n
    case Leaf(path, Value(bytes)) => [B.Entry(path, bytes)]
    case Extension(path, child) => Beneath(path, Collect(child))
    case Branch(_) => CollectFrom(n, 0)
    case _ => []
  }

  function CollectFrom(n: Node, i: nat): seq<B.Entry>
    requires n.Branch?
    decreases n, 16 - i
  {
    if i >= 16 || i >= |n.children| then [] else Beneath([i], Collect(n.children[i])) + CollectFrom(n, i + 1)
  }

  ghost predicate Keeps(n: Node, len: nat, e: B.Entry) {
    |e.slot| == len && Get(n, e.slot) == Some(Value(e.bytes))
  }

  lemma BeneathMember(p: Path, es: seq<B.Entry>, e: B.Entry)
    ensures e in Beneath(p, es) <==> p <= e.slot && B.Entry(e.slot[|p|..], e.bytes) in es
  {
    var u := Beneath(p, es);
    if e in u {
      var i :| 0 <= i < |u| && u[i] == e;
      assert e.slot[|p|..] == es[i].slot;
    }
    if p <= e.slot && B.Entry(e.slot[|p|..], e.bytes) in es {
      var i :| 0 <= i < |es| && es[i] == B.Entry(e.slot[|p|..], e.bytes);
      assert p + e.slot[|p|..] == e.slot;
      assert u[i] == e;
    }
  }

  /** Collecting lists exactly the stored slots with their values. */
  lemma {:induction false} CollectIsLookups(n: Node, len: nat, e: B.Entry)
    requires Canonical(n, len)
    ensures e in Collect(n) <==> Keeps(n, len, e)
    decreases n, 17
  {
    match n
    case Empty =>
    case Leaf(path, item) =>
    case Extension(path, child) =>
      BeneathMember(path, Collect(child), e);
      if path <= e.slot {
        CollectIsLookups(child, len - |path|, B.Entry(e.slot[|path|..], e.bytes));
      }
    case Branch(children) =>
      CollectFromIsLookups(n, len, e, 0);
  }

  lemma {:induction false} CollectFromIsLookups(n: Node, len: nat, e: B.Entry, i: nat)
    requires n.Branch? && Canonical(n, len)
    ensures e in CollectFrom(n, i) <==> Keeps(n, len, e) && i <= e.slot[0]
    decreases n, 16 - i
  {
    if i < 16 {
      BeneathMember([i], Collect(n.children[i]), e);
      assert [i] <= e.slot <==> e.slot != [] && e.slot[0] == i;
      if e.slot != [] && e.slot[0] == i {
        CollectIsLookups(n.children[i], len - 1, B.Entry(e.slot[1..], e.bytes));
      }
      CollectFromIsLookups(n, len, e, i + 1);
    }
  }

  function SlotsOf(n: Node): map<Path, Bytes> {
    B.MapOf(Collect(n))
  }

  lemma SlotsAreLookups(n: Node, len: nat)
    requires Canonical(n, len)
    ensures B.Lists(Collect(n), SlotsOf(n))
    ensures forall k: Path, v: Bytes :: B.Slot(SlotsOf(n), k) == B.T.Some(v) <==> Keeps(n, len, B.Entry(k, v))
  {
    var es := Collect(n);
    forall e ensures e in es <==> Keeps(n, len, e) { CollectIsLookups(n, len, e); }
    MapOfIsList(es, n, len);
  }

  lemma {:induction false} MapOfIsList(es: seq<B.Entry>, n: Node, len: nat)
    requires forall e :: e in es ==> Keeps(n, len, e)
    ensures forall e :: e in es <==> e.slot in B.MapOf(es) && B.MapOf(es)[e.slot] == e.bytes
  {
    hide Get;
    if es != [] {
      var init, last := es[..|es| - 1], es[|es| - 1];
      assert es == init + [last] && last in es;
      assert forall e :: e in init ==> e in es;
      MapOfIsList(init, n, len);
    }
  }

  lemma SameSlotsSameTrie(n: Node, m: Node, len: nat)
    requires Canonical(n, len) && Canonical(m, len) && SlotsOf(n) == SlotsOf(m)
    requires forall k: Path :: |k| == len ==> PlainValue(Get(n, k)) && PlainValue(Get(m, k))
    ensures n == m
  {
    hide Canonical, Collect, Get;
    SlotsAreLookups(n, len);
    SlotsAreLookups(m, len);
    forall k: Path | |k| == len ensures Get(n, k) == Get(m, k) {
      if Get(n, k).Some? { assert Keeps(n, len, B.Entry(k, Get(n, k).value.bytes)); }
      if Get(m, k).Some? { assert Keeps(m, len, B.Entry(k, Get(m, k).value.bytes)); }
    }
    CanonicalIsUnique(n, m, len);
  }

  ghost predicate PlainValue(o: Option<Item>) {
    o.Some? ==> o.value.Value?
  }

  /** A trie update at one slot is the map update. */
  lemma SlotUpdated(n: Node, n': Node, key: Path, value: Option<Bytes>)
    requires Canonical(n, |key|) && Canonical(n', |key|)
    requires Updated(n, n', key, if value.Some? then Some(Value(value.value)) else None)
    ensures SlotsOf(n') == B.Upd(SlotsOf(n), key, value)
  {
    hide Canonical, Collect, Get, SlotsOf;
    SlotsAreLookups(n, |key|);
    SlotsAreLookups(n', |key|);
    var m, m' := B.Upd(SlotsOf(n), key, value), SlotsOf(n');
    forall k ensures B.Slot(m, k) == B.Slot(m', k) {
      if B.Slot(m, k).Some? {
        assert |k| == |key| && Keeps(n', |key|, B.Entry(k, B.Slot(m, k).value)) by {
          if k != key || value.None? {
            assert B.Slot(SlotsOf(n), k) == B.T.Some(B.Slot(m, k).value);
          }
        }
      }
      if B.Slot(m', k).Some? {
        assert Keeps(n', |key|, B.Entry(k, B.Slot(m', k).value));
        if k != key {
          assert Keeps(n, |key|, B.Entry(k, B.Slot(m', k).value));
        }
      }
    }
    B.SameSlotsEqual(m, m');
  }

  // ------------------------------------------------------------------- accounts

  /** A missing account or one kept inline with a plain storage trie. */
  ghost predicate Structured(o: Option<Item>) {
    o.Some? ==> o.value.Account? && Canonical(o.value.storage, KEY_NIBBLES) && ValuesOnly(o.value.storage)
  }

  function AcctOf(o: Option<Item>): Option<B.Acct> {
    if o.Some? && o.value.Account?
    then Some(B.Acct(o.value.nonce, o.value.balance, o.value.codeHash, SlotsOf(o.value.storage)))
    else None
  }

  function StorageAt(n: Node, key: Path): Node {
    var o := Get(n, key);
    if o.Some? && o.value.Account? then o.value.storage else Empty
  }

  /** The account a leaf operation leaves is what the account operation makes of it. */
  lemma ResolveActs(o: Option<Item>, op: LeafOp)
    requires Structured(o) && ItemOk(o) && OpOk(op) && !op.SetValue?
    ensures var r := Resolve(o, op);
      r.Ok? && Structured(Some(r.value)) && AcctOf(Some(r.value)) == B.Act(AcctOf(o), PutOp(op))
  {
    hide Canonical, ValuesOnly, Insert, SlotsOf;
    EmptyValues();
    EmptyCanonical(KEY_NIBBLES);
    EmptySlots();
    if op.SetSlot? {
      var storage := if o.Some? then o.value.storage else Empty;
      PutStores(storage, op.slot, op.bytes);
    }
  }

  function PutOp(op: LeafOp): B.StateOp
    requires !op.SetValue?
  {
    match op
    case SetAccount(nonce, balance, codeHash) => B.SetAccount(nonce, balance, codeHash)
    case SetSlot(slot, bytes) => B.SetStorage(slot, bytes)
  }

  function DelOp(op: DeleteOp): B.StateOp
    requires !op.DeleteValue?
  {
    match op
    case DeleteAccount => B.DeleteAccount
    case DeleteSlot(slot) => B.DeleteStorage(slot)
    case WipeStorage => B.WipeStorage
  }

  lemma EmptySlots()
    ensures SlotsOf(Empty) == map[]
  {
  }

  lemma PutStores(n: Node, slot: Path, bytes: Bytes)
    requires |slot| == KEY_NIBBLES && Canonical(n, KEY_NIBBLES) && ValuesOnly(n)
    ensures var r := Insert(n, slot, SetValue(bytes));
      r.Ok? && Canonical(r.value, KEY_NIBBLES) && ValuesOnly(r.value) && SlotsOf(r.value) == SlotsOf(n)[slot := bytes]
  {
    hide Canonical, Insert, Resolve, SlotsOf, Updated;
    PutStaysPlain(n, slot, bytes);
    InsertSpec(n, slot, SetValue(bytes));
    PutResolves(Get(n, slot), bytes);
    SlotUpdated(n, Insert(n, slot, SetValue(bytes)).value, slot, Some(bytes));
  }

  lemma RemoveStores(n: Node, slot: Path)
    requires |slot| == KEY_NIBBLES && Canonical(n, KEY_NIBBLES) && ValuesOnly(n)
    ensures var r := Delete(n, slot, DeleteValue);
      && r.Ok?
      && (r.value.Absent? ==> SlotsOf(n) == SlotsOf(n) - {slot})
      && (r.value.Removed? ==> map[] == SlotsOf(n) - {slot})
      && (r.value.Changed? ==> Canonical(r.value.now, KEY_NIBBLES) && ValuesOnly(r.value.now) && SlotsOf(r.value.now) == SlotsOf(n) - {slot})
  {
    hide Canonical, Delete, ApplyDelete, SlotsOf;
    RemoveStaysPlain(n, slot);
    DeleteSpec(n, slot, DeleteValue);
    EmptyCanonical(KEY_NIBBLES);
    EmptySlots();
    var r := Delete(n, slot, DeleteValue);
    if Get(n, slot).None? {
      SlotUpdated(n, n, slot, None);
    } else {
      RemoveApplies(Get(n, slot).value);
      SlotUpdated(n, if r.value.Removed? then Empty else r.value.now, slot, None);
    }
  }

  lemma ApplyDeleteActs(item: Item, op: DeleteOp)
    requires Structured(Some(item)) && DeleteOpOk(op) && !op.DeleteValue?
    ensures var r := ApplyDelete(item, op);
      && r.Ok?
      && (r.value.Absent? ==> AcctOf(Some(item)) == B.Act(AcctOf(Some(item)), DelOp(op)))
      && (r.value.Removed? ==> B.Act(AcctOf(Some(item)), DelOp(op)) == None)
      && (r.value.Changed? ==> Structured(Some(r.value.now)) && AcctOf(Some(r.value.now)) == B.Act(AcctOf(Some(item)), DelOp(op)))
  {
    hide Canonical, ValuesOnly, Delete, SlotsOf;
    EmptyValues();
    EmptyCanonical(KEY_NIBBLES);
    EmptySlots();
    if op.DeleteSlot? {
      RemoveStores(item.storage, op.slot);
    }
  }

  /** One account operation on the trie: exactly the account at `key` changes, as the
      operation says. */
  ghost predicate Acts(n: Node, n': Node, key: Path, op: B.StateOp) {
    && Canonical(n', |key|) && Structured(Get(n', key))
    && AcctOf(Get(n', key)) == B.Act(AcctOf(Get(n, key)), op)
    && SameElsewhere(n, n', key)
  }

  ghost predicate SameElsewhere(n: Node, n': Node, key: Path) {
    forall k: Path :: |k| == |key| && k != key ==> Get(n', k) == Get(n, k)
  }

  lemma InsertActs(n: Node, key: Path, op: LeafOp)
    requires Canonical(n, |key|) && Structured(Get(n, key)) && OpOk(op) && !op.SetValue?
    ensures Insert(n, key, op).Ok? && Acts(n, Insert(n, key, op).value, key, PutOp(op))
  {
    hide Canonical, Insert, Resolve, ValuesOnly, SlotsOf;
    InsertSpec(n, key, op);
    ResolveActs(Get(n, key), op);
  }

  /** The node a delete leaves. */
  function Left(n: Node, d: Deleted<Node>): Node {
    match d case Absent => n case Changed(m) => m case Removed => Empty
  }

  lemma DeleteActs(n: Node, key: Path, op: DeleteOp)
    requires Canonical(n, |key|) && Structured(Get(n, key)) && DeleteOpOk(op) && !op.DeleteValue?
    ensures var r := Delete(n, key, op); r.Ok? && Acts(n, Left(n, r.value), key, DelOp(op))
  {
    hide Canonical, Delete, ApplyDelete, ValuesOnly, SlotsOf, B.Act, DelOp;
    DeleteSpec(n, key, op);
    EmptyCanonical(|key|);
    MissingStays(op);
    if Get(n, key).Some? {
      ApplyDeleteActs(Get(n, key).value, op);
    }
  }

  lemma MissingStays(op: DeleteOp)
    requires !op.DeleteValue?
    ensures B.Act(None, DelOp(op)) == None
  {
  }

  // ------------------------------------------------- the net update as a function

  /** What is left, and whether anything was done. */
  datatype NodeOut = NodeOut(node: Node, changed: bool)
  datatype ItemOut = ItemOut(item: Option<Item>, changed: bool)

  ghost predicate RecordOk(n: Node, key: Path) {
    Canonical(n, |key|) && Structured(Get(n, key))
  }

  ghost function PutNode(n: Node, key: Path, op: LeafOp): (out: NodeOut)
    requires RecordOk(n, key) && OpOk(op) && !op.SetValue?
    ensures RecordOk(out.node, key)
  {
    InsertActs(n, key, op);
    NodeOut(Insert(n, key, op).value, true)
  }

  ghost function CutNode(n: Node, key: Path, op: DeleteOp): (out: NodeOut)
    requires RecordOk(n, key) && DeleteOpOk(op) && !op.DeleteValue?
    ensures RecordOk(out.node, key)
  {
    DeleteActs(n, key, op);
    var r := Delete(n, key, op);
    NodeOut(Left(n, r.value), !r.value.Absent?)
  }

  ghost function WriteNode(n: Node, key: Path, w: B.Write): (out: NodeOut)
    requires RecordOk(n, key) && |w.slot| == KEY_NIBBLES
    ensures RecordOk(out.node, key)
  {
    if w.value.Some? then PutNode(n, key, SetSlot(w.slot, w.value.value)) else CutNode(n, key, DeleteSlot(w.slot))
  }

  predicate WritesOk(ws: seq<B.Write>) {
    forall i :: 0 <= i < |ws| ==> |ws[i].slot| == KEY_NIBBLES
  }

  ghost function WriteNodes(n: Node, key: Path, ws: seq<B.Write>, changed: bool): (out: NodeOut)
    requires RecordOk(n, key) && WritesOk(ws)
    ensures RecordOk(out.node, key)
    decreases |ws|
  {
    if ws == [] then NodeOut(n, changed)
    else
      var w := WriteNode(n, key, ws[0]);
      WriteNodes(w.node, key, ws[1..], changed || w.changed)
  }

  ghost function PrepareNode(n: Node, key: Path, u: B.Net): (out: NodeOut)
    requires RecordOk(n, key)
    ensures RecordOk(out.node, key)
  {
    var w := if u.wipe && Collect(StorageAt(n, key)) != [] then CutNode(n, key, WipeStorage) else NodeOut(n, false);
    if u.account.Set? then PutNode(w.node, key, SetAccount(u.account.nonce, u.account.balance, u.account.codeHash)) else w
  }

  /** The record after a net update, and what it reports. */
  ghost function NetNode(n: Node, key: Path, u: B.Net): Deleted<Node>
    requires RecordOk(n, key) && WritesOk(u.slots)
  {
    if u.account.Delete? then
      (DeleteActs(n, key, DeleteAccount); Delete(n, key, DeleteAccount).value)
    else
      var p := PrepareNode(n, key, u);
      var w := WriteNodes(p.node, key, u.slots, p.changed);
      if w.changed then Changed(w.node) else Absent
  }

  // The same on the one item the update concerns.

  ghost function PutItem(o: Option<Item>, op: LeafOp): (out: ItemOut)
    requires Structured(o) && OpOk(op) && !op.SetValue?
    ensures Structured(out.item) && out.item.Some? && out.changed
  {
    ResolveActs(o, op);
    ItemOut(Some(Resolve(o, op).value), true)
  }

  ghost function CutItem(o: Option<Item>, op: DeleteOp): (out: ItemOut)
    requires Structured(o) && DeleteOpOk(op) && !op.DeleteValue?
    ensures Structured(out.item) && (!out.changed ==> out.item == o)
    ensures !op.DeleteAccount? && o.Some? ==> out.item.Some?
  {
    if o.None? then ItemOut(None, false)
    else
      ApplyDeleteActs(o.value, op);
      match ApplyDelete(o.value, op).value
      case Absent => ItemOut(o, false)
      case Changed(it) => ItemOut(Some(it), true)
      case Removed => ItemOut(None, true)
  }

  ghost function WriteItem(o: Option<Item>, w: B.Write): (out: ItemOut)
    requires Structured(o) && |w.slot| == KEY_NIBBLES
    ensures Structured(out.item) && (!out.changed ==> out.item == o)
    ensures o.Some? || out.changed ==> out.item.Some?
  {
    if w.value.Some? then PutItem(o, SetSlot(w.slot, w.value.value)) else CutItem(o, DeleteSlot(w.slot))
  }

  ghost function WriteItems(o: Option<Item>, ws: seq<B.Write>, changed: bool): (out: ItemOut)
    requires Structured(o) && WritesOk(ws)
    ensures Structured(out.item) && (!out.changed ==> out.item == o)
    ensures (changed ==> out.changed) && (o.Some? ==> out.item.Some?) && ((changed ==> o.Some?) && out.changed ==> out.item.Some?)
    decreases |ws|
  {
    if ws == [] then ItemOut(o, changed)
    else
      var w := WriteItem(o, ws[0]);
      WriteItems(w.item, ws[1..], changed || w.changed)
  }

  function StorageOf(o: Option<Item>): Node {
    if o.Some? && o.value.Account? then o.value.storage else Empty
  }

  ghost function PrepareItem(o: Option<Item>, u: B.Net): (out: ItemOut)
    requires Structured(o)
    ensures Structured(out.item) && (!out.changed ==> out.item == o) && (o.Some? || out.changed ==> out.item.Some?)
  {
    var w := if u.wipe && Collect(StorageOf(o)) != [] then CutItem(o, WipeStorage) else ItemOut(o, false);
    if u.account.Set? then PutItem(w.item, SetAccount(u.account.nonce, u.account.balance, u.account.codeHash)) else w
  }

  ghost function NetItem(o: Option<Item>, u: B.Net): (out: ItemOut)
    requires Structured(o) && WritesOk(u.slots)
    ensures Structured(out.item) && (!out.changed ==> out.item == o)
    ensures !u.account.Delete? && out.changed ==> out.item.Some?
  {
    if u.account.Delete? then ItemOut(None, o.Some?)
    else
      var p := PrepareItem(o, u);
      WriteItems(p.item, u.slots, p.changed)
  }

  // ------------------------------------------------------------- node follows item

  /** The node step does to the key exactly what the item step does to its item. */
  ghost predicate Follows(n: Node, key: Path, out: NodeOut, o: ItemOut) {
    RecordOk(out.node, key) && Updated(n, out.node, key, o.item) && out.changed == o.changed && (!out.changed ==> out.node == n)
  }

  lemma UpdatedTwice(n: Node, m: Node, p: Node, key: Path, o: Option<Item>, o': Option<Item>)
    requires Updated(n, m, key, o) && Updated(m, p, key, o')
    ensures Updated(n, p, key, o')
  {
  }

  lemma UpdatedGets(n: Node, m: Node, key: Path, o: Option<Item>)
    requires Updated(n, m, key, o)
    ensures Get(m, key) == o
  {
  }

  lemma UpdatedNot(n: Node, key: Path)
    ensures Updated(n, n, key, Get(n, key))
  {
  }

  lemma PutFollows(n: Node, key: Path, op: LeafOp)
    requires RecordOk(n, key) && OpOk(op) && !op.SetValue?
    ensures Follows(n, key, PutNode(n, key, op), PutItem(Get(n, key), op))
  {
    hide Canonical, Insert, Resolve, ValuesOnly;
    InsertSpec(n, key, op);
    InsertActs(n, key, op);
  }

  lemma CutFollows(n: Node, key: Path, op: DeleteOp)
    requires RecordOk(n, key) && DeleteOpOk(op) && !op.DeleteValue?
    ensures Follows(n, key, CutNode(n, key, op), CutItem(Get(n, key), op))
  {
    hide Canonical, Delete, ApplyDelete, ValuesOnly;
    DeleteSpec(n, key, op);
    DeleteActs(n, key, op);
    UpdatedNot(n, key);
    if Get(n, key).Some? {
      ApplyDeleteActs(Get(n, key).value, op);
      if OnlyKey(n, key) {
        OnlyKeyEmpties(n, key);
      }
    }
  }

  lemma WriteFollows(n: Node, key: Path, w: B.Write)
    requires RecordOk(n, key) && |w.slot| == KEY_NIBBLES
    ensures Follows(n, key, WriteNode(n, key, w), WriteItem(Get(n, key), w))
  {
    hide Follows, RecordOk;
    if w.value.Some? {
      PutFollows(n, key, SetSlot(w.slot, w.value.value));
    } else {
      CutFollows(n, key, DeleteSlot(w.slot));
    }
  }

  lemma {:induction false} WritesFollow(n: Node, key: Path, ws: seq<B.Write>, changed: bool)
    requires RecordOk(n, key) && WritesOk(ws)
    ensures var out, o := WriteNodes(n, key, ws, changed), WriteItems(Get(n, key), ws, changed);
      RecordOk(out.node, key) && Updated(n, out.node, key, o.item) && out.changed == o.changed && (!out.changed ==> out.node == n)
    decreases |ws|
  {
    hide Canonical, Structured, Updated, WriteNode, WriteItem;
    if ws == [] {
      UpdatedNot(n, key);
    } else {
      WriteFollows(n, key, ws[0]);
      var w := WriteNode(n, key, ws[0]);
      UpdatedGets(n, w.node, key, WriteItem(Get(n, key), ws[0]).item);
      WritesFollow(w.node, key, ws[1..], changed || w.changed);
      UpdatedTwice(n, w.node, WriteNodes(n, key, ws, changed).node, key, Get(w.node, key), WriteItems(Get(n, key), ws, changed).item);
    }
  }

  lemma PrepareFollows(n: Node, key: Path, u: B.Net)
    requires RecordOk(n, key)
    ensures Follows(n, key, PrepareNode(n, key, u), PrepareItem(Get(n, key), u))
  {
    hide Canonical, Structured, Updated, PutNode, PutItem, CutNode, CutItem, Collect;
    UpdatedNot(n, key);
    var wipe := u.wipe && Collect(StorageAt(n, key)) != [];
    if wipe {
      CutFollows(n, key, WipeStorage);
    }
    var w := if wipe then CutNode(n, key, WipeStorage) else NodeOut(n, false);
    var o := if wipe then CutItem(Get(n, key), WipeStorage) else ItemOut(Get(n, key), false);
    UpdatedGets(n, w.node, key, o.item);
    if u.account.Set? {
      var op := SetAccount(u.account.nonce, u.account.balance, u.account.codeHash);
      PutFollows(w.node, key, op);
      UpdatedTwice(n, w.node, PutNode(w.node, key, op).node, key, o.item, PutItem(o.item, op).item);
    }
  }

  /** What a net update reports and leaves, by what it does to the item. */
  ghost predicate NetsTo(d: Deleted<Node>, n: Node, key: Path, out: ItemOut) {
    match d
    case Absent => !out.changed && out.item == Get(n, key)
    case Removed => out.changed && out.item.None? && OnlyKey(n, key)
    case Changed(m) => out.changed && m != Empty && Canonical(m, |key|) && Updated(n, m, key, out.item)
  }

  lemma NetNodeSpec(n: Node, key: Path, u: B.Net)
    requires RecordOk(n, key) && WritesOk(u.slots)
    ensures NetsTo(NetNode(n, key, u), n, key, NetItem(Get(n, key), u))
  {
    hide Canonical, Structured, Updated, PrepareNode, PrepareItem, WriteNodes, WriteItems, Delete, ApplyDelete, OnlyKey;
    if u.account.Delete? {
      DeleteSpec(n, key, DeleteAccount);
      DeletesAccount(Get(n, key));
    } else {
      PrepareFollows(n, key, u);
      var p, o := PrepareNode(n, key, u), PrepareItem(Get(n, key), u);
      UpdatedGets(n, p.node, key, o.item);
      WritesFollow(p.node, key, u.slots, p.changed);
      var w, x := WriteNodes(p.node, key, u.slots, p.changed), WriteItems(o.item, u.slots, o.changed);
      UpdatedTwice(n, p.node, w.node, key, o.item, x.item);
      UpdatedGets(n, w.node, key, x.item);
      NothingThere(key);
    }
  }

  lemma DeletesAccount(o: Option<Item>)
    requires Structured(o)
    ensures o.Some? ==> ItemOk(o) && ApplyDelete(o.value, DeleteAccount) == Ok(Removed)
  {
  }

  lemma NothingThere(key: Path)
    ensures Get(Empty, key) == None
  {
  }

  // ------------------------------------------------------------------ net updates

  predicate NetOk(u: B.Net) {
    WritesOk(u.slots)
  }

  lemma ActsThen(n: Node, m: Node, o: Node, key: Path, op: B.StateOp, a: Option<B.Acct>)
    requires SameElsewhere(n, m, key) && AcctOf(Get(m, key)) == a && Acts(m, o, key, op)
    ensures SameElsewhere(n, o, key) && AcctOf(Get(o, key)) == B.Act(a, op)
  {
  }

  lemma WritesSnoc(a: Option<B.Acct>, m: map<Path, Bytes>, ws: seq<B.Write>, i: nat)
    requires i < |ws|
    ensures B.ApplyWrites(a, ws[..i + 1]) == B.Act(B.ApplyWrites(a, ws[..i]), B.WriteOp(ws[i]))
    ensures B.UndoWrites(m, ws[..i + 1]) == B.UndoWrites(m, ws[..i]) + B.UndoWrite(B.Overlay(m, ws[..i]), ws[i])
  {
    assert ws[..i + 1][..i] == ws[..i];
  }

  function SlotValue(n: Node, key: Path, slot: Path): Option<Bytes> {
    var v := Get(StorageAt(n, key), slot);
    if v.Some? && v.value.Value? then Some(v.value.bytes) else None
  }

  lemma SlotValueIs(n: Node, key: Path, slot: Path)
    requires |slot| == KEY_NIBBLES && Structured(Get(n, key))
    ensures SlotValue(n, key, slot) == if AcctOf(Get(n, key)).Some? then B.Slot(AcctOf(Get(n, key)).value.slots, slot) else None
  {
    hide Collect, Canonical, SlotsOf;
    if Get(n, key).Some? {
      var storage := Get(n, key).value.storage;
      SlotsAreLookups(storage, KEY_NIBBLES);
      var v := SlotValue(n, key, slot);
      if v.Some? {
        assert Keeps(storage, KEY_NIBBLES, B.Entry(slot, v.value));
      }
      if B.Slot(SlotsOf(storage), slot).Some? {
        assert Keeps(storage, KEY_NIBBLES, B.Entry(slot, B.Slot(SlotsOf(storage), slot).value));
      }
    }
  }

  /** One slot write on the record, with the inverse it pushes. */
  method WriteSlot(n: Node, key: Path, w: B.Write, created: bool) returns (n': Node, inv: seq<B.StateOp>, changed: bool)
    requires Canonical(n, |key|) && Structured(Get(n, key)) && |w.slot| == KEY_NIBBLES
    requires !created ==> Get(n, key).Some?
    ensures NodeOut(n', changed) == WriteNode(n, key, w)
    ensures Acts(n, n', key, B.WriteOp(w)) && (!changed ==> n' == n) && (w.value.Some? ==> changed)
    ensures inv == if created then [] else B.UndoWrite(AcctOf(Get(n, key)).value.slots, w)
    ensures changed && w.value.None? ==> Get(n, key).Some?
  {
    hide Canonical, ValuesOnly, SlotsOf, Insert, Delete, Acts;
    SlotValueIs(n, key, w.slot);
    var prior := SlotValue(n, key, w.slot);
    inv := [];
    if !created {
      if prior.Some? {
        inv := [B.SetStorage(w.slot, prior.value)];
      } else if w.value.Some? {
        inv := [B.DeleteStorage(w.slot)];
      }
    }
    if w.value.Some? {
      InsertActs(n, key, SetSlot(w.slot, w.value.value));
      n', changed := Insert(n, key, SetSlot(w.slot, w.value.value)).value, true;
    } else {
      DeleteActs(n, key, DeleteSlot(w.slot));
      AbsentKey(n, key, DeleteSlot(w.slot));
      var r := Delete(n, key, DeleteSlot(w.slot));
      n', changed := Left(n, r.value), !r.value.Absent?;
    }
  }

  lemma AbsentKey(n: Node, key: Path, op: DeleteOp)
    requires Canonical(n, |key|) && DeleteOpOk(op)
    ensures Get(n, key).None? ==> Delete(n, key, op) == Ok(Absent)
  {
    hide Canonical, Delete;
    DeleteSpec(n, key, op);
  }

  function ResetOf(o: Option<Item>): B.StateOp
    requires o.Some? && o.value.Account?
  {
    B.SetAccount(o.value.nonce, o.value.balance, o.value.codeHash)
  }

  /** The wipe and the account outcome. */
  method Prepare(n: Node, key: Path, u: B.Net) returns (n': Node, inv: seq<B.StateOp>, changed: bool)
    requires RecordOk(n, key) && !u.account.Delete?
    ensures NodeOut(n', changed) == PrepareNode(n, key, u)
    ensures RecordOk(n', key) && SameElsewhere(n, n', key)
    ensures AcctOf(Get(n', key)) == B.Prepared(AcctOf(Get(n, key)), u)
    ensures inv == if Get(n, key).None? then [] else
      (if u.wipe then [B.WipeStorage] + B.Restores(Collect(StorageAt(n, key))) else [])
      + (if u.account.Set? then [ResetOf(Get(n, key))] else [])
    ensures !changed ==> n' == n
    ensures Get(n, key).None? ==> (changed <==> Get(n', key).Some?)
  {
    hide Canonical, ValuesOnly, SlotsOf, Insert, Delete, Collect, B.Restores;
    var prior := Get(n, key);
    n', inv, changed := n, [], false;
    if u.wipe {
      var slots := Collect(StorageAt(n, key));
      if prior.Some? {
        inv := [B.WipeStorage] + B.Restores(slots);
      }
      if slots != [] {
        DeleteActs(n, key, WipeStorage);
        AbsentKey(n, key, WipeStorage);
        var r := Delete(n, key, WipeStorage);
        n', changed := Left(n, r.value), !r.value.Absent?;
      } else {
        NoSlots(StorageAt(n, key));
      }
    }
    if u.account.Set? {
      if prior.Some? {
        inv := inv + [ResetOf(prior)];
      }
      var op := SetAccount(u.account.nonce, u.account.balance, u.account.codeHash);
      InsertActs(n', key, op);
      n', changed := Insert(n', key, op).value, true;
    }
  }

  /** The slot writes, in order, each with its inverse. */
  method WriteSlots(n: Node, key: Path, ws: seq<B.Write>, created: bool) returns (n': Node, inv: seq<B.StateOp>, changed: bool)
    requires RecordOk(n, key) && WritesOk(ws)
    requires !created ==> Get(n, key).Some?
    ensures NodeOut(n', changed) == WriteNodes(n, key, ws, false)
    ensures RecordOk(n', key) && SameElsewhere(n, n', key)
    ensures AcctOf(Get(n', key)) == B.ApplyWrites(AcctOf(Get(n, key)), ws)
    ensures inv == if created then [] else B.UndoWrites(AcctOf(Get(n, key)).value.slots, ws)
    ensures !changed ==> n' == n
    ensures Get(n, key).None? ==> (changed <==> Get(n', key).Some?)
    ensures Get(n, key).Some? ==> Get(n', key).Some?
  {
    hide Canonical, ValuesOnly, SlotsOf, B.ApplyWrites, B.UndoWrites, B.UndoWrite, B.Overlay, WriteNodes, WriteNode;
    ghost var a := AcctOf(Get(n, key));
    ghost var m := if a.Some? then a.value.slots else map[];
    n', inv, changed := n, [], false;
    WritesStart(a, m);
    assert ws[0..] == ws;
    for i := 0 to |ws|
      invariant RecordOk(n', key) && SameElsewhere(n, n', key) && WritesOk(ws[i..])
      invariant WriteNodes(n', key, ws[i..], changed) == WriteNodes(n, key, ws, false)
      invariant AcctOf(Get(n', key)) == B.ApplyWrites(a, ws[..i])
      invariant inv == if created then [] else B.UndoWrites(m, ws[..i])
      invariant !changed ==> n' == n
      invariant Get(n, key).None? ==> (changed <==> Get(n', key).Some?)
      invariant Get(n, key).Some? ==> Get(n', key).Some?
    {
      B.WritesOverlay(a, ws[..i]);
      WritesSnoc(a, m, ws, i);
      NodesStep(n', key, ws, i, changed);
      ghost var before := n';
      var undo, wrote;
      n', undo, wrote := WriteSlot(n', key, ws[i], created);
      ActsThen(n, before, n', key, B.WriteOp(ws[i]), AcctOf(Get(before, key)));
      inv := inv + undo;
      changed := changed || wrote;
    }
    assert ws[..|ws|] == ws;
    NodesEnd(n', key, changed);
    assert ws[|ws|..] == [];
  }

  lemma NodesStep(n: Node, key: Path, ws: seq<B.Write>, i: nat, changed: bool)
    requires RecordOk(n, key) && i < |ws| && WritesOk(ws[i..])
    ensures |ws[i].slot| == KEY_NIBBLES && WritesOk(ws[i + 1..])
    ensures var w := WriteNode(n, key, ws[i]); WriteNodes(n, key, ws[i..], changed) == WriteNodes(w.node, key, ws[i + 1..], changed || w.changed)
  {
    hide RecordOk, WriteNode;
    assert ws[i..][0] == ws[i] && ws[i..][1..] == ws[i + 1..];
  }

  lemma NodesEnd(n: Node, key: Path, changed: bool)
    requires RecordOk(n, key)
    ensures WriteNodes(n, key, [], changed) == NodeOut(n, changed)
  {
  }

  /** Apply one account's net update to a record: wipe, account outcome, slots, pushing
      the inverse of every change. */
  method ApplyNetInRecord(n: Node, key: Path, u: B.Net) returns (n': Node, inv: seq<B.StateOp>, changed: bool)
    requires RecordOk(n, key) && NetOk(u)
    ensures n' == Left(n, NetNode(n, key, u)) && changed == !NetNode(n, key, u).Absent?
    ensures RecordOk(n', key) && SameElsewhere(n, n', key)
    ensures AcctOf(Get(n', key)) == B.ApplyNet(AcctOf(Get(n, key)), u)
    ensures inv == B.Inverse(AcctOf(Get(n, key)), Collect(StorageAt(n, key)), u)
    ensures !changed ==> n' == n
  {
    hide Canonical, ValuesOnly, SlotsOf, Insert, Delete, Collect, B.ApplyNet, B.ApplyWrites, B.UndoWrites, B.Restores, PrepareNode, WriteNodes;
    var prior := Get(n, key);
    B.ApplyNetDelete(AcctOf(prior), u);
    if u.account.Delete? {
      AbsentKey(n, key, DeleteAccount);
      n', inv, changed := n, [], false;
      if prior.Some? {
        inv := [B.WipeStorage, ResetOf(prior)] + B.Restores(Collect(StorageAt(n, key)));
        DeleteActs(n, key, DeleteAccount);
        var r := Delete(n, key, DeleteAccount);
        n', changed := Left(n, r.value), !r.value.Absent?;
      }
    } else {
      var undo, wrote;
      n', inv, changed := Prepare(n, key, u);
      NetIsWrites(AcctOf(prior), u);
      WritesFlag(n', key, u.slots, changed);
      ghost var mid := n';
      n', undo, wrote := WriteSlots(n', key, u.slots, prior.None?);
      inv := inv + undo;
      changed := changed || wrote;
      SameTwice(n, mid, n', key);
      if prior.None? && changed {
        inv := inv + [B.DeleteAccount];
      }
    }
  }

  lemma {:induction false} WritesFlag(n: Node, key: Path, ws: seq<B.Write>, changed: bool)
    requires RecordOk(n, key) && WritesOk(ws)
    ensures var out := WriteNodes(n, key, ws, false); WriteNodes(n, key, ws, changed) == NodeOut(out.node, changed || out.changed)
    decreases |ws|
  {
    hide RecordOk, WriteNode;
    if ws != [] {
      var w := WriteNode(n, key, ws[0]);
      WritesFlag(w.node, key, ws[1..], changed || w.changed);
      WritesFlag(w.node, key, ws[1..], w.changed);
    }
  }

  lemma SameTwice(n: Node, m: Node, o: Node, key: Path)
    requires SameElsewhere(n, m, key) && SameElsewhere(m, o, key)
    ensures SameElsewhere(n, o, key)
  {
  }

  lemma NoSlots(n: Node)
    ensures Collect(n) == [] ==> SlotsOf(n) == map[]
  {
  }

  lemma WritesStart(b: Option<B.Acct>, m: map<Path, Bytes>)
    ensures B.ApplyWrites(b, []) == b && B.UndoWrites(m, []) == []
  {
  }

  lemma NetIsWrites(a: Option<B.Acct>, u: B.Net)
    ensures !u.account.Delete? ==> B.ApplyNet(a, u) == B.ApplyWrites(B.Prepared(a, u), u.slots)
  {
  }
}

/** Blocks of account operations: the one-by-one semantics, the net update a block is
    folded into, and the inverse operations an applied net update leaves behind.
 */
module BlockOps {
  import T = Trie

  type Key = T.Path
  type Bytes = T.Bytes
  type Option<+A> = T.Option<A>

  datatype Acct = Acct(nonce: nat, balance: nat, codeHash: Bytes, slots: map<Key, Bytes>)

  datatype StateOp =
    | SetAccount(nonce: nat, balance: nat, codeHash: Bytes)
    | DeleteAccount
    | WipeStorage
    | SetStorage(slot: Key, bytes: Bytes)
    | DeleteStorage(slot: Key)

  datatype KeyedOp = KeyedOp(key: Key, op: StateOp)

  // ------------------------------------------------------------------ one by one

  const NEW_ACCOUNT: Acct := Acct(0, 0, T.EMPTY_CODE_HASH, map[])

  function Or(a: Option<Acct>, other: Acct): Acct {
    if a.Some? then a.value else other
  }

  /** One operation on one account; a slot write on a missing account creates it. */
  function Act(a: Option<Acct>, op: StateOp): Option<Acct> {
    match op
    case SetAccount(nonce, balance, codeHash) => T.Some(Acct(nonce, balance, codeHash, Or(a, NEW_ACCOUNT).slots))
    case DeleteAccount => T.None
    case WipeStorage => if a.Some? then T.Some(a.value.(slots := map[])) else a
    case SetStorage(slot, bytes) =>
      var b := Or(a, NEW_ACCOUNT);
      T.Some(b.(slots := b.slots[slot := bytes]))
    case DeleteStorage(slot) => if a.Some? then T.Some(a.value.(slots := a.value.slots - {slot})) else a
  }

  function RunKey(a: Option<Acct>, ops: seq<StateOp>): Option<Acct> {
    if ops == [] then a else Act(RunKey(a, ops[..|ops| - 1]), ops[|ops| - 1])
  }

  type World = map<Key, Acct>

  function At(w: World, key: Key): Option<Acct> {
    if key in w then T.Some(w[key]) else T.None
  }

  function With(w: World, key: Key, a: Option<Acct>): World {
    if a.Some? then w[key := a.value] else w - {key}
  }

  /** The whole block, one operation after the other. */
  function RunBlock(w: World, ops: seq<KeyedOp>): World {
    if ops == [] then w
    else
      var before, last := RunBlock(w, ops[..|ops| - 1]), ops[|ops| - 1];
      With(before, last.key, Act(At(before, last.key), last.op))
  }

  function OpsFor(ops: seq<KeyedOp>, key: Key): seq<StateOp> {
    if ops == [] then []
    else
      var last := ops[|ops| - 1];
      OpsFor(ops[..|ops| - 1], key) + if last.key == key then [last.op] else []
  }

  /** Keys do not interfere: a block restricted to one key is that key's own run. */
  lemma {:induction false} RunBlockAt(w: World, ops: seq<KeyedOp>, key: Key)
    ensures At(RunBlock(w, ops), key) == RunKey(At(w, key), OpsFor(ops, key))
  {
    if ops != [] {
      var init, last := ops[..|ops| - 1], ops[|ops| - 1];
      RunBlockAt(w, init, key);
      if last.key == key {
        var mine := OpsFor(ops, key);
        assert mine[..|mine| - 1] == OpsFor(init, key);
      } else {
        assert OpsFor(ops, key) == OpsFor(init, key);
      }
    }
  }

  // ------------------------------------------------------------------ net updates

  datatype Outcome = Keep | Set(nonce: nat, balance: nat, codeHash: Bytes) | Delete

  datatype Write = Write(slot: Key, value: Option<Bytes>)

  /** One account's net update: wipe, then account outcome, then final slot values. */
  datatype Net = Net(wipe: bool, account: Outcome, slots: seq<Write>)

  const NO_NET: Net := Net(false, Keep, [])

  ghost predicate Distinct(ws: seq<Write>) {
    forall i, j :: 0 <= i < j < |ws| ==> ws[i].slot != ws[j].slot
  }

  function IndexOf(ws: seq<Write>, slot: Key): (i: int)
    ensures -1 <= i < |ws| && (i >= 0 ==> ws[i].slot == slot)
    ensures forall j :: i < j < |ws| ==> ws[j].slot != slot
  {
    if ws == [] then -1
    else if ws[|ws| - 1].slot == slot then |ws| - 1
    else IndexOf(ws[..|ws| - 1], slot)
  }

  /** Last write wins, in the place of the first. */
  function PutSlot(ws: seq<Write>, slot: Key, value: Option<Bytes>): seq<Write> {
    var i := IndexOf(ws, slot);
    if i >= 0 then ws[i := Write(slot, value)] else ws + [Write(slot, value)]
  }

  function FoldOp(u: Net, op: StateOp): Net {
    match op
    case SetAccount(nonce, balance, codeHash) => u.(account := Set(nonce, balance, codeHash))
    case DeleteAccount => Net(true, Delete, [])
    case WipeStorage => Net(true, u.account, [])
    case SetStorage(slot, bytes) =>
      Net(u.wipe, if u.account.Delete? then Set(0, 0, T.EMPTY_CODE_HASH) else u.account, PutSlot(u.slots, slot, T.Some(bytes)))
    case DeleteStorage(slot) => if u.account.Delete? then u else u.(slots := PutSlot(u.slots, slot, T.None))
  }

  function NetOf(ops: seq<StateOp>): Net {
    if ops == [] then NO_NET else FoldOp(NetOf(ops[..|ops| - 1]), ops[|ops| - 1])
  }

  function WriteOp(w: Write): StateOp {
    if w.value.Some? then SetStorage(w.slot, w.value.value) else DeleteStorage(w.slot)
  }

  function ApplyWrites(a: Option<Acct>, ws: seq<Write>): Option<Acct> {
    if ws == [] then a else Act(ApplyWrites(a, ws[..|ws| - 1]), WriteOp(ws[|ws| - 1]))
  }

  /** The state the slot writes start from. */
  function Prepared(a: Option<Acct>, u: Net): Option<Acct> {
    var wiped := if u.wipe then Act(a, WipeStorage) else a;
    match u.account
    case Set(nonce, balance, codeHash) => Act(wiped, SetAccount(nonce, balance, codeHash))
    case _ => wiped
  }

  /** What applying a net update does to an account. */
  function ApplyNet(a: Option<Acct>, u: Net): Option<Acct> {
    if u.account.Delete? then T.None else ApplyWrites(Prepared(a, u), u.slots)
  }

  /** A whole block through its net updates. */
  function ApplyBlock(w: World, ops: seq<KeyedOp>): World {
    map k | k in w.Keys + Touched(ops) && ApplyNet(At(w, k), NetOf(OpsFor(ops, k))).Some? ::
      ApplyNet(At(w, k), NetOf(OpsFor(ops, k))).value
  }

  function Touched(ops: seq<KeyedOp>): set<Key> {
    set i | 0 <= i < |ops| :: ops[i].key
  }

  lemma {:induction false} UntouchedOps(ops: seq<KeyedOp>, key: Key)
    requires key !in Touched(ops)
    ensures OpsFor(ops, key) == []
  {
    if ops != [] {
      assert ops[|ops| - 1].key in Touched(ops);
      var init := ops[..|ops| - 1];
      forall i | 0 <= i < |init| ensures init[i].key in Touched(ops) {
        assert init[i] == ops[i];
      }
      UntouchedOps(ops[..|ops| - 1], key);
    }
  }

  lemma ApplyBlockAt(w: World, ops: seq<KeyedOp>, key: Key)
    ensures At(ApplyBlock(w, ops), key) == ApplyNet(At(w, key), NetOf(OpsFor(ops, key)))
  {
    if key !in w && key !in Touched(ops) {
      UntouchedOps(ops, key);
    }
  }

  lemma SameWorld(w: World, w': World)
    ensures w == w' <==> forall k :: At(w, k) == At(w', k)
  {
    if forall k :: At(w, k) == At(w', k) {
      assert forall k :: At(w, k) == At(w', k) ==> (k in w <==> k in w') && (k in w ==> w[k] == w'[k]);
    }
  }

  // -------------------------------------------------------------- closed form

  function Upd(m: map<Key, Bytes>, slot: Key, value: Option<Bytes>): map<Key, Bytes> {
    if value.Some? then m[slot := value.value] else m - {slot}
  }

  function Overlay(m: map<Key, Bytes>, ws: seq<Write>): map<Key, Bytes> {
    if ws == [] then m else Upd(Overlay(m, ws[..|ws| - 1]), ws[|ws| - 1].slot, ws[|ws| - 1].value)
  }

  ghost predicate Creates(ws: seq<Write>) {
    exists w :: w in ws && w.value.Some?
  }

  lemma {:induction false} WritesOverlay(a: Option<Acct>, ws: seq<Write>)
    ensures a.Some? ==> ApplyWrites(a, ws) == T.Some(a.value.(slots := Overlay(a.value.slots, ws)))
    ensures a.None? && Creates(ws) ==> ApplyWrites(a, ws) == T.Some(NEW_ACCOUNT.(slots := Overlay(map[], ws)))
    ensures a.None? && !Creates(ws) ==> ApplyWrites(a, ws) == T.None && Overlay(map[], ws) == map[]
  {
    if ws != [] {
      var init, last := ws[..|ws| - 1], ws[|ws| - 1];
      WritesOverlay(a, init);
      CreatesSnoc(init, last);
      assert ws == init + [last];
    }
  }

  lemma CreatesSnoc(ws: seq<Write>, w: Write)
    ensures Creates(ws + [w]) <==> Creates(ws) || w.value.Some?
  {
    assert w in ws + [w];
  }

  lemma PutSlotSpec(ws: seq<Write>, slot: Key, value: Option<Bytes>)
    requires Distinct(ws)
    ensures Distinct(PutSlot(ws, slot, value))
    ensures forall w :: w in PutSlot(ws, slot, value) <==> w == Write(slot, value) || (w in ws && w.slot != slot)
  {
    var i, put := IndexOf(ws, slot), PutSlot(ws, slot, value);
    assert put[if i >= 0 then i else |ws|] == Write(slot, value);
    forall w | w in ws && w.slot != slot ensures w in put {
      var j :| 0 <= j < |ws| && ws[j] == w;
      assert put[j] == w;
    }
  }

  lemma UpdCommutes(m: map<Key, Bytes>, s: Key, v: Option<Bytes>, t: Key, x: Option<Bytes>)
    ensures s != t ==> Upd(Upd(m, s, v), t, x) == Upd(Upd(m, t, x), s, v)
    ensures Upd(Upd(m, s, v), s, x) == Upd(m, s, x)
  {
  }

  lemma {:induction false} OverlayPut(m: map<Key, Bytes>, ws: seq<Write>, slot: Key, value: Option<Bytes>)
    ensures Overlay(m, PutSlot(ws, slot, value)) == Upd(Overlay(m, ws), slot, value)
  {
    hide Upd;
    var i, put := IndexOf(ws, slot), PutSlot(ws, slot, value);
    if i < 0 {
      assert put[..|put| - 1] == ws;
    } else {
      var init, last := ws[..|ws| - 1], ws[|ws| - 1];
      UpdCommutes(Overlay(m, init), last.slot, last.value, slot, value);
      if last.slot == slot {
        assert put[..|put| - 1] == init;
      } else {
        OverlayPut(m, init, slot, value);
        assert put[..|put| - 1] == PutSlot(init, slot, value);
      }
    }
  }

  // ------------------------------------------------- net refines one by one

  ghost predicate Sets(op: StateOp) {
    op.SetAccount? || op.DeleteAccount?
  }

  /** A later operation takes the slot write back. */
  ghost predicate Undoes(op: StateOp, slot: Key) {
    op.DeleteAccount? || op.WipeStorage? || op == DeleteStorage(slot)
  }

  /** The block writes `slot` and does not take it back. */
  ghost predicate Stands(ops: seq<StateOp>, slot: Key) {
    exists i :: 0 <= i < |ops| && StandsAt(ops, slot, i)
  }

  ghost predicate StandsAt(ops: seq<StateOp>, slot: Key, i: nat)
    requires i < |ops|
  {
    ops[i].SetStorage? && ops[i].slot == slot && forall j :: i < j < |ops| ==> !Undoes(ops[j], slot)
  }

  /** The one family of blocks a net update loses: slots of a missing account are
      written, every write is taken back, and nothing else touches the account. */
  ghost predicate Phantom(a: Option<Acct>, ops: seq<StateOp>) {
    && a.None?
    && (forall i :: 0 <= i < |ops| ==> !Sets(ops[i]))
    && (exists i :: 0 <= i < |ops| && ops[i].SetStorage?)
    && (forall s :: !Stands(ops, s))
  }

  lemma StandsSnoc(ops: seq<StateOp>, op: StateOp, slot: Key)
    ensures Stands(ops + [op], slot) <==> (op.SetStorage? && op.slot == slot) || (Stands(ops, slot) && !Undoes(op, slot))
  {
    var all := ops + [op];
    if Stands(all, slot) {
      var i :| 0 <= i < |all| && StandsAt(all, slot, i);
      if i < |ops| {
        assert all[|ops|] == op;
        assert StandsAt(ops, slot, i) by {
          forall j | i < j < |ops| ensures !Undoes(ops[j], slot) { assert all[j] == ops[j]; }
        }
      }
    }
    if op.SetStorage? && op.slot == slot {
      assert StandsAt(all, slot, |ops|);
    } else if Stands(ops, slot) && !Undoes(op, slot) {
      var i :| 0 <= i < |ops| && StandsAt(ops, slot, i);
      assert StandsAt(all, slot, i);
    }
  }

  /** What the fold knows of the operations so far. */
  ghost predicate NetKnows(ops: seq<StateOp>, u: Net) {
    && Distinct(u.slots)
    && (u.account.Delete? ==> u.slots == [] && u.wipe)
    && (u.account.Keep? <==> forall i :: 0 <= i < |ops| ==> !Sets(ops[i]))
    && (u.wipe <==> exists i :: 0 <= i < |ops| && (ops[i].WipeStorage? || ops[i].DeleteAccount?))
    && (forall s :: LiveIn(u.slots, s) <==> Stands(ops, s))
  }

  ghost predicate LiveIn(ws: seq<Write>, slot: Key) {
    exists v :: Write(slot, T.Some(v)) in ws
  }

  lemma CreatesIsLive(ws: seq<Write>)
    ensures Creates(ws) <==> exists s :: LiveIn(ws, s)
  {
    if Creates(ws) {
      var w :| w in ws && w.value.Some?;
      assert w == Write(w.slot, T.Some(w.value.value));
      assert LiveIn(ws, w.slot);
    }
  }

  lemma {:induction false} NetIsKnown(ops: seq<StateOp>)
    ensures NetKnows(ops, NetOf(ops))
  {
    if ops == [] {
      assert forall s :: !Stands(ops, s);
    } else {
      var init, op := ops[..|ops| - 1], ops[|ops| - 1];
      assert ops == init + [op];
      NetIsKnown(init);
      FoldKnows(init, NetOf(init), op);
    }
  }

  lemma FoldKnows(ops: seq<StateOp>, u: Net, op: StateOp)
    requires NetKnows(ops, u)
    ensures NetKnows(ops + [op], FoldOp(u, op))
  {
    hide Stands;
    var all, v := ops + [op], FoldOp(u, op);
    assert all[|ops|] == op && forall i :: 0 <= i < |ops| ==> all[i] == ops[i];
    FoldFlags(ops, u, op);
    forall s ensures LiveIn(v.slots, s) <==> Stands(all, s) {
      StandsSnoc(ops, op, s);
      FoldLive(u, op, s);
    }
    if op.SetStorage? || op.DeleteStorage? {
      PutSlotSpec(u.slots, op.slot, if op.SetStorage? then T.Some(op.bytes) else T.None);
    }
  }

  lemma FoldFlags(ops: seq<StateOp>, u: Net, op: StateOp)
    requires NetKnows(ops, u)
    ensures var all, v := ops + [op], FoldOp(u, op);
      && (v.account.Keep? <==> forall i :: 0 <= i < |all| ==> !Sets(all[i]))
      && (v.wipe <==> exists i :: 0 <= i < |all| && (all[i].WipeStorage? || all[i].DeleteAccount?))
  {
    hide Stands, LiveIn, Distinct;
    var all := ops + [op];
    assert all[|ops|] == op && forall i :: 0 <= i < |ops| ==> all[i] == ops[i];
    if u.wipe {
      var i :| 0 <= i < |ops| && (ops[i].WipeStorage? || ops[i].DeleteAccount?);
      assert all[i].WipeStorage? || all[i].DeleteAccount?;
    }
    if !u.account.Keep? {
      var i :| 0 <= i < |ops| && Sets(ops[i]);
      assert Sets(all[i]);
    }
  }

  lemma FoldLive(u: Net, op: StateOp, s: Key)
    requires Distinct(u.slots) && (u.account.Delete? ==> u.slots == [])
    ensures LiveIn(FoldOp(u, op).slots, s) <==> (op.SetStorage? && op.slot == s) || (LiveIn(u.slots, s) && !Undoes(op, s))
  {
    hide Distinct;
    if op.SetStorage? || op.DeleteStorage? {
      var value := if op.SetStorage? then T.Some(op.bytes) else T.None;
      PutSlotSpec(u.slots, op.slot, value);
      if op.SetStorage? && op.slot == s {
        assert Write(s, T.Some(op.bytes)) in PutSlot(u.slots, op.slot, value);
      }
      if LiveIn(u.slots, s) && op.slot != s {
        var v :| Write(s, T.Some(v)) in u.slots;
        assert Write(s, T.Some(v)) in PutSlot(u.slots, op.slot, value);
      }
    }
  }

  /** An account that only a lost slot write brings into being. */
  ghost predicate Lost(a: Option<Acct>, u: Net, s: Option<Acct>) {
    a.None? && u.account.Keep? && !Creates(u.slots) && s == T.Some(NEW_ACCOUNT)
  }

  lemma ApplyNetClosed(a: Option<Acct>, u: Net)
    requires !u.account.Delete?
    ensures a.None? && u.account.Keep? && !Creates(u.slots) ==> ApplyNet(a, u) == T.None && Overlay(map[], u.slots) == map[]
    ensures var b := Or(Prepared(a, u), NEW_ACCOUNT);
      a.Some? || !u.account.Keep? || Creates(u.slots) ==> ApplyNet(a, u) == T.Some(b.(slots := Overlay(b.slots, u.slots)))
  {
    WritesOverlay(Prepared(a, u), u.slots);
  }

  /** Folding one more operation into the net update follows the one-by-one run. */
  lemma FoldFollows(a: Option<Acct>, u: Net, s: Option<Acct>, op: StateOp)
    requires Distinct(u.slots) && (u.account.Delete? ==> u.slots == [] && u.wipe)
    requires s == ApplyNet(a, u) || Lost(a, u, s)
    ensures Act(s, op) == ApplyNet(a, FoldOp(u, op)) || Lost(a, FoldOp(u, op), Act(s, op))
  {
    hide Distinct, Overlay, ApplyNet, PutSlot, Creates;
    EmptyOverlay();
    ApplyNetDelete(a, u);
    ApplyNetDelete(a, FoldOp(u, op));
    if !u.account.Delete? {
      ApplyNetClosed(a, u);
    }
    if !FoldOp(u, op).account.Delete? {
      ApplyNetClosed(a, FoldOp(u, op));
    }
    if op.SetStorage? {
      FoldPut(a, u, op.slot, T.Some(op.bytes));
    } else if op.DeleteStorage? {
      FoldPut(a, u, op.slot, T.None);
    }
  }

  lemma EmptyOverlay()
    ensures !Creates([]) && forall m :: Overlay(m, []) == m
  {
  }

  lemma ApplyNetDelete(a: Option<Acct>, u: Net)
    ensures u.account.Delete? ==> ApplyNet(a, u) == T.None
  {
  }

  lemma FoldPut(a: Option<Acct>, u: Net, slot: Key, value: Option<Bytes>)
    requires Distinct(u.slots)
    ensures value.Some? ==> Creates(PutSlot(u.slots, slot, value))
    ensures value.None? && !Creates(u.slots) ==> !Creates(PutSlot(u.slots, slot, value))
    ensures forall m :: Overlay(m, PutSlot(u.slots, slot, value)) == Upd(Overlay(m, u.slots), slot, value)
  {
    PutSlotSpec(u.slots, slot, value);
    assert Write(slot, value) in PutSlot(u.slots, slot, value);
    forall m ensures Overlay(m, PutSlot(u.slots, slot, value)) == Upd(Overlay(m, u.slots), slot, value) {
      OverlayPut(m, u.slots, slot, value);
    }
  }

  lemma {:induction false} NetFollows(a: Option<Acct>, ops: seq<StateOp>)
    ensures RunKey(a, ops) == ApplyNet(a, NetOf(ops)) || Lost(a, NetOf(ops), RunKey(a, ops))
  {
    if ops != [] {
      var init, op := ops[..|ops| - 1], ops[|ops| - 1];
      NetFollows(a, init);
      NetIsKnown(init);
      FoldFollows(a, NetOf(init), RunKey(a, init), op);
    }
  }

  /** A missing account that nothing sets exists in the end exactly if a slot was written. */
  lemma {:induction false} WrittenExists(ops: seq<StateOp>)
    requires forall i :: 0 <= i < |ops| ==> !Sets(ops[i])
    ensures RunKey(T.None, ops).Some? <==> exists i :: 0 <= i < |ops| && ops[i].SetStorage?
  {
    if ops != [] {
      var init, op := ops[..|ops| - 1], ops[|ops| - 1];
      assert forall i :: 0 <= i < |init| ==> init[i] == ops[i];
      assert !Sets(op);
      WrittenExists(init);
      if i :| 0 <= i < |init| && init[i].SetStorage? {
        assert ops[i].SetStorage?;
      }
    }
  }

  /** Normalising a block and applying the net update does to an account exactly what
      running the operations one by one does, unless the block is a phantom for it. */
  lemma NetRefines(a: Option<Acct>, ops: seq<StateOp>)
    ensures ApplyNet(a, NetOf(ops)) == RunKey(a, ops) <==> !Phantom(a, ops)
  {
    hide Stands, NetOf, RunKey, ApplyNet, Distinct;
    var u := NetOf(ops);
    NetFollows(a, ops);
    NetIsKnown(ops);
    CreatesIsLive(u.slots);
    if a.None? && u.account.Keep? {
      WrittenExists(ops);
      ApplyNetClosed(a, u);
    }
  }

  /** The whole block through its net updates equals the block one by one, exactly when
      it is a phantom for no key. */
  lemma BlockRefines(w: World, ops: seq<KeyedOp>)
    ensures ApplyBlock(w, ops) == RunBlock(w, ops) <==> forall k :: !Phantom(At(w, k), OpsFor(ops, k))
  {
    hide ApplyBlock, RunBlock, Phantom;
    SameWorld(ApplyBlock(w, ops), RunBlock(w, ops));
    forall k ensures At(ApplyBlock(w, ops), k) == At(RunBlock(w, ops), k) <==> !Phantom(At(w, k), OpsFor(ops, k)) {
      ApplyBlockAt(w, ops, k);
      RunBlockAt(w, ops, k);
      NetRefines(At(w, k), OpsFor(ops, k));
    }
  }

  /** A block that writes a slot of a missing account and deletes it again: one by one
      leaves an empty account, the net update leaves none. */
  lemma PhantomExample(slot: Key, bytes: Bytes)
    ensures var ops := [SetStorage(slot, bytes), DeleteStorage(slot)];
      RunKey(T.None, ops) == T.Some(NEW_ACCOUNT) && ApplyNet(T.None, NetOf(ops)) == T.None
  {
    var ops := [SetStorage(slot, bytes), DeleteStorage(slot)];
    assert ops[..1] == [SetStorage(slot, bytes)] && ops[..1][..0] == [];
    assert RunKey(T.None, ops[..1]) == T.Some(NEW_ACCOUNT.(slots := map[slot := bytes]));
    assert NetOf(ops[..1][..0]).slots == [];
    assert NetOf(ops[..1]).slots == [Write(slot, T.Some(bytes))];
    var ws := NetOf(ops).slots;
    assert ws == [Write(slot, T.None)];
    assert ws[..0] == [] && ApplyWrites(T.None, []) == T.None;
    assert ApplyWrites(T.None, ws) == Act(T.None, DeleteStorage(slot));
  }

  // ------------------------------------------------------------------- inverses

  datatype Entry = Entry(slot: Key, bytes: Bytes)

  /** `listed` enumerates the map. */
  ghost predicate Lists(listed: seq<Entry>, m: map<Key, Bytes>) {
    && (forall i :: 0 <= i < |listed| ==> listed[i].slot in m && m[listed[i].slot] == listed[i].bytes)
    && (forall s :: s in m ==> Entry(s, m[s]) in listed)
  }

  function Restores(listed: seq<Entry>): (r: seq<StateOp>)
    ensures |r| == |listed| && forall i :: 0 <= i < |r| ==> r[i] == SetStorage(listed[i].slot, listed[i].bytes)
  {
    if listed == [] then [] else Restores(listed[..|listed| - 1]) + [SetStorage(listed[|listed| - 1].slot, listed[|listed| - 1].bytes)]
  }

  function Reset(a: Acct): StateOp {
    SetAccount(a.nonce, a.balance, a.codeHash)
  }

  /** Undo of one slot write, given the slot's value just before it. */
  function UndoWrite(m: map<Key, Bytes>, w: Write): seq<StateOp> {
    if w.slot in m then [SetStorage(w.slot, m[w.slot])]
    else if w.value.Some? then [DeleteStorage(w.slot)]
    else []
  }

  function UndoWrites(m: map<Key, Bytes>, ws: seq<Write>): seq<StateOp> {
    if ws == [] then []
    else UndoWrites(m, ws[..|ws| - 1]) + UndoWrite(Overlay(m, ws[..|ws| - 1]), ws[|ws| - 1])
  }

  /** The inverse operations of a net update, given the account it met and its slots in
      storage order. */
  function Inverse(a: Option<Acct>, listed: seq<Entry>, u: Net): seq<StateOp> {
    if a.None? then (if ApplyNet(a, u).Some? then [DeleteAccount] else [])
    else if u.account.Delete? then [WipeStorage, Reset(a.value)] + Restores(listed)
    else
      (if u.wipe then [WipeStorage] + Restores(listed) else [])
      + (if u.account.Set? then [Reset(a.value)] else [])
      + UndoWrites(if u.wipe then map[] else a.value.slots, u.slots)
  }

  /** The one family of net updates the inverse does not undo: storage is wiped and a
      slot the account held is written again. */
  ghost predicate Clobbers(a: Option<Acct>, u: Net) {
    a.Some? && !u.account.Delete? && u.wipe && exists s :: s in a.value.slots && LiveIn(u.slots, s)
  }

  lemma {:induction false} RunKeyConcat(a: Option<Acct>, p: seq<StateOp>, q: seq<StateOp>)
    ensures RunKey(a, p + q) == RunKey(RunKey(a, p), q)
    decreases |q|
  {
    if q == [] {
      assert p + q == p;
    } else {
      RunKeyConcat(a, p, q[..|q| - 1]);
      assert (p + q)[..|p + q| - 1] == p + q[..|q| - 1];
    }
  }

  lemma RunOne(a: Option<Acct>, op: StateOp)
    ensures RunKey(a, [op]) == Act(a, op)
  {
    assert [op][..0] == [];
    assert RunKey(a, []) == a;
  }

  function MapOf(listed: seq<Entry>): map<Key, Bytes> {
    if listed == [] then map[] else MapOf(listed[..|listed| - 1])[listed[|listed| - 1].slot := listed[|listed| - 1].bytes]
  }

  lemma AddPut(m: map<Key, Bytes>, n: map<Key, Bytes>, slot: Key, bytes: Bytes)
    ensures (m + n)[slot := bytes] == m + n[slot := bytes]
  {
  }

  lemma RestoresStep(listed: seq<Entry>)
    requires listed != []
    ensures var init, last := listed[..|listed| - 1], listed[|listed| - 1];
      && Restores(listed) == Restores(init) + [SetStorage(last.slot, last.bytes)]
      && MapOf(listed) == MapOf(init)[last.slot := last.bytes]
  {
  }

  lemma {:induction false} RestoresRun(a: Acct, listed: seq<Entry>)
    ensures RunKey(T.Some(a), Restores(listed)) == T.Some(a.(slots := a.slots + MapOf(listed)))
  {
    if listed == [] {
      assert a.slots + map[] == a.slots;
    } else {
      hide Restores, MapOf;
      var init, last, r := listed[..|listed| - 1], listed[|listed| - 1], Restores(listed);
      RestoresRun(a, init);
      RestoresStep(listed);
      assert r[..|r| - 1] == Restores(init);
      AddPut(a.slots, MapOf(init), last.slot, last.bytes);
    }
  }

  lemma {:induction false} MapOfPart(listed: seq<Entry>, m: map<Key, Bytes>)
    requires forall i :: 0 <= i < |listed| ==> listed[i].slot in m && m[listed[i].slot] == listed[i].bytes
    ensures forall s :: s in MapOf(listed) ==> s in m && m[s] == MapOf(listed)[s]
    ensures forall i :: 0 <= i < |listed| ==> listed[i].slot in MapOf(listed)
  {
    if listed != [] {
      var init := listed[..|listed| - 1];
      assert forall i :: 0 <= i < |init| ==> init[i] == listed[i];
      MapOfPart(init, m);
    }
  }

  lemma MapOfLists(listed: seq<Entry>, m: map<Key, Bytes>)
    requires Lists(listed, m)
    ensures MapOf(listed) == m
  {
    MapOfPart(listed, m);
    forall s | s in m ensures s in MapOf(listed) {
      assert Entry(s, m[s]) in listed;
      var i :| 0 <= i < |listed| && listed[i] == Entry(s, m[s]);
    }
  }

  /** What the undo of slot writes leaves in a slot: untouched slots keep what they have,
      written ones get back what they had before the writes. */
  lemma {:induction false} UndoRun(a: Acct, m: map<Key, Bytes>, ws: seq<Write>, s: Key)
    requires Distinct(ws)
    ensures var r := RunKey(T.Some(a), UndoWrites(m, ws));
      && r.Some? && r.value == a.(slots := r.value.slots)
      && Slot(r.value.slots, s) ==
        if Hit(ws, s) then (if s in m || LiveIn(ws, s) then Slot(m, s) else Slot(a.slots, s))
        else Slot(a.slots, s)
  {
    if ws == [] {
      assert UndoWrites(m, ws) == [];
    } else {
      hide RunKey, UndoWrite, Overlay, Hit, LiveIn;
      var init, last := ws[..|ws| - 1], ws[|ws| - 1];
      UndoRun(a, m, init, s);
      var undo := UndoWrite(Overlay(m, init), last);
      RunKeyConcat(T.Some(a), UndoWrites(m, init), undo);
      OverlayMisses(m, init, last.slot);
      assert ws == init + [last];
      HitSnoc(init, last, s);
      UndoOne(RunKey(T.Some(a), UndoWrites(m, init)).value, Overlay(m, init), last, s);
    }
  }

  lemma UndoOne(a: Acct, m: map<Key, Bytes>, w: Write, s: Key)
    ensures var r := RunKey(T.Some(a), UndoWrite(m, w));
      && r.Some? && r.value == a.(slots := r.value.slots)
      && Slot(r.value.slots, s) ==
        if w.slot == s && (s in m || w.value.Some?) then Slot(m, s) else Slot(a.slots, s)
  {
    var undo := UndoWrite(m, w);
    if undo != [] {
      assert undo == [undo[0]];
      RunOne(T.Some(a), undo[0]);
    }
  }

  function Slot(m: map<Key, Bytes>, s: Key): Option<Bytes> {
    if s in m then T.Some(m[s]) else T.None
  }

  ghost predicate Hit(ws: seq<Write>, s: Key) {
    exists w :: w in ws && w.slot == s
  }

  lemma HitSnoc(ws: seq<Write>, w: Write, s: Key)
    requires Distinct(ws + [w])
    ensures Hit(ws + [w], s) <==> Hit(ws, s) || w.slot == s
    ensures LiveIn(ws + [w], s) <==> LiveIn(ws, s) || (w.slot == s && w.value.Some?)
    ensures !Hit(ws, w.slot) && (LiveIn(ws, s) ==> Hit(ws, s))
  {
    var all := ws + [w];
    assert w in all;
    forall x | x in ws ensures x.slot != w.slot {
      var i :| 0 <= i < |ws| && ws[i] == x;
      assert all[i] == x && all[|ws|] == w;
    }
    if w.slot == s && w.value.Some? {
      assert w == Write(s, T.Some(w.value.value));
    }
  }

  lemma {:induction false} OverlayMisses(m: map<Key, Bytes>, ws: seq<Write>, s: Key)
    ensures !Hit(ws, s) ==> Slot(Overlay(m, ws), s) == Slot(m, s)
  {
    if ws != [] && !Hit(ws, s) {
      var init, last := ws[..|ws| - 1], ws[|ws| - 1];
      assert ws == init + [last] && last in ws;
      assert forall w :: w in init ==> w in ws;
      OverlayMisses(m, init, s);
    }
  }

  lemma {:induction false} OverlayDeletes(m: map<Key, Bytes>, ws: seq<Write>, s: Key)
    requires Distinct(ws)
    ensures Hit(ws, s) && !LiveIn(ws, s) ==> s !in Overlay(m, ws)
  {
    if ws != [] {
      var init, last := ws[..|ws| - 1], ws[|ws| - 1];
      assert ws == init + [last];
      assert forall i :: 0 <= i < |init| ==> init[i] == ws[i];
      HitSnoc(init, last, s);
      OverlayDeletes(m, init, s);
    }
  }

  ghost predicate SameSlots(m: map<Key, Bytes>, m': map<Key, Bytes>) {
    forall s :: Slot(m, s) == Slot(m', s)
  }

  lemma SameSlotsEqual(m: map<Key, Bytes>, m': map<Key, Bytes>)
    ensures SameSlots(m, m') <==> m == m'
  {
    if SameSlots(m, m') {
      assert forall s :: Slot(m, s) == Slot(m', s) ==> (s in m <==> s in m') && (s in m ==> m[s] == m'[s]);
    }
  }

  /** Undoing the slot writes of an update that did not wipe restores every slot; after
      a wipe it takes back exactly the slots the block wrote. */
  lemma UndoRestores(a: Acct, b: Acct, u: Net)
    requires Distinct(u.slots)
    requires b.slots == if u.wipe then a.slots else Overlay(a.slots, u.slots)
    ensures var r := RunKey(T.Some(b), UndoWrites(if u.wipe then map[] else a.slots, u.slots));
      && r.Some? && r.value == b.(slots := r.value.slots)
      && (r.value.slots == a.slots <==> !(u.wipe && exists s :: s in a.slots && LiveIn(u.slots, s)))
  {
    hide RunKey, UndoWrites, LiveIn, Hit, Overlay, Distinct;
    var m := if u.wipe then map[] else a.slots;
    var r := RunKey(T.Some(b), UndoWrites(m, u.slots));
    UndoRun(b, m, u.slots, []);
    forall s ensures Slot(r.value.slots, s) == Slot(a.slots, s) <==> !(u.wipe && s in a.slots && LiveIn(u.slots, s)) {
      UndoRun(b, m, u.slots, s);
      OverlayMisses(a.slots, u.slots, s);
      OverlayDeletes(a.slots, u.slots, s);
      LiveHits(u.slots, s);
    }
    SameSlotsEqual(r.value.slots, a.slots);
  }

  lemma LiveHits(ws: seq<Write>, s: Key)
    ensures LiveIn(ws, s) ==> Hit(ws, s)
  {
  }

  /** Running the inverse of a net update restores the account exactly, except exactly
      when the update clobbers a slot. */
  lemma InverseRestores(a: Option<Acct>, listed: seq<Entry>, u: Net)
    requires Distinct(u.slots) && (a.Some? ==> Lists(listed, a.value.slots))
    ensures RunKey(ApplyNet(a, u), Inverse(a, listed, u)) == a <==> !Clobbers(a, u)
  {
    hide RunKey, Distinct, Lists, Restores, UndoWrites, LiveIn, ApplyNet;
    if a.None? {
      RunNone(ApplyNet(a, u));
      RunOne(ApplyNet(a, u), DeleteAccount);
    } else if u.account.Delete? {
      ApplyNetDelete(a, u);
      RunKeyConcat(T.None, [WipeStorage, Reset(a.value)], Restores(listed));
      WipeReset(a.value);
      RestoresRun(a.value.(slots := map[]), listed);
      MapOfLists(listed, a.value.slots);
      assert map[] + a.value.slots == a.value.slots;
    } else {
      InverseKept(a.value, listed, u);
    }
  }

  lemma RunNone(a: Option<Acct>)
    ensures RunKey(a, []) == a
  {
  }

  lemma WipeReset(a: Acct)
    ensures RunKey(T.None, [WipeStorage, Reset(a)]) == T.Some(a.(slots := map[]))
  {
    RunOne(T.None, WipeStorage);
    assert [WipeStorage, Reset(a)] == [WipeStorage] + [Reset(a)];
    RunKeyConcat(T.None, [WipeStorage], [Reset(a)]);
    RunOne(T.None, Reset(a));
  }

  lemma InverseKept(a: Acct, listed: seq<Entry>, u: Net)
    requires Distinct(u.slots) && Lists(listed, a.slots) && !u.account.Delete?
    ensures RunKey(ApplyNet(T.Some(a), u), Inverse(T.Some(a), listed, u)) == T.Some(a) <==> !Clobbers(T.Some(a), u)
  {
    hide RunKey, Distinct, Lists, Restores, UndoWrites, LiveIn, ApplyNet, Overlay;
    var p := if u.wipe then [WipeStorage] + Restores(listed) else [];
    var q := if u.account.Set? then [Reset(a)] else [];
    var m := if u.wipe then map[] else a.slots;
    var was := ApplyNet(T.Some(a), u);
    ApplyNetClosed(T.Some(a), u);
    RunKeyConcat(was, p + q, UndoWrites(m, u.slots));
    RunKeyConcat(was, p, q);
    var base := was.value.(slots := if u.wipe then a.slots else was.value.slots);
    RestoredBase(was.value, a.slots, listed, u.wipe);
    RunNone(T.Some(base));
    RunOne(T.Some(base), Reset(a));
    UndoRestores(a, a.(slots := base.slots), u);
  }

  lemma RestoredBase(b: Acct, slots: map<Key, Bytes>, listed: seq<Entry>, wipe: bool)
    requires Lists(listed, slots)
    ensures RunKey(T.Some(b), if wipe then [WipeStorage] + Restores(listed) else []) ==
      T.Some(b.(slots := if wipe then slots else b.slots))
  {
    hide RunKey, Lists, Restores;
    RunNone(T.Some(b));
    RunKeyConcat(T.Some(b), [WipeStorage], Restores(listed));
    RunOne(T.Some(b), WipeStorage);
    RestoresRun(b.(slots := map[]), listed);
    MapOfLists(listed, slots);
    assert map[] + slots == slots;
  }

  /** The inverse of a net update is never itself a phantom, so normalising it loses
      nothing. */
  lemma InverseNoPhantom(a: Option<Acct>, listed: seq<Entry>, u: Net)
    ensures !Phantom(ApplyNet(a, u), Inverse(a, listed, u))
  {
    hide ApplyNet, Stands;
    if a.None? {
    } else if u.account.Delete? {
      assert Sets(Inverse(a, listed, u)[1]);
    } else {
      ApplyNetClosed(a, u);
    }
  }

  /** A block clobbers an account if it wipes its storage and leaves a slot written that
      the account held before. */
  ghost predicate Rewrites(a: Option<Acct>, ops: seq<StateOp>) {
    && a.Some?
    && (exists i :: 0 <= i < |ops| && (ops[i].WipeStorage? || ops[i].DeleteAccount?))
    && (exists s :: s in a.value.slots && Stands(ops, s))
  }

  lemma RewritesClobbers(a: Option<Acct>, ops: seq<StateOp>)
    ensures Clobbers(a, NetOf(ops)) <==> Rewrites(a, ops)
  {
    hide Stands, NetOf;
    NetIsKnown(ops);
    var u := NetOf(ops);
    if u.account.Delete? {
      assert forall s :: !LiveIn(u.slots, s);
    }
  }

  /** Applying a block and then its inverse, each through its net update, restores the
      account exactly when the block does not wipe it and rewrite a slot it held. */
  lemma ApplyThenInverse(a: Option<Acct>, listed: seq<Entry>, ops: seq<StateOp>)
    requires a.Some? ==> Lists(listed, a.value.slots)
    ensures var u := NetOf(ops);
      ApplyNet(ApplyNet(a, u), NetOf(Inverse(a, listed, u))) == a <==> !Rewrites(a, ops)
  {
    hide Stands, NetOf, ApplyNet, Inverse, Lists, RunKey, Phantom, Rewrites, Clobbers;
    var u := NetOf(ops);
    NetIsKnown(ops);
    InverseRestores(a, listed, u);
    InverseNoPhantom(a, listed, u);
    NetRefines(ApplyNet(a, u), Inverse(a, listed, u));
    RewritesClobbers(a, ops);
  }

  /** `inv` holds, key by key, the inverse of the block on `w`. */
  ghost predicate InverseOf(w: World, ops: seq<KeyedOp>, inv: seq<KeyedOp>) {
    forall k :: InverseAt(w, ops, inv, k)
  }

  ghost predicate InverseAt(w: World, ops: seq<KeyedOp>, inv: seq<KeyedOp>, k: Key) {
    exists listed :: (k in w ==> Lists(listed, w[k].slots)) && OpsFor(inv, k) == Inverse(At(w, k), listed, NetOf(OpsFor(ops, k)))
  }

  /** The block law: applying a block and then its inverse gives the prior state back,
      exactly when the block wipes no account and rewrites a slot it held. */
  lemma BlockInverse(w: World, ops: seq<KeyedOp>, inv: seq<KeyedOp>)
    requires InverseOf(w, ops, inv)
    ensures ApplyBlock(ApplyBlock(w, ops), inv) == w <==> forall k :: !Rewrites(At(w, k), OpsFor(ops, k))
  {
    hide ApplyBlock, Rewrites, ApplyNet, NetOf, Inverse, Lists, OpsFor;
    var back := ApplyBlock(ApplyBlock(w, ops), inv);
    SameWorld(back, w);
    forall k ensures At(back, k) == At(w, k) <==> !Rewrites(At(w, k), OpsFor(ops, k)) {
      assert InverseAt(w, ops, inv, k);
      var listed :| (k in w ==> Lists(listed, w[k].slots)) && OpsFor(inv, k) == Inverse(At(w, k), listed, NetOf(OpsFor(ops, k)));
      ApplyBlockAt(w, ops, k);
      ApplyBlockAt(ApplyBlock(w, ops), inv, k);
      ApplyThenInverse(At(w, k), listed, OpsFor(ops, k));
    }
  }

  /** Wiping an account and rewriting a slot it held: the inverse does not restore it. */
  lemma RewriteExample(slot: Key, before: Bytes, now: Bytes)
    ensures var a := T.Some(NEW_ACCOUNT.(slots := map[slot := before]));
      var u := NetOf([WipeStorage, SetStorage(slot, now)]);
      ApplyNet(ApplyNet(a, u), NetOf(Inverse(a, [Entry(slot, before)], u))) != a
  {
    hide NetOf, ApplyNet, Inverse;
    var ops := [WipeStorage, SetStorage(slot, now)];
    assert ops[0].WipeStorage?;
    assert StandsAt(ops, slot, 1);
    assert slot in map[slot := before] && Stands(ops, slot);
    ApplyThenInverse(T.Some(NEW_ACCOUNT.(slots := map[slot := before])), [Entry(slot, before)], ops);
  }
}

/** What a leaf operation means, told by lookups: which fields the account has afterwards,
    which slots read what, and which operations fit what is there.
 */
module LeafOps {
  import opened Trie
  import opened TrieLaws
  import opened TrieHistory
  import opened TrieRoot
  import opened FrontierFlatten
  import opened PlainStorage
  import B = BlockOps

  /** The storage before the operation; a missing account has none. */
  function StorageBefore(o: Option<Item>): Node {
    if o.Some? && o.value.Account? then o.value.storage else Empty
  }

  ghost predicate SameFields(a: Item, b: Item) {
    a.Account? && b.Account? && a.nonce == b.nonce && a.balance == b.balance && a.codeHash == b.codeHash
  }

  /** Setting an account replaces its three fields and touches no slot; setting a slot
      changes that slot alone and creates a missing account with nonce and balance zero and no
      code; setting a value replaces a value. */
  lemma PutMeans(before: Option<Item>, op: LeafOp)
    requires OpOk(op) && ItemOk(before) && PlainItem(before)
    ensures var r := Resolve(before, op);
      && (r.Ok? <==> before.None? || (op.SetValue? <==> before.value.Value?))
      && (r.Ok? && op.SetValue? ==> r.value == Value(op.bytes))
      && (r.Ok? && op.SetAccount? ==>
        && r.value.Account? && r.value.nonce == op.nonce && r.value.balance == op.balance && r.value.codeHash == op.codeHash
        && SameLookups(StorageBefore(before), r.value.storage, KEY_NIBBLES))
      && (r.Ok? && op.SetSlot? ==>
        && SameFields(r.value, if before.Some? then before.value else Account(0, 0, EMPTY_CODE_HASH, Empty))
        && Updated(StorageBefore(before), r.value.storage, op.slot, Some(Value(op.bytes))))
  {
    hide Insert, Canonical, ValuesOnly, Updated, Get;
    if op.SetSlot? && (before.None? || before.value.Account?) {
      EmptyValues();
      EmptyCanonical(KEY_NIBBLES);
      SlotPut(StorageBefore(before), op.slot, op.bytes);
    }
  }

  lemma SlotPut(n: Node, slot: Path, bytes: Bytes)
    requires |slot| == KEY_NIBBLES && Canonical(n, KEY_NIBBLES) && ValuesOnly(n)
    ensures var r := Insert(n, slot, SetValue(bytes)); r.Ok? && Updated(n, r.value, slot, Some(Value(bytes)))
  {
    hide Canonical, Insert, Updated, Resolve;
    InsertSpec(n, slot, SetValue(bytes));
    PutResolves(Get(n, slot), bytes);
  }

  /** Deleting an account or a value removes it; deleting a slot takes that slot alone and is
      absent exactly when the slot is; wiping takes every slot and is absent exactly when
      there is none.  Fields stay. */
  lemma CutMeans(item: Item, op: DeleteOp)
    requires DeleteOpOk(op) && ItemOk(Some(item)) && PlainItem(Some(item))
    ensures var r := ApplyDelete(item, op);
      && (r.Ok? <==> (if item.Value? then op.DeleteValue? || op.DeleteAccount? else !op.DeleteValue?))
      && (r.Ok? && (op.DeleteValue? || op.DeleteAccount?) ==> r.value.Removed?)
      && (r.Ok? && op.DeleteSlot? ==> (
        if Get(item.storage, op.slot).None? then r.value.Absent?
        else r.value.Changed? && SameFields(r.value.now, item) && Updated(item.storage, r.value.now.storage, op.slot, None)))
      && (r.Ok? && op.WipeStorage? ==> (
        if NoSlots(item.storage) then r.value.Absent?
        else r.value.Changed? && SameFields(r.value.now, item) && NoSlots(r.value.now.storage)))
  {
    hide Delete, Canonical, ValuesOnly, Updated, Get;
    if item.Account? {
      EmptyHasNone(item.storage);
      if op.DeleteSlot? {
        SlotCut(item.storage, op.slot);
      }
    }
  }

  ghost predicate NoSlots(n: Node) {
    forall k: Path :: |k| == KEY_NIBBLES ==> Get(n, k).None?
  }

  lemma EmptyHasNone(n: Node)
    requires Canonical(n, KEY_NIBBLES)
    ensures NoSlots(Empty) && (NoSlots(n) <==> n == Empty)
  {
    if n != Empty {
      var k := SomeKey(n, KEY_NIBBLES);
      assert Get(n, k).Some?;
    }
  }

  lemma SlotCut(n: Node, slot: Path)
    requires |slot| == KEY_NIBBLES && Canonical(n, KEY_NIBBLES) && ValuesOnly(n)
    ensures var r := Delete(n, slot, DeleteValue);
      && r.Ok? && (r.value.Absent? <==> Get(n, slot).None?)
      && (r.value.Changed? ==> Updated(n, r.value.now, slot, None)) && (r.value.Removed? ==> Updated(n, Empty, slot, None))
  {
    hide Canonical, Delete, Updated, ApplyDelete;
    DeleteSpec(n, slot, DeleteValue);
    if Get(n, slot).Some? {
      RemoveApplies(Get(n, slot).value);
      if OnlyKey(n, slot) {
        OnlyKeyEmpties(n, slot);
      }
    }
  }

  /** What a slot reads after the operation. */
  function SlotAfter(a: Option<B.Acct>, op: B.StateOp, slot: Path): Option<Bytes> {
    if op.SetStorage? && op.slot == slot then Some(op.bytes)
    else if op.WipeStorage? || (op.DeleteStorage? && op.slot == slot) || a.None? then None
    else B.Slot(a.value.slots, slot)
  }

  /** The same operations on an account with its slots as a map. */
  lemma ActMeans(a: Option<B.Acct>, op: B.StateOp, slot: Path)
    ensures var b := B.Act(a, op);
      && (b.Some? <==> op.SetAccount? || op.SetStorage? || (a.Some? && !op.DeleteAccount?))
      && (b.Some? && op.SetAccount? ==> b.value.nonce == op.nonce && b.value.balance == op.balance && b.value.codeHash == op.codeHash)
      && (b.Some? && !op.SetAccount? ==> (
        if a.Some? then b.value.nonce == a.value.nonce && b.value.balance == a.value.balance && b.value.codeHash == a.value.codeHash
        else b.value.nonce == 0 && b.value.balance == 0 && b.value.codeHash == EMPTY_CODE_HASH))
      && (b.Some? ==> B.Slot(b.value.slots, slot) == SlotAfter(a, op, slot))
  {
  }
}

/** Storage tries hold plain values: no operation nests an account in an account's storage.
 */
module PlainStorage {
  import opened Trie
  import opened TrieLaws
  import opened TrieHistory
  import opened TrieRoot
  import opened FrontierFlatten

  ghost predicate PlainItem(o: Option<Item>) {
    o.Some? && o.value.Account? ==> ValuesOnly(o.value.storage)
  }

  lemma ValuesStay(n: Node, n': Node, key: Path, o: Option<Item>)
    requires |key| == KEY_NIBBLES && ValuesOnly(n) && Updated(n, n', key, o) && (o.Some? ==> o.value.Value?)
    ensures ValuesOnly(n')
  {
  }

  lemma PlainStays(n: Node, n': Node, key: Path, o: Option<Item>)
    requires AccountsPlain(n, |key|) && Updated(n, n', key, o) && PlainItem(o)
    ensures AccountsPlain(n', |key|)
  {
  }

  lemma EmptyValues()
    ensures ValuesOnly(Empty) && forall len: nat :: AccountsPlain(Empty, len)
  {
  }

  /** A leaf operation keeps storage tries free of nested accounts. */
  lemma ResolvePlain(before: Option<Item>, op: LeafOp)
    requires OpOk(op) && ItemOk(before) && PlainItem(before)
    ensures Resolve(before, op).Ok? ==> PlainItem(Some(Resolve(before, op).value))
  {
    hide Insert, ValuesOnly, Canonical, Updated;
    EmptyValues();
    if op.SetSlot? && (before.None? || before.value.Account?) {
      var storage := if before.None? then Empty else before.value.storage;
      EmptyCanonical(KEY_NIBBLES);
      PutStaysPlain(storage, op.slot, op.bytes);
    }
  }

  lemma PutStaysPlain(n: Node, key: Path, bytes: Bytes)
    requires |key| == KEY_NIBBLES && Canonical(n, KEY_NIBBLES) && ValuesOnly(n)
    ensures Insert(n, key, SetValue(bytes)).Ok? && ValuesOnly(Insert(n, key, SetValue(bytes)).value)
  {
    hide Insert, Canonical, Updated, Resolve;
    InsertSpec(n, key, SetValue(bytes));
    PutResolves(Get(n, key), bytes);
    ValuesStay(n, Insert(n, key, SetValue(bytes)).value, key, Some(Value(bytes)));
  }

  lemma ApplyDeletePlain(item: Item, op: DeleteOp)
    requires DeleteOpOk(op) && ItemOk(Some(item)) && PlainItem(Some(item))
    ensures var r := ApplyDelete(item, op); r.Ok? && r.value.Changed? ==> PlainItem(Some(r.value.now))
  {
    hide Delete, ValuesOnly, Canonical, Updated;
    EmptyValues();
    if op.DeleteSlot? && item.Account? {
      RemoveStaysPlain(item.storage, op.slot);
    }
  }

  lemma RemoveStaysPlain(n: Node, key: Path)
    requires |key| == KEY_NIBBLES && Canonical(n, KEY_NIBBLES) && ValuesOnly(n)
    ensures var r := Delete(n, key, DeleteValue); r.Ok? && (r.value.Changed? ==> ValuesOnly(r.value.now))
  {
    hide Delete, Canonical, Updated, ApplyDelete;
    DeleteSpec(n, key, DeleteValue);
    if Get(n, key).Some? {
      RemoveApplies(Get(n, key).value);
      var r := Delete(n, key, DeleteValue);
      if r.Ok? && r.value.Changed? {
        ValuesStay(n, r.value.now, key, None);
      }
    }
  }

  lemma PlainAt(n: Node, key: Path)
    requires AccountsPlain(n, |key|)
    ensures PlainItem(Get(n, key))
  {
  }
}

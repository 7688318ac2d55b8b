/** The record trie: the in-record Merkle-Patricia node tree with its structural insert
    and delete.

    A node is owned by exactly one parent and the source replaces it whole, so a node
    update is a function from the old node to the new one.  Keys are nibble paths; the
    argument is always the part of the key below the node, which is what the source
    reads as the key from its current depth on.  An absent branch slot is `Empty`.
 */
module Trie {

  type Nibble = x: int | 0 <= x < 16
  type Path = seq<Nibble>
  type Byte = x: int | 0 <= x < 256
  type Bytes = seq<Byte>

  datatype Option<+T> = None | Some(value: T)
  datatype Result<+T> = Ok(value: T) | Err

  /** What a leaf holds: a plain value, or an account with its nested storage trie. */
  datatype Item = Value(bytes: Bytes) | Account(nonce: nat, balance: nat, codeHash: Bytes, storage: Node)

  datatype Node =
    | Empty
    | Leaf(path: Path, item: Item)
    | Extension(path: Path, child: Node)
    | Branch(children: seq<Node>)

  const KEY_NIBBLES: nat := 64
  /** The hash of no code. */
  const EMPTY_CODE_HASH: Bytes :=
    [0xc5, 0xd2, 0x46, 0x01, 0x86, 0xf7, 0x23, 0x3c, 0x92, 0x7e, 0x7d, 0xb2, 0xdc, 0xc7, 0x03, 0xc0,
     0xe5, 0x00, 0xb6, 0x53, 0xca, 0x82, 0x27, 0x3b, 0x7b, 0xfa, 0xd8, 0x04, 0x5d, 0x85, 0xa4, 0x70]

  // ----------------------------------------------------------------------- shape

  /** The slots of a branch that hold something. */
  function LiveSlots(children: seq<Node>): set<int> {
    set i | 0 <= i < |children| && children[i] != Empty
  }

  /** The one canonical shape for keys of `len` nibbles: no empty or one-child branch,
      no extension over anything but a branch. */
  ghost predicate Canonical(n: Node, len: nat)
    decreases n
  {
    && (n.Leaf? ==> |n.path| == len && (n.item.Account? ==> Canonical(n.item.storage, KEY_NIBBLES)))
    && (n.Extension? ==> 0 < |n.path| < len && n.child.Branch? && Canonical(n.child, len - |n.path|))
    && (n.Branch? ==>
      && 0 < len && |n.children| == 16
      && (forall i :: 0 <= i < 16 ==> Canonical(n.children[i], len - 1))
      && 2 <= |LiveSlots(n.children)|)
  }

  // ---------------------------------------------------------------------- lookup

  function Get(n: Node, key: Path): Option<Item> {
    match n
    case Empty => None
    case Leaf(path, item) => if key == path then Some(item) else None
    case Extension(path, child) => if path <= key then Get(child, key[|path|..]) else None
    case Branch(children) =>
      if key != [] && |children| == 16 then Get(children[key[0]], key[1..]) else None
  }

  function CommonPrefix(a: Path, b: Path): (c: nat)
    ensures c <= |a| && c <= |b| && a[..c] == b[..c]
    ensures c < |a| && c < |b| ==> a[c] != b[c]
  {
    if a != [] && b != [] && a[0] == b[0] then 1 + CommonPrefix(a[1..], b[1..]) else 0
  }

  // ---------------------------------------------------------------------- insert

  datatype LeafOp =
    | SetValue(bytes: Bytes)
    | SetAccount(nonce: nat, balance: nat, codeHash: Bytes)
    | SetSlot(slot: Path, bytes: Bytes)

  predicate OpOk(op: LeafOp) {
    op.SetSlot? ==> |op.slot| == KEY_NIBBLES
  }

  function Rank(op: LeafOp): nat {
    if op.SetSlot? then 1 else 0
  }

  const NO_CHILDREN: seq<Node> := [Empty, Empty, Empty, Empty, Empty, Empty, Empty, Empty,
                                   Empty, Empty, Empty, Empty, Empty, Empty, Empty, Empty]

  function ExtensionOver(path: Path, n: Node): Node {
    if path == [] then n else Extension(path, n)
  }

  /** A branch after the first `c` nibbles with two children. */
  function Fork(prefix: Path, i: Nibble, x: Node, j: Nibble, y: Node): Node {
    ExtensionOver(prefix, Branch(NO_CHILDREN[i := x][j := y]))
  }

  /** The item a leaf operation leaves at its key, given what was there. */
  function Resolve(before: Option<Item>, op: LeafOp): Result<Item>
    requires OpOk(op)
    requires before.Some? && before.value.Account? ==> Canonical(before.value.storage, KEY_NIBBLES)
    decreases Rank(op), 0
  {
    match (before, op)
    case (None, SetValue(v)) => Ok(Value(v))
    case (None, SetAccount(n, b, c)) => Ok(Account(n, b, c, Empty))
    case (None, SetSlot(slot, v)) =>
      var r := Insert(Empty, slot, SetValue(v));
      if r.Ok? then Ok(Account(0, 0, EMPTY_CODE_HASH, r.value)) else Err
    case (Some(Value(_)), SetValue(v)) => Ok(Value(v))
    case (Some(Account(_, _, _, storage)), SetAccount(n, b, c)) => Ok(Account(n, b, c, storage))
    case (Some(Account(n, b, c, storage)), SetSlot(slot, v)) =>
      var r := Insert(storage, slot, SetValue(v));
      if r.Ok? then Ok(Account(n, b, c, r.value)) else Err
    case _ => Err
  }

  function PlaceNew(key: Path, op: LeafOp): Result<Node>
    requires OpOk(op)
    decreases Rank(op), 1
  {
    var r := Resolve(None, op);
    if r.Ok? then Ok(Leaf(key, r.value)) else Err
  }

  function Insert(n: Node, key: Path, op: LeafOp): Result<Node>
    requires OpOk(op) && Canonical(n, |key|)
    decreases Rank(op), 2, n
  {
    match n
    case Empty => PlaceNew(key, op)
    case Leaf(path, item) =>
      var c := CommonPrefix(path, key);
      if c == |path| then
        var r := Resolve(Some(item), op);
        if r.Ok? then Ok(Leaf(path, r.value)) else Err
      else
        var fresh_leaf := PlaceNew(key[c + 1..], op);
        if fresh_leaf.Err? then Err
        else Ok(Fork(path[..c], path[c], Leaf(path[c + 1..], item), key[c], fresh_leaf.value))
    case Extension(path, child) =>
      var c := CommonPrefix(path, key);
      if c == |path| then
        var r := Insert(child, key[c..], op);
        if r.Ok? then Ok(Extension(path, r.value)) else Err
      else
        var fresh_leaf := PlaceNew(key[c + 1..], op);
        if fresh_leaf.Err? then Err
        else Ok(Fork(path[..c], path[c], ExtensionOver(path[c + 1..], child), key[c], fresh_leaf.value))
    case Branch(children) =>
      var i := key[0];
      var r := if children[i] == Empty then PlaceNew(key[1..], op) else Insert(children[i], key[1..], op);
      if r.Ok? then Ok(Branch(children[i := r.value])) else Err
  }

  // ---------------------------------------------------------------------- delete

  datatype DeleteOp = DeleteValue | DeleteAccount | DeleteSlot(slot: Path) | WipeStorage

  predicate DeleteOpOk(op: DeleteOp) {
    op.DeleteSlot? ==> |op.slot| == KEY_NIBBLES
  }

  function DeleteRank(op: DeleteOp): nat {
    if op.DeleteSlot? then 1 else 0
  }

  /** Outcome of a delete: nothing there, changed in place, or the whole thing gone. */
  datatype Deleted<+T> = Absent | Changed(now: T) | Removed

  function ApplyDelete(item: Item, op: DeleteOp): Result<Deleted<Item>>
    requires DeleteOpOk(op) && (item.Account? ==> Canonical(item.storage, KEY_NIBBLES))
    decreases DeleteRank(op), 0
  {
    match (item, op)
    case (Value(_), DeleteValue) => Ok(Removed)
    case (Value(_), DeleteAccount) => Ok(Removed)
    case (Account(_, _, _, _), DeleteAccount) => Ok(Removed)
    case (Account(n, b, c, storage), DeleteSlot(slot)) =>
      var r := Delete(storage, slot, DeleteValue);
      if r.Err? then Err
      else (match r.value
            case Absent => Ok(Absent)
            case Removed => Ok(Changed(Account(n, b, c, Empty)))
            case Changed(s) => Ok(Changed(Account(n, b, c, s))))
    case (Account(n, b, c, storage), WipeStorage) =>
      if storage == Empty then Ok(Absent) else Ok(Changed(Account(n, b, c, Empty)))
    case _ => Err
  }

  /** Re-root a node shallower by putting `edge` in front of its top path. */
  function PrependPath(n: Node, edge: Path): Node {
    if edge == [] then n
    else match n
      case Leaf(path, item) => Leaf(edge + path, item)
      case Extension(path, child) => Extension(edge + path, child)
      case Branch(_) => Extension(edge, n)
      case Empty => Empty
  }

  function FirstLive(children: seq<Node>): nat {
    if children == [] || children[0] != Empty then 0 else 1 + FirstLive(children[1..])
  }

  /** A branch whose slot was just emptied: it vanishes, collapses into its last
      survivor, or stays. */
  function Collapse(children: seq<Node>): Deleted<Node> {
    if |LiveSlots(children)| == 0 then Removed
    else if |LiveSlots(children)| == 1 then
      var j := FirstLive(children);
      if j < |children| && j < 16 then Changed(PrependPath(children[j], [j])) else Removed
    else Changed(Branch(children))
  }

  function Delete(n: Node, key: Path, op: DeleteOp): Result<Deleted<Node>>
    requires DeleteOpOk(op) && Canonical(n, |key|)
    decreases DeleteRank(op), 1, n
  {
    match n
    case Empty => Ok(Absent)
    case Leaf(path, item) =>
      if path != key then Ok(Absent)
      else
        var r := ApplyDelete(item, op);
        if r.Err? then Err
        else (match r.value
              case Absent => Ok(Absent)
              case Changed(it) => Ok(Changed(Leaf(path, it)))
              case Removed => Ok(Removed))
    case Extension(path, child) =>
      if !(path <= key) then Ok(Absent)
      else
        var r := Delete(child, key[|path|..], op);
        if r.Err? then Err
        else (match r.value
              case Absent => Ok(Absent)
              case Removed => Ok(Removed)
              case Changed(c) => Ok(Changed(PrependPath(c, path))))
    case Branch(children) =>
      var i := key[0];
      var r := Delete(children[i], key[1..], op);
      if r.Err? then Err
      else (match r.value
            case Absent => Ok(Absent)
            case Changed(c) => Ok(Changed(Branch(children[i := c])))
            case Removed => Ok(Collapse(children[i := Empty])))
  }
}

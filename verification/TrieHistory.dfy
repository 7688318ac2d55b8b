/** Delete is the exact inverse point update, the canonical shape is unique, and so any
    history of inserts and deletes ends in the trie its final contents determine.
 */
module TrieHistory {
  import opened Trie
  import opened TrieLaws

  // ---------------------------------------------------------------------- delete

  ghost predicate OnlyKey(n: Node, key: Path) {
    forall k: Path :: |k| == |key| && k != key ==> Get(n, k) == None
  }

  ghost predicate ChangedTo(n: Node, r: Result<Deleted<Node>>, key: Path, o: Option<Item>) {
    r.Ok? && r.value.Changed? && r.value.now != Empty && Canonical(r.value.now, |key|) && Updated(n, r.value.now, key, o)
  }

  /** Delete reports Absent exactly when nothing is to be done at the key, Removed
      exactly when the key was the last one, and otherwise changes exactly the key. */
  ghost predicate DeleteOk(n: Node, key: Path, op: DeleteOp)
    requires DeleteOpOk(op) && Canonical(n, |key|)
  {
    && ItemOk(Get(n, key))
    && var r := Delete(n, key, op);
       if Get(n, key).None? then r == Ok(Absent)
       else
         var a := ApplyDelete(Get(n, key).value, op);
         if a.Err? then r == Err
         else if a.value.Absent? then r == Ok(Absent)
         else if a.value.Changed? then ChangedTo(n, r, key, Some(a.value.now))
         else if OnlyKey(n, key) then r == Ok(Removed)
         else ChangedTo(n, r, key, None)
  }

  lemma {:induction false} ApplyCanonical(item: Item, op: DeleteOp)
    requires DeleteOpOk(op) && ItemOk(Some(item))
    ensures var a := ApplyDelete(item, op); a.Ok? && a.value.Changed? ==> ItemOk(Some(a.value.now))
    decreases DeleteRank(op), 0
  {
    if op.DeleteSlot? && item.Account? {
      DeleteSpec(item.storage, op.slot, DeleteValue);
      DeleteChangedCanonical(item.storage, op.slot, DeleteValue);
    }
  }

  lemma DeleteChangedCanonical(n: Node, key: Path, op: DeleteOp)
    requires DeleteOpOk(op) && Canonical(n, |key|) && DeleteOk(n, key, op)
    ensures var r := Delete(n, key, op); r.Ok? && r.value.Changed? ==> Canonical(r.value.now, |key|)
  {
  }

  lemma {:induction false} DeleteSpec(n: Node, key: Path, op: DeleteOp)
    requires DeleteOpOk(op) && Canonical(n, |key|)
    ensures DeleteOk(n, key, op)
    decreases DeleteRank(op), 1, n
  {
    match n
    case Empty =>
    case Leaf(path, item) =>
      ApplyCanonical(item, op);
      DeleteLeaf(path, item, key, op);
    case Extension(path, child) =>
      if path <= key {
        DeleteSpec(child, key[|path|..], op);
        DeleteExtension(path, child, key, op);
      }
    case Branch(children) =>
      DeleteSpec(children[key[0]], key[1..], op);
      DeleteBranch(children, key, op);
  }

  lemma DeleteLeaf(path: Path, item: Item, key: Path, op: DeleteOp)
    requires DeleteOpOk(op) && Canonical(Leaf(path, item), |key|)
    requires var a := ApplyDelete(item, op); a.Ok? && a.value.Changed? ==> ItemOk(Some(a.value.now))
    ensures DeleteOk(Leaf(path, item), key, op)
  {
    hide ApplyDelete;
    var n, a := Leaf(path, item), ApplyDelete(item, op);
    if path == key && a.Ok? && a.value.Changed? {
      assert Delete(n, key, op) == Ok(Changed(Leaf(path, a.value.now)));
    }
  }

  lemma DeleteExtension(path: Path, child: Node, key: Path, op: DeleteOp)
    requires DeleteOpOk(op) && Canonical(Extension(path, child), |key|) && path <= key
    requires DeleteOk(child, key[|path|..], op)
    ensures DeleteOk(Extension(path, child), key, op)
  {
    hide ApplyDelete, Updated, OnlyKey, PrependPath;
    var n, rest := Extension(path, child), key[|path|..];
    var r := Delete(child, rest, op);
    assert Get(n, key) == Get(child, rest);
    OnlyKeyExtension(path, child, key);
    if r.Ok? && r.value.Changed? {
      var c := r.value.now;
      assert Delete(n, key, op) == Ok(Changed(PrependPath(c, path)));
      CanonicalPrepend(c, path, |rest|);
      forall o | Updated(child, c, rest, o) ensures Updated(n, PrependPath(c, path), key, o) {
        forall k: Path ensures Get(PrependPath(c, path), k) == if path <= k then Get(c, k[|path|..]) else None {
          GetPrepend(c, path, k);
        }
        UpdatedUnderPath(path, child, c, key, o, PrependPath(c, path));
      }
    }
  }

  lemma OnlyKeyExtension(path: Path, child: Node, key: Path)
    requires path <= key
    ensures OnlyKey(Extension(path, child), key) <==> OnlyKey(child, key[|path|..])
  {
    var n, rest := Extension(path, child), key[|path|..];
    assert key == path + rest;
    if OnlyKey(n, key) {
      forall k: Path | |k| == |rest| && k != rest ensures Get(child, k) == None {
        assert path <= path + k && (path + k)[|path|..] == k;
        assert |path + k| == |key|;
        assert path + k != key;
        assert Get(n, path + k) == Get(child, k);
      }
    }
    if OnlyKey(child, rest) {
      forall k: Path | |k| == |key| && k != key ensures Get(n, k) == None {
        if path <= k {
          assert k == path + k[|path|..];
        }
      }
    }
  }

  lemma DeleteBranch(children: seq<Node>, key: Path, op: DeleteOp)
    requires DeleteOpOk(op) && Canonical(Branch(children), |key|)
    requires DeleteOk(children[key[0]], key[1..], op)
    ensures DeleteOk(Branch(children), key, op)
  {
    hide ApplyDelete, Updated, OnlyKey, Collapse, Canonical;
    BranchShape(children, |key|);
    var n, i, rest := Branch(children), key[0], key[1..];
    var r := Delete(children[i], rest, op);
    assert Get(n, key) == Get(children[i], rest);
    NotOnlyKey(children, key);
    if r.Ok? && r.value.Changed? {
      assert Delete(n, key, op) == Ok(Changed(Branch(children[i := r.value.now])));
      ChangedBranch(children, key, r.value.now);
    } else if r == Ok(Removed) {
      assert Delete(n, key, op) == Ok(Collapse(children[i := Empty]));
      RemovedBranch(children, key);
    }
  }

  lemma BranchShape(children: seq<Node>, len: nat)
    requires Canonical(Branch(children), len)
    ensures |children| == 16 && 0 < len && forall i :: 0 <= i < 16 ==> Canonical(children[i], len - 1)
  {
  }

  lemma ChangedBranch(children: seq<Node>, key: Path, c: Node)
    requires Canonical(Branch(children), |key|) && c != Empty && Canonical(c, |key| - 1)
    ensures Canonical(Branch(children[key[0] := c]), |key|)
    ensures forall o :: Updated(children[key[0]], c, key[1..], o) ==> Updated(Branch(children), Branch(children[key[0] := c]), key, o)
  {
    hide Updated;
    LiveSlotsUpdate(children, key[0], c);
    BranchCanonical(children[key[0] := c], |key|);
    forall o | Updated(children[key[0]], c, key[1..], o) ensures Updated(Branch(children), Branch(children[key[0] := c]), key, o) {
      UpdatedUnderBranch(children, c, key, o);
    }
  }

  lemma RemovedBranch(children: seq<Node>, key: Path)
    requires Canonical(Branch(children), |key|) && OnlyKey(children[key[0]], key[1..]) && Get(Branch(children), key).Some?
    ensures ChangedTo(Branch(children), Ok(Collapse(children[key[0] := Empty])), key, None)
  {
    hide Updated, OnlyKey, Collapse, SameLookups;
    var n, i := Branch(children), key[0];
    OnlyKeyEmpties(children[i], key[1..]);
    UpdatedUnderBranch(children, Empty, key, None);
    CollapseSpec(children, key, i);
    UpdatedAs(n, Branch(children[i := Empty]), Collapse(children[i := Empty]).now, key, None);
  }

  lemma OnlyKeyEmpties(n: Node, key: Path)
    requires OnlyKey(n, key)
    ensures Updated(n, Empty, key, None)
  {
  }

  lemma UpdatedAs(n: Node, m: Node, m': Node, key: Path, o: Option<Item>)
    requires Updated(n, m, key, o) && SameLookups(m, m', |key|)
    ensures Updated(n, m', key, o)
  {
  }

  /** A canonical branch has keys on two slots, so no single key is its only one. */
  lemma NotOnlyKey(children: seq<Node>, key: Path)
    requires Canonical(Branch(children), |key|)
    ensures !OnlyKey(Branch(children), key)
  {
    hide Canonical, Get;
    var k, l := TwoBranchKeys(children, |key|);
    assert Get(Branch(children), k) != None && Get(Branch(children), l) != None;
  }

  lemma TwoSlots(cs: seq<Node>) returns (i: nat, j: nat)
    requires 2 <= |LiveSlots(cs)|
    ensures i < |cs| && j < |cs| && i != j && cs[i] != Empty && cs[j] != Empty
  {
    var a :| a in LiveSlots(cs);
    assert |LiveSlots(cs) - {a}| >= 1;
    var b :| b in LiveSlots(cs) - {a};
    i, j := a, b;
  }

  /** Some key stored in a canonical non-empty trie. */
  ghost function SomeKey(n: Node, len: nat): (k: Path)
    requires Canonical(n, len) && n != Empty
    ensures |k| == len && Get(n, k).Some?
    decreases n
  {
    match n
    case Leaf(path, _) => path
    case Extension(path, child) =>
      var k := SomeKey(child, len - |path|);
      assert (path + k)[|path|..] == k;
      path + k
    case Branch(children) =>
      assert LiveSlots(children) != {};
      var i: Nibble :| i in LiveSlots(children);
      var k := SomeKey(children[i], len - 1);
      assert ([i] + k)[1..] == k;
      [i] + k
  }

  lemma {:induction false} FirstLiveFound(cs: seq<Node>, j: nat)
    requires j < |cs| && cs[j] != Empty
    ensures FirstLive(cs) <= j && cs[FirstLive(cs)] != Empty
  {
    if cs[0] == Empty {
      FirstLiveFound(cs[1..], j - 1);
    }
  }

  /** Emptying one slot of a canonical branch: the collapse keeps every lookup and the
      canonical shape. */
  lemma CollapseSpec(children: seq<Node>, key: Path, i: Nibble)
    requires Canonical(Branch(children), |key|) && children[i] != Empty
    ensures var cs := children[i := Empty];
      Collapse(cs).Changed? && Collapse(cs).now != Empty && Canonical(Collapse(cs).now, |key|)
      && SameLookups(Branch(cs), Collapse(cs).now, |key|)
  {
    hide Get, SameLookups, Canonical, LiveSlots, PrependPath;
    BranchShape(children, |key|);
    var cs := children[i := Empty];
    EmptiedSlots(children, i, |key|);
    if |LiveSlots(cs)| == 1 {
      LoneCollapse(cs, |key|);
    } else {
      BranchCanonical(cs, |key|);
      SameSelf(Branch(cs), |key|);
    }
  }

  lemma EmptiedSlots(children: seq<Node>, i: Nibble, len: nat)
    requires Canonical(Branch(children), len) && children[i] != Empty
    ensures var cs := children[i := Empty];
      && |cs| == 16 && 0 < len && |LiveSlots(cs)| >= 1
      && forall k :: 0 <= k < 16 ==> Canonical(cs[k], len - 1)
  {
    LiveSlotsUpdate(children, i, Empty);
  }

  lemma LoneCollapse(cs: seq<Node>, len: nat)
    requires |cs| == 16 && 0 < len && |LiveSlots(cs)| == 1 && forall i :: 0 <= i < 16 ==> Canonical(cs[i], len - 1)
    ensures Collapse(cs).Changed? && Collapse(cs).now != Empty && Canonical(Collapse(cs).now, len)
    ensures SameLookups(Branch(cs), Collapse(cs).now, len)
  {
    hide Get, SameLookups, Canonical;
    assert LiveSlots(cs) != {};
    var j :| j in LiveSlots(cs);
    FirstLiveFound(cs, j);
    var f := FirstLive(cs);
    assert f in LiveSlots(cs);
    CanonicalPrepend(cs[f], [f as Nibble], len - 1);
    LoneSlots(cs, f);
    LoneLookups(cs, f, len);
  }

  lemma SameSelf(n: Node, len: nat)
    ensures SameLookups(n, n, len)
  {
  }

  lemma LoneSlots(cs: seq<Node>, f: nat)
    requires f in LiveSlots(cs) && |LiveSlots(cs)| == 1
    ensures forall g :: 0 <= g < |cs| && g != f ==> cs[g] == Empty
  {
    assert |LiveSlots(cs) - {f}| == 0;
    forall g | 0 <= g < |cs| && g != f ensures cs[g] == Empty {
      assert g in LiveSlots(cs) ==> g in LiveSlots(cs) - {f};
    }
  }

  lemma LoneLookups(cs: seq<Node>, f: Nibble, len: nat)
    requires |cs| == 16 && 0 < len && cs[f] != Empty && forall g :: 0 <= g < |cs| && g != f ==> cs[g] == Empty
    ensures SameLookups(Branch(cs), PrependPath(cs[f], [f]), len)
  {
    forall k: Path | |k| == len ensures Get(Branch(cs), k) == Get(PrependPath(cs[f], [f]), k) {
      GetPrepend(cs[f], [f], k);
      assert [f] <= k <==> k[0] == f;
    }
  }

  // ------------------------------------------------------------------ uniqueness

  /** Where the keys of a node first disagree. */
  function Fan(n: Node): nat {
    if n.Extension? then |n.path| else 0
  }

  /** An extension or branch holds two keys that agree up to its fan and differ there. */
  lemma TwoKeys(n: Node, len: nat) returns (k: Path, l: Path)
    requires Canonical(n, len) && (n.Branch? || n.Extension?)
    ensures |k| == |l| == len && Get(n, k).Some? && Get(n, l).Some?
    ensures Fan(n) < len && k[..Fan(n)] == l[..Fan(n)] && k[Fan(n)] != l[Fan(n)]
  {
    if n.Extension? {
      var x, y := TwoBranchKeys(n.child.children, len - |n.path|);
      k, l := n.path + x, n.path + y;
      assert k[|n.path|..] == x && l[|n.path|..] == y;
    } else {
      k, l := TwoBranchKeys(n.children, len);
    }
  }

  lemma TwoBranchKeys(cs: seq<Node>, len: nat) returns (k: Path, l: Path)
    requires Canonical(Branch(cs), len)
    ensures |k| == |l| == len && 0 < len && k[0] != l[0]
    ensures Get(Branch(cs), k).Some? && Get(Branch(cs), l).Some?
  {
    var i, j := TwoSlots(cs);
    var x, y := SomeKey(cs[i], len - 1), SomeKey(cs[j], len - 1);
    k, l := [i as Nibble] + x, [j as Nibble] + y;
    assert k[1..] == x && l[1..] == y;
  }

  /** All keys of a node share its top path. */
  lemma KeysShareFan(n: Node, len: nat, k: Path, l: Path)
    requires Canonical(n, len) && Get(n, k).Some? && Get(n, l).Some? && Fan(n) <= |k| && Fan(n) <= |l|
    ensures forall i :: 0 <= i < Fan(n) ==> k[i] == l[i]
  {
  }

  lemma SameFan(n: Node, m: Node, len: nat)
    requires Canonical(n, len) && Canonical(m, len) && SameLookups(n, m, len)
    requires n.Branch? || n.Extension?
    requires m.Branch? || m.Extension?
    ensures Fan(n) <= Fan(m)
  {
    var k, l := TwoKeys(m, len);
    assert Get(n, k) == Get(m, k) && Get(n, l) == Get(m, l);
    KeysShareFan(n, len, k, l);
  }

  lemma SameKind(n: Node, m: Node, len: nat)
    requires Canonical(n, len) && Canonical(m, len) && SameLookups(n, m, len)
    ensures n.Empty? ==> m.Empty?
    ensures n.Leaf? && m != Empty ==> m == n
  {
    if m != Empty {
      assert Get(m, SomeKey(m, len)) == Get(n, SomeKey(m, len));
    }
    if n.Leaf? {
      assert Get(n, n.path) == Get(m, n.path);
    }
    if m.Branch? || m.Extension? {
      var k, l := TwoKeys(m, len);
      assert Get(n, k) == Get(m, k) && Get(n, l) == Get(m, l);
    }
  }

  lemma LookupsUnderExtension(path: Path, c: Node, d: Node, len: nat)
    requires |path| <= len && SameLookups(Extension(path, c), Extension(path, d), len)
    ensures SameLookups(c, d, len - |path|)
  {
    forall k: Path | |k| == len - |path| ensures Get(c, k) == Get(d, k) {
      assert path <= path + k && (path + k)[|path|..] == k;
      assert Get(Extension(path, c), path + k) == Get(c, k);
      assert Get(Extension(path, d), path + k) == Get(d, k);
    }
  }

  lemma LookupsUnderBranch(cs: seq<Node>, ds: seq<Node>, len: nat, i: Nibble)
    requires |cs| == |ds| == 16 && 0 < len && SameLookups(Branch(cs), Branch(ds), len)
    ensures SameLookups(cs[i], ds[i], len - 1)
  {
    forall k: Path | |k| == len - 1 ensures Get(cs[i], k) == Get(ds[i], k) {
      assert ([i] + k)[1..] == k;
      assert Get(Branch(cs), [i] + k) == Get(cs[i], k);
      assert Get(Branch(ds), [i] + k) == Get(ds[i], k);
    }
  }

  /** Canonical form: lookups determine the trie. */
  lemma {:induction false} CanonicalIsUnique(n: Node, m: Node, len: nat)
    requires Canonical(n, len) && Canonical(m, len) && SameLookups(n, m, len)
    ensures n == m
    decreases n
  {
    SameKind(n, m, len);
    SameKind(m, n, len);
    if n != Empty && !n.Leaf? && m != Empty && !m.Leaf? {
      SameFan(n, m, len);
      SameFan(m, n, len);
      if n.Extension? {
        SamePath(n, m, len);
        LookupsUnderExtension(n.path, n.child, m.child, len);
        CanonicalIsUnique(n.child, m.child, len - |n.path|);
      } else {
        forall i | 0 <= i < 16 ensures n.children[i] == m.children[i] {
          LookupsUnderBranch(n.children, m.children, len, i);
          CanonicalIsUnique(n.children[i], m.children[i], len - 1);
        }
      }
    }
  }

  lemma SamePath(n: Node, m: Node, len: nat)
    requires Canonical(n, len) && Canonical(m, len) && SameLookups(n, m, len)
    requires n.Extension? && Fan(n) == Fan(m)
    ensures m.Extension? && m.path == n.path
  {
    if m.Extension? {
      var k := SomeKey(n, len);
      assert Get(n, k) == Get(m, k);
      assert n.path <= k && m.path <= k;
    }
  }
}

/** Whole blocks on the record trie, and the block law on the trie itself: a block followed
    by its inverse gives the very same trie back.
 */
module BlockTrie {
  import opened Trie
  import opened TrieLaws
  import opened TrieHistory
  import opened FrontierFlatten
  import opened BlockRecord
  import B = BlockOps
  import N = BlockNormalize

  // ---------------------------------------------------------------- whole blocks

  /** The trie holds exactly the accounts of the world, inline and structured. */
  ghost predicate Shows(n: Node, w: B.World) {
    && Canonical(n, KEY_NIBBLES)
    && (forall k: Path :: |k| == KEY_NIBBLES ==> Structured(Get(n, k)) && AcctOf(Get(n, k)) == B.At(w, k))
    && (forall k: Path :: k in w ==> |k| == KEY_NIBBLES)
  }

  /** One world, one trie. */
  lemma ShowsUnique(n: Node, n': Node, w: B.World)
    requires Shows(n, w) && Shows(n', w)
    ensures n == n'
  {
    hide Canonical, SlotsOf;
    forall k: Path | |k| == KEY_NIBBLES ensures Get(n, k) == Get(n', k) {
      SameAccount(Get(n, k), Get(n', k));
    }
    CanonicalIsUnique(n, n', KEY_NIBBLES);
  }

  lemma SameAccount(o: Option<Item>, o': Option<Item>)
    requires Structured(o) && Structured(o') && AcctOf(o) == AcctOf(o')
    ensures o == o'
  {
    hide Canonical, SlotsOf;
    if o.Some? && o'.Some? {
      SameSlotsSameTrie(o.value.storage, o'.value.storage, KEY_NIBBLES);
    }
  }

  predicate BlockOk(ops: seq<B.KeyedOp>) {
    forall i :: 0 <= i < |ops| ==> |ops[i].key| == KEY_NIBBLES && StateOpOk(ops[i].op)
  }

  predicate StateOpOk(op: B.StateOp) {
    op.SetStorage? || op.DeleteStorage? ==> |op.slot| == KEY_NIBBLES
  }

  lemma {:induction false} OpsForOk(ops: seq<B.KeyedOp>, key: Path)
    requires BlockOk(ops)
    ensures forall i :: 0 <= i < |B.OpsFor(ops, key)| ==> StateOpOk(B.OpsFor(ops, key)[i])
  {
    if ops != [] {
      OpsForOk(ops[..|ops| - 1], key);
    }
  }

  lemma {:induction false} NetOfOk(ops: seq<B.StateOp>)
    requires forall i :: 0 <= i < |ops| ==> StateOpOk(ops[i])
    ensures NetOk(B.NetOf(ops))
  {
    if ops != [] {
      NetOfOk(ops[..|ops| - 1]);
    }
  }

  function Keyed(key: Path, ops: seq<B.StateOp>): (r: seq<B.KeyedOp>)
    ensures |r| == |ops| && forall i :: 0 <= i < |ops| ==> r[i] == B.KeyedOp(key, ops[i])
  {
    if ops == [] then [] else Keyed(key, ops[..|ops| - 1]) + [B.KeyedOp(key, ops[|ops| - 1])]
  }

  lemma {:induction false} OpsForKeyed(inv: seq<B.KeyedOp>, key: Path, ops: seq<B.StateOp>, k: Path)
    ensures B.OpsFor(inv + Keyed(key, ops), k) == B.OpsFor(inv, k) + if k == key then ops else []
    decreases |ops|
  {
    if ops == [] {
      assert inv + Keyed(key, ops) == inv;
    } else {
      var init, last := ops[..|ops| - 1], ops[|ops| - 1];
      OpsForKeyed(inv, key, init, k);
      var all := inv + Keyed(key, ops);
      assert all[..|all| - 1] == inv + Keyed(key, init) && all[|all| - 1] == B.KeyedOp(key, last);
      assert ops == init + [last];
    }
  }

  /** What the trie holds at a key once the keys of `done` were updated. */
  ghost predicate Halfway(n: Node, w: B.World, ops: seq<B.KeyedOp>, done: set<Path>, k: Path) {
    && Structured(Get(n, k))
    && AcctOf(Get(n, k)) == if k in done then B.ApplyNet(B.At(w, k), B.NetOf(B.OpsFor(ops, k))) else B.At(w, k)
  }

  ghost predicate InverseHalf(w: B.World, ops: seq<B.KeyedOp>, inv: seq<B.KeyedOp>, done: set<Path>, k: Path) {
    if k in done then B.InverseAt(w, ops, inv, k) else B.OpsFor(inv, k) == []
  }

  lemma TouchedOk(ops: seq<B.KeyedOp>)
    requires BlockOk(ops)
    ensures forall k :: k in B.Touched(ops) ==> |k| == KEY_NIBBLES
  {
  }

  lemma EmptyOps(w: B.World, ops: seq<B.KeyedOp>)
    ensures forall k :: InverseHalf(w, ops, [], {}, k)
  {
  }

  /** The inverse operations are again well formed. */
  lemma InverseOk(n: Node, key: Path, u: B.Net)
    requires Structured(Get(n, key)) && NetOk(u)
    ensures forall op :: op in B.Inverse(AcctOf(Get(n, key)), Collect(StorageAt(n, key)), u) ==> StateOpOk(op)
  {
    hide Canonical, Collect, SlotsOf, B.ApplyNet, B.UndoWrites;
    var listed := Collect(StorageAt(n, key));
    EmptyCanonical(KEY_NIBBLES);
    forall i | 0 <= i < |listed| ensures |listed[i].slot| == KEY_NIBBLES {
      CollectIsLookups(StorageAt(n, key), KEY_NIBBLES, listed[i]);
    }
    UndoOk(if u.wipe || Get(n, key).None? then map[] else AcctOf(Get(n, key)).value.slots, u.slots);
  }

  lemma {:induction false} UndoOk(m: map<Path, Bytes>, ws: seq<B.Write>)
    requires forall i :: 0 <= i < |ws| ==> |ws[i].slot| == KEY_NIBBLES
    ensures forall op :: op in B.UndoWrites(m, ws) ==> StateOpOk(op)
  {
    if ws != [] {
      UndoOk(m, ws[..|ws| - 1]);
    }
  }

  lemma StartHalf(n: Node, w: B.World, ops: seq<B.KeyedOp>)
    requires Shows(n, w)
    ensures forall k: Path :: |k| == KEY_NIBBLES ==> Halfway(n, w, ops, {}, k)
  {
    hide Canonical, Get, AcctOf, Structured;
  }

  /** Updating one key leaves the others where they were. */
  lemma HalfGrows(n: Node, n': Node, w: B.World, ops: seq<B.KeyedOp>, done: set<Path>, key: Path, k: Path)
    requires |k| == |key| && Halfway(n, w, ops, done, k) && key !in done
    requires SameElsewhere(n, n', key) && Structured(Get(n', key))
    requires AcctOf(Get(n', key)) == B.ApplyNet(B.At(w, key), B.NetOf(B.OpsFor(ops, key)))
    ensures Halfway(n', w, ops, done + {key}, k)
  {
    hide Get, AcctOf, Structured, B.ApplyNet, B.NetOf, B.OpsFor;
  }

  lemma ListedAt(n: Node, key: Path)
    requires Structured(Get(n, key))
    ensures AcctOf(Get(n, key)).Some? ==> B.Lists(Collect(StorageAt(n, key)), AcctOf(Get(n, key)).value.slots)
  {
    hide Canonical, Collect;
    if Get(n, key).Some? {
      SlotsAreLookups(Get(n, key).value.storage, KEY_NIBBLES);
    }
  }

  lemma InverseGrows(w: B.World, ops: seq<B.KeyedOp>, half: seq<B.KeyedOp>, inv: seq<B.KeyedOp>, done: set<Path>, key: Path,
                     undo: seq<B.StateOp>, listed: seq<B.Entry>, k: Path)
    requires InverseHalf(w, ops, half, done, k) && key !in done
    requires B.OpsFor(inv, k) == B.OpsFor(half, k) + if k == key then undo else []
    requires undo == B.Inverse(B.At(w, key), listed, B.NetOf(B.OpsFor(ops, key))) && (key in w ==> B.Lists(listed, w[key].slots))
    ensures InverseHalf(w, ops, inv, done + {key}, k)
  {
    hide B.Inverse, B.NetOf, B.Lists, B.OpsFor;
    if k != key {
      assert B.OpsFor(inv, k) == B.OpsFor(half, k);
    }
  }

  lemma InverseGrowsAll(w: B.World, ops: seq<B.KeyedOp>, half: seq<B.KeyedOp>, done: set<Path>, key: Path,
                        undo: seq<B.StateOp>, listed: seq<B.Entry>)
    requires (forall k: Path :: InverseHalf(w, ops, half, done, k)) && key !in done
    requires undo == B.Inverse(B.At(w, key), listed, B.NetOf(B.OpsFor(ops, key))) && (key in w ==> B.Lists(listed, w[key].slots))
    ensures forall k: Path :: InverseHalf(w, ops, half + Keyed(key, undo), done + {key}, k)
  {
    hide B.Inverse, B.NetOf, B.Lists, B.OpsFor, InverseHalf, Keyed;
    forall k: Path ensures InverseHalf(w, ops, half + Keyed(key, undo), done + {key}, k) {
      OpsForKeyed(half, key, undo, k);
      InverseGrows(w, ops, half, half + Keyed(key, undo), done, key, undo, listed, k);
    }
  }

  lemma EmptyOk()
    ensures BlockOk([])
  {
  }

  lemma KeyedOk(inv: seq<B.KeyedOp>, key: Path, ops: seq<B.StateOp>)
    requires BlockOk(inv) && |key| == KEY_NIBBLES && forall op :: op in ops ==> StateOpOk(op)
    ensures BlockOk(inv + Keyed(key, ops))
  {
    hide StateOpOk;
  }

  lemma BlockDone(n: Node, w: B.World, ops: seq<B.KeyedOp>, inv: seq<B.KeyedOp>)
    requires Canonical(n, KEY_NIBBLES) && BlockOk(ops) && forall k: Path :: k in w ==> |k| == KEY_NIBBLES
    requires forall k: Path :: |k| == KEY_NIBBLES ==> Halfway(n, w, ops, B.Touched(ops), k)
    requires forall k: Path :: InverseHalf(w, ops, inv, B.Touched(ops), k)
    ensures Shows(n, B.ApplyBlock(w, ops)) && B.InverseOf(w, ops, inv)
  {
    hide Canonical, ValuesOnly, SlotsOf, Collect, B.ApplyNet, B.NetOf, B.OpsFor, B.ApplyBlock, B.Inverse, B.Lists, BlockOk, Get;
    forall k: Path ensures B.InverseAt(w, ops, inv, k) {
      assert InverseHalf(w, ops, inv, B.Touched(ops), k);
      if k !in B.Touched(ops) {
        Untouched(n, w, ops, inv, k);
      }
    }
    TouchedOk(ops);
    forall k: Path ensures B.At(B.ApplyBlock(w, ops), k) == B.ApplyNet(B.At(w, k), B.NetOf(B.OpsFor(ops, k))) {
      B.ApplyBlockAt(w, ops, k);
    }
    forall k: Path | k !in B.Touched(ops) ensures B.ApplyNet(B.At(w, k), B.NetOf(B.OpsFor(ops, k))) == B.At(w, k) {
      B.UntouchedOps(ops, k);
      NoNet(B.At(w, k), []);
    }
    forall k: Path | |k| == KEY_NIBBLES
      ensures Structured(Get(n, k)) && AcctOf(Get(n, k)) == B.At(B.ApplyBlock(w, ops), k) {
      assert Halfway(n, w, ops, B.Touched(ops), k);
    }
    forall k: Path | k in B.ApplyBlock(w, ops) ensures |k| == KEY_NIBBLES {
      assert B.At(B.ApplyBlock(w, ops), k).Some?;
    }
  }

  lemma NoNet(a: Option<B.Acct>, listed: seq<B.Entry>)
    ensures B.ApplyNet(a, B.NetOf([])) == a && B.Inverse(a, listed, B.NetOf([])) == []
  {
  }

  lemma Untouched(n: Node, w: B.World, ops: seq<B.KeyedOp>, inv: seq<B.KeyedOp>, k: Path)
    requires k !in B.Touched(ops) && B.OpsFor(inv, k) == [] && (k in w ==> Halfway(n, w, ops, B.Touched(ops), k))
    ensures B.InverseAt(w, ops, inv, k)
  {
    hide Canonical, ValuesOnly, SlotsOf, Collect, B.ApplyNet, B.NetOf, B.OpsFor, B.Inverse, B.Lists;
    B.UntouchedOps(ops, k);
    var listed := Collect(StorageAt(n, k));
    if k in w {
      ListedAt(n, k);
    }
    NoNet(B.At(w, k), listed);
  }

  /** A whole block on the trie: normalise, then apply each account's net update, in any
      order of accounts, collecting the inverse block. */
  method ApplyBlock(n: Node, ops: seq<B.KeyedOp>, ghost w: B.World) returns (n': Node, inv: seq<B.KeyedOp>)
    requires Shows(n, w) && BlockOk(ops)
    ensures Shows(n', B.ApplyBlock(w, ops)) && B.InverseOf(w, ops, inv) && BlockOk(inv)
  {
    hide Canonical, ValuesOnly, SlotsOf, Collect, B.ApplyNet, B.NetOf, B.OpsFor, B.ApplyBlock, B.Inverse, B.Lists, BlockOk, NetOk, Keyed, StateOpOk,
      Structured, AcctOf, Get, B.InverseAt, B.Touched, SameElsewhere, NetNode, BlockRecord.Left, StorageAt;
    var net := N.Normalize(ops);
    n', inv := n, [];
    var todo := net.Keys;
    ghost var done: set<Path> := {};
    TouchedOk(ops);
    EmptyOps(w, ops);
    EmptyOk();
    StartHalf(n, w, ops);
    while todo != {}
      invariant Canonical(n', KEY_NIBBLES) && todo <= net.Keys && done == net.Keys - todo
      invariant forall k: Path :: |k| == KEY_NIBBLES ==> Halfway(n', w, ops, done, k)
      invariant forall k: Path :: InverseHalf(w, ops, inv, done, k)
      invariant BlockOk(inv)
      decreases |todo|
    {
      var key :| key in todo;
      OpsForOk(ops, key);
      NetOfOk(B.OpsFor(ops, key));
      assert Halfway(n', w, ops, done, key) && InverseHalf(w, ops, inv, done, key);
      ghost var before, half := n', inv;
      var undo, changed;
      n', undo, changed := ApplyNetInRecord(n', key, net[key]);
      ListedAt(before, key);
      InverseOk(before, key, net[key]);
      inv := inv + Keyed(key, undo);
      KeyedOk(half, key, undo);
      InverseGrowsAll(w, ops, half, done, key, undo, Collect(StorageAt(before, key)));
      forall k: Path | |k| == KEY_NIBBLES ensures Halfway(n', w, ops, done + {key}, k) {
        assert Halfway(before, w, ops, done, k);
        HalfGrows(before, n', w, ops, done, key, k);
      }
      todo, done := todo - {key}, done + {key};
    }
    assert done == B.Touched(ops);
    BlockDone(n', w, ops, inv);
  }

  /** The block law on the trie: from a trie, apply a block, then its inverse block; the
      result is the very trie the block started from, exactly when the block wipes no
      account and rewrites a slot it held. */
  lemma BlockUndone(n: Node, back: Node, w: B.World, ops: seq<B.KeyedOp>, inv: seq<B.KeyedOp>)
    requires Shows(n, w) && B.InverseOf(w, ops, inv)
    requires Shows(back, B.ApplyBlock(B.ApplyBlock(w, ops), inv))
    ensures back == n <==> forall k :: !B.Rewrites(B.At(w, k), B.OpsFor(ops, k))
  {
    hide Canonical, Structured, AcctOf, B.ApplyBlock, B.InverseOf, B.Rewrites, B.OpsFor;
    B.BlockInverse(w, ops, inv);
    var w' := B.ApplyBlock(B.ApplyBlock(w, ops), inv);
    if w' == w {
      ShowsUnique(n, back, w);
    }
    if back == n {
      SameShown(n, w, w');
    }
  }

  lemma SameShown(n: Node, w: B.World, w': B.World)
    requires Shows(n, w) && Shows(n, w')
    ensures w == w'
  {
    hide Canonical, Structured, AcctOf, Get;
    forall k: Path ensures B.At(w, k) == B.At(w', k) {
      if |k| == KEY_NIBBLES {
        assert AcctOf(Get(n, k)) == B.At(w, k);
      }
    }
    B.SameWorld(w, w');
  }

  /** Net application on the trie equals running the operations one by one, exactly when
      the block is a phantom for no key. */
  lemma BlockIsSequential(n': Node, one: Node, w: B.World, ops: seq<B.KeyedOp>)
    requires Shows(n', B.ApplyBlock(w, ops)) && Shows(one, B.RunBlock(w, ops))
    ensures n' == one <==> forall k :: !B.Phantom(B.At(w, k), B.OpsFor(ops, k))
  {
    hide Canonical, Structured, AcctOf, B.ApplyBlock, B.RunBlock, B.Phantom, B.OpsFor;
    B.BlockRefines(w, ops);
    if B.ApplyBlock(w, ops) == B.RunBlock(w, ops) {
      ShowsUnique(n', one, B.RunBlock(w, ops));
    }
    if n' == one {
      SameShown(n', B.ApplyBlock(w, ops), B.RunBlock(w, ops));
    }
  }
}

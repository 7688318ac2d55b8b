/** Folding a block's operation list into one net update per account, with a side index
    from (account, slot) to the slot's place in that account's write list.
 */
module BlockNormalize {
  import T = Trie
  import opened BlockOps

  datatype Place = Place(key: Key, slot: Key)

  /** The index knows every listed slot and only those, at its right place. */
  ghost predicate IndexOk(net: map<Key, Net>, index: map<Place, nat>) {
    && (forall p :: p in index ==> p.key in net && index[p] < |net[p.key].slots| && net[p.key].slots[index[p]].slot == p.slot)
    && (forall k, i :: k in net && 0 <= i < |net[k].slots| ==> Place(k, net[k].slots[i].slot) in index)
    && (forall k :: k in net ==> Distinct(net[k].slots))
  }

  lemma PutAtIndex(ws: seq<Write>, i: nat, value: Option<Bytes>)
    requires i < |ws| && Distinct(ws)
    ensures PutSlot(ws, ws[i].slot, value) == ws[i := Write(ws[i].slot, value)]
  {
  }

  lemma PutFresh(ws: seq<Write>, slot: Key, value: Option<Bytes>)
    requires forall i :: 0 <= i < |ws| ==> ws[i].slot != slot
    ensures PutSlot(ws, slot, value) == ws + [Write(slot, value)]
  {
  }

  lemma OpsForSnoc(ops: seq<KeyedOp>, i: nat, key: Key)
    requires i < |ops|
    ensures OpsFor(ops[..i + 1], key) == OpsFor(ops[..i], key) + if ops[i].key == key then [ops[i].op] else []
    ensures Touched(ops[..i + 1]) == Touched(ops[..i]) + {ops[i].key}
  {
    assert ops[..i + 1][..i] == ops[..i];
    assert forall j :: 0 <= j < i ==> ops[..i + 1][j] == ops[..i][j];
    forall k | k in Touched(ops[..i]) + {ops[i].key} ensures k in Touched(ops[..i + 1]) {
      if k in Touched(ops[..i]) {
        var j :| 0 <= j < i && ops[..i][j].key == k;
        assert ops[..i + 1][j].key == k;
      } else {
        assert ops[..i + 1][i].key == k;
      }
    }
  }

  lemma NetSnoc(ops: seq<StateOp>, op: StateOp)
    ensures NetOf(ops + [op]) == FoldOp(NetOf(ops), op)
  {
    assert (ops + [op])[..|ops|] == ops;
  }

  lemma NetSoFar(ops: seq<KeyedOp>, key: Key)
    ensures key !in Touched(ops) ==> NetOf(OpsFor(ops, key)) == NO_NET
  {
    if key !in Touched(ops) {
      UntouchedOps(ops, key);
    }
  }

  /** Forget the places of all of an account's listed slots. */
  method Drain(key: Key, ws: seq<Write>, index: map<Place, nat>) returns (rest: map<Place, nat>)
    ensures forall p :: p in rest <==> p in index && !(p.key == key && exists i :: 0 <= i < |ws| && ws[i].slot == p.slot)
    ensures forall p :: p in rest ==> rest[p] == index[p]
  {
    rest := index;
    for i := 0 to |ws|
      invariant forall p :: p in rest <==> p in index && !(p.key == key && exists j :: 0 <= j < i && ws[j].slot == p.slot)
      invariant forall p :: p in rest ==> rest[p] == index[p]
    {
      rest := rest - {Place(key, ws[i].slot)};
    }
  }

  lemma Replaced(net: map<Key, Net>, index: map<Place, nat>, place: Place, value: Option<Bytes>)
    requires IndexOk(net, index) && place in index
    ensures forall v: Net :: v.slots == net[place.key].slots[index[place] := Write(place.slot, value)] ==> IndexOk(net[place.key := v], index)
  {
    var ws := net[place.key].slots[index[place] := Write(place.slot, value)];
    assert Distinct(ws);
    assert forall i :: 0 <= i < |ws| ==> ws[i].slot == net[place.key].slots[i].slot;
    hide Distinct;
  }

  lemma Appended(net: map<Key, Net>, index: map<Place, nat>, place: Place, ws: seq<Write>, value: Option<Bytes>)
    requires IndexOk(net, index) && place !in index && (if place.key in net then ws == net[place.key].slots else ws == [])
    ensures forall v: Net :: v.slots == ws + [Write(place.slot, value)] ==> IndexOk(net[place.key := v], index[place := |ws|])
  {
    assert forall i :: 0 <= i < |ws| ==> Place(place.key, ws[i].slot) in index;
    assert Distinct(ws + [Write(place.slot, value)]);
    hide Distinct;
  }

  /** Write one slot through the index: in its old place, or at the end. */
  method PutIndexed(net: map<Key, Net>, index: map<Place, nat>, key: Key, u: Net, slot: Key, value: Option<Bytes>)
    returns (ws: seq<Write>, index': map<Place, nat>)
    requires IndexOk(net, index) && (if key in net then u.slots == net[key].slots else u.slots == [])
    ensures ws == PutSlot(u.slots, slot, value)
    ensures forall v: Net :: v.slots == ws ==> IndexOk(net[key := v], index')
  {
    hide PutSlot, Distinct;
    var place := Place(key, slot);
    if place in index {
      PutAtIndex(u.slots, index[place], value);
      Replaced(net, index, place, value);
      ws, index' := u.slots[index[place] := Write(slot, value)], index;
    } else {
      assert key in net ==> forall i :: 0 <= i < |u.slots| ==> Place(key, u.slots[i].slot) in index;
      PutFresh(u.slots, slot, value);
      Appended(net, index, place, u.slots, value);
      ws, index' := u.slots + [Write(slot, value)], index[place := |u.slots|];
    }
  }

  lemma NoNets()
    ensures IndexOk(map[], map[]) && Touched([]) == {}
  {
  }

  /** An update that leaves an account's write list alone leaves the index right. */
  lemma Unlisted(net: map<Key, Net>, index: map<Place, nat>, key: Key, u: Net)
    requires IndexOk(net, index) && (if key in net then u.slots == net[key].slots else u.slots == [])
    ensures IndexOk(net[key := u], index)
  {
  }

  lemma Drained(net: map<Key, Net>, index: map<Place, nat>, rest: map<Place, nat>, key: Key, ws: seq<Write>)
    requires IndexOk(net, index) && (if key in net then ws == net[key].slots else ws == [])
    requires forall p :: p in rest <==> p in index && !(p.key == key && exists i :: 0 <= i < |ws| && ws[i].slot == p.slot)
    requires forall p :: p in rest ==> rest[p] == index[p]
    ensures forall v: Net :: v.slots == [] ==> IndexOk(net[key := v], rest)
  {
    forall p | p in rest ensures p.key != key {
      assert net[p.key].slots[index[p]].slot == p.slot;
    }
  }

  /** Every touched account's net update is the fold of its own operations. */
  method Normalize(ops: seq<KeyedOp>) returns (net: map<Key, Net>)
    ensures net.Keys == Touched(ops)
    ensures forall k :: k in net ==> net[k] == NetOf(OpsFor(ops, k))
  {
    hide NetOf, OpsFor, Touched, PutSlot, Distinct, IndexOk;
    NoNets();
    net := map[];
    var index: map<Place, nat> := map[];
    for i := 0 to |ops|
      invariant net.Keys == Touched(ops[..i]) && IndexOk(net, index)
      invariant forall k :: k in net ==> net[k] == NetOf(OpsFor(ops[..i], k))
    {
      var KeyedOp(key, op) := ops[i];
      var u := if key in net then net[key] else NO_NET;
      NetSoFar(ops[..i], key);
      ghost var before := u;
      match op {
        case SetAccount(nonce, balance, codeHash) =>
          u := u.(account := Set(nonce, balance, codeHash));
          Unlisted(net, index, key, u);
        case DeleteAccount =>
          ghost var full := index;
          index := Drain(key, u.slots, index);
          Drained(net, full, index, key, u.slots);
          u := Net(true, Delete, []);
        case WipeStorage =>
          ghost var full := index;
          index := Drain(key, u.slots, index);
          Drained(net, full, index, key, u.slots);
          u := Net(true, u.account, []);
        case SetStorage(slot, bytes) =>
          var ws;
          ws, index := PutIndexed(net, index, key, u, slot, T.Some(bytes));
          if u.account.Delete? {
            u := u.(account := Set(0, 0, T.EMPTY_CODE_HASH));
          }
          u := u.(slots := ws);
        case DeleteStorage(slot) =>
          if !u.account.Delete? {
            var ws;
            ws, index := PutIndexed(net, index, key, u, slot, T.None);
            u := u.(slots := ws);
          } else {
            Unlisted(net, index, key, u);
          }
      }
      assert u == FoldOp(before, op);
      net := net[key := u];
      NetSnoc(OpsFor(ops[..i], key), op);
      forall k ensures OpsFor(ops[..i + 1], k) == if k == key then OpsFor(ops[..i], k) + [op] else OpsFor(ops[..i], k) {
        OpsForSnoc(ops, i, k);
      }
      OpsForSnoc(ops, i, key);
    }
    assert ops[..|ops|] == ops;
  }
}

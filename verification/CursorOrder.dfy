/** Keys as big-endian numbers, the order the cursors walk in, and what "the least stored
    key not below a target" means on a trie.
 */
module CursorOrder {
  import opened Trie
  import opened TrieRoot

  // -------------------------------------------------------------------- numbers

  function Pow(b: nat, n: nat): nat {
    if n == 0 then 1 else b * Pow(b, n - 1)
  }

  /** The number a digit string denotes, most significant digit first. */
  function Val(b: nat, s: seq<nat>): nat {
    if s == [] then 0 else Val(b, s[..|s| - 1]) * b + s[|s| - 1]
  }

  ghost predicate Digits(b: nat, s: seq<nat>) {
    forall i :: 0 <= i < |s| ==> s[i] < b
  }

  lemma {:induction false} ValBound(b: nat, s: seq<nat>)
    requires Digits(b, s) && 0 < b
    ensures Val(b, s) < Pow(b, |s|)
  {
    if s != [] {
      var init := s[..|s| - 1];
      ValBound(b, init);
      Scale(b, Val(b, init), Pow(b, |init|));
    }
  }

  lemma Scale(b: nat, v: nat, p: nat)
    requires v < p
    ensures v * b + b <= b * p
  {
    assert (v + 1) * b <= p * b;
  }

  lemma ValSnoc(b: nat, s: seq<nat>, d: nat)
    ensures Val(b, s + [d]) == Val(b, s) * b + d
  {
    assert (s + [d])[..|s|] == s;
  }

  lemma {:induction false} ValCons(b: nat, d: nat, s: seq<nat>)
    ensures Val(b, [d] + s) == d * Pow(b, |s|) + Val(b, s)
  {
    var t := [d] + s;
    if s == [] {
      assert t[..0] == [];
    } else {
      var n := |s| - 1;
      ValCons(b, d, s[..n]);
      assert t[..|t| - 1] == [d] + s[..n];
      Regroup(b, d, Pow(b, n), Val(b, s[..n]), s[n]);
    }
  }

  lemma Regroup(b: nat, d: nat, p: nat, v: nat, e: nat)
    ensures (d * p + v) * b + e == d * (b * p) + (v * b + e)
  {
    assert (d * p) * b == d * (b * p);
    assert (d * p + v) * b == (d * p) * b + v * b;
  }

  // ---------------------------------------------------------------------- order

  function Number(p: Path): nat {
    Val(16, p)
  }

  /** The order of equally long paths is the order of their numbers. */
  lemma {:induction false} LessIsNumber(a: Path, b: Path)
    requires |a| == |b|
    ensures Less(a, b) <==> Number(a) < Number(b)
    ensures a == b <==> Number(a) == Number(b)
  {
    if a != [] {
      var s, t := a[1..], b[1..];
      assert a == [a[0]] + s && b == [b[0]] + t;
      LessIsNumber(s, t);
      ValCons(16, a[0], s);
      ValCons(16, b[0], t);
      ValBound(16, s);
      ValBound(16, t);
      Leading(a[0], Number(s), b[0], Number(t), Pow(16, |s|));
    }
  }

  lemma Leading(d: nat, x: nat, e: nat, y: nat, p: nat)
    requires x < p && y < p
    ensures d * p + x < e * p + y <==> d < e || (d == e && x < y)
    ensures d * p + x == e * p + y <==> d == e && x == y
  {
    if d < e {
      assert (d + 1) * p <= e * p;
    } else if e < d {
      assert (e + 1) * p <= d * p;
    }
  }

  // ------------------------------------------------------------------ successor

  /** Add one by carrying from the right; none when every byte is full. */
  method KeySuccessor(key: Bytes) returns (r: Option<Bytes>)
    ensures r.Some? ==> |r.value| == |key| && Val(256, r.value) == Val(256, key) + 1
    ensures r.None? <==> forall i :: 0 <= i < |key| ==> key[i] == 255
  {
    var k := new Byte[|key|](i requires 0 <= i < |key| => key[i]);
    var i := |key|;
    while i > 0
      invariant 0 <= i <= |key| && k.Length == |key|
      invariant forall j :: 0 <= j < i ==> k[j] == key[j]
      invariant forall j :: i <= j < |key| ==> key[j] == 255 && k[j] == 0
    {
      i := i - 1;
      if k[i] < 255 {
        k[i] := k[i] + 1;
        Carried(key, k[..], i);
        return Some(k[..]);
      }
      k[i] := 0;
    }
    return None;
  }

  lemma {:induction false} Carried(key: Bytes, k: Bytes, i: nat)
    requires i < |key| == |k| && (k[i] as int) == (key[i] as int) + 1
    requires forall j :: 0 <= j < i ==> k[j] == key[j]
    requires forall j :: i < j < |key| ==> key[j] == 255 && k[j] == 0
    ensures Val(256, k) == Val(256, key) + 1
    decreases |key|
  {
    var n := |key| - 1;
    if i < n {
      Carried(key[..n], k[..n], i);
    } else {
      assert key[..n] == k[..n];
    }
  }

  // ---------------------------------------------------------------- nibbles of a key

  /** Two nibbles a byte, high one first. */
  function Nibbles(key: Bytes): (p: Path)
    ensures |p| == 2 * |key|
  {
    if key == [] then [] else Nibbles(key[..|key| - 1]) + [(key[|key| - 1] as int) / 16, (key[|key| - 1] as int) % 16]
  }

  lemma {:induction false} NibblesNumber(key: Bytes)
    ensures Number(Nibbles(key)) == Val(256, key)
  {
    if key != [] {
      var init, last := key[..|key| - 1], key[|key| - 1] as int;
      NibblesNumber(init);
      assert Nibbles(key) == (Nibbles(init) + [last / 16]) + [last % 16];
      ValSnoc(16, Nibbles(init), last / 16);
      ValSnoc(16, Nibbles(init) + [last / 16], last % 16);
    }
  }

  function PackKey(p: Path): (key: Bytes)
    ensures |key| == |p| / 2
  {
    if |p| < 2 then [] else PackKey(p[..|p| - 2]) + [16 * (p[|p| - 2] as int) + (p[|p| - 1] as int)]
  }

  /** Packing nibbles into a key and unpacking them are inverse. */
  lemma {:induction false} NibblesOfPacked(p: Path)
    requires |p| % 2 == 0
    ensures Nibbles(PackKey(p)) == p
  {
    if p != [] {
      NibblesOfPacked(p[..|p| - 2]);
      var k := PackKey(p);
      assert k[..|k| - 1] == PackKey(p[..|p| - 2]);
      assert p == p[..|p| - 2] + [p[|p| - 2], p[|p| - 1]];
    }
  }

  /** Above a key means not below its successor. */
  lemma SuccessorIsNext(key: Bytes, succ: Bytes, p: Path)
    requires |succ| == |key| && Val(256, succ) == Val(256, key) + 1 && |p| == 2 * |key|
    ensures !Less(p, Nibbles(succ)) <==> Less(Nibbles(key), p)
  {
    NibblesNumber(key);
    NibblesNumber(succ);
    LessIsNumber(p, Nibbles(succ));
    LessIsNumber(Nibbles(key), p);
  }

  /** Nothing is above the key that has no successor. */
  lemma LastIsGreatest(key: Bytes, p: Path)
    requires (forall i :: 0 <= i < |key| ==> key[i] == 255) && |p| == 2 * |key|
    ensures !Less(Nibbles(key), p)
  {
    AllFull(key);
    NotAboveFull(Nibbles(key), p);
  }

  lemma {:induction false} AllFull(key: Bytes)
    requires forall i :: 0 <= i < |key| ==> key[i] == 255
    ensures forall i :: 0 <= i < |Nibbles(key)| ==> Nibbles(key)[i] == 15
  {
    if key != [] {
      AllFull(key[..|key| - 1]);
    }
  }

  lemma {:induction false} NotAboveFull(full: Path, p: Path)
    requires |full| == |p| && forall i :: 0 <= i < |full| ==> full[i] == 15
    ensures !Less(full, p)
  {
    if p != [] {
      NotAboveFull(full[1..], p[1..]);
    }
  }
}

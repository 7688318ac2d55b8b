/** The record writer as the source runs it: one growing output, and in each branch a
    length table that is reserved first and filled in as the children are written.
 */
module CodecWriter {
  import opened Trie
  import opened CursorOrder
  import opened Codec
  import opened CodecLaws

  function ZeroBytes(n: nat): (z: Bytes)
    ensures |z| == n
  {
    seq(n, _ => 0)
  }

  lemma {:induction false} KidsSnoc(children: seq<CNode>, i: nat)
    requires i < |children|
    ensures Kids(children[..i + 1]) == Kids(children[..i]) + if children[i] != CEmpty then Encode(children[i]) else []
    ensures Table(children[..i + 1]) == Table(children[..i]) + if children[i] != CEmpty then Le(|Encode(children[i])|, 4) else []
    ensures Present(children[..i + 1]) == Present(children[..i]) + if children[i] != CEmpty then 1 else 0
    decreases i
  {
    hide Encode, Le, Kids, Table, Present;
    NoKids();
    if i == 0 {
      assert children[..1] == [children[0]] + [] && children[..0] == [];
      KidsCons(children[0], []);
    } else {
      var rest := children[1..];
      KidsSnoc(rest, i - 1);
      assert children[..i + 1] == [children[0]] + rest[..i];
      assert children[..i] == [children[0]] + rest[..i - 1];
      assert rest[i - 1] == children[i];
      KidsCons(children[0], rest[..i]);
      KidsCons(children[0], rest[..i - 1]);
      var own, size := if children[0] != CEmpty then Encode(children[0]) else [], if children[0] != CEmpty then Le(|Encode(children[0])|, 4) else [];
      Assoc(own, Kids(rest[..i - 1]), if children[i] != CEmpty then Encode(children[i]) else []);
      Assoc(size, Table(rest[..i - 1]), if children[i] != CEmpty then Le(|Encode(children[i])|, 4) else []);
    }
  }

  lemma Assoc(a: Bytes, b: Bytes, c: Bytes)
    ensures a + (b + c) == (a + b) + c
  {
  }

  lemma KidsCons(c: CNode, rest: seq<CNode>)
    ensures Kids([c] + rest) == (if c != CEmpty then Encode(c) else []) + Kids(rest)
    ensures Table([c] + rest) == (if c != CEmpty then Le(|Encode(c)|, 4) else []) + Table(rest)
    ensures Present([c] + rest) == (if c != CEmpty then 1 else 0) + Present(rest)
  {
    hide Encode, Le;
    assert ([c] + rest)[1..] == rest;
  }

  lemma {:induction false} PresentGrows(children: seq<CNode>, i: nat)
    requires i <= |children|
    ensures Present(children[..i]) <= Present(children)
    decreases |children| - i
  {
    if i == |children| {
      assert children[..i] == children;
    } else {
      KidsSnoc(children, i);
      PresentGrows(children, i + 1);
    }
  }

  /** Writing child `i` and then its length into the next reserved slot. */
  lemma Backfilled(head: Bytes, table: Bytes, free: nat, kids: Bytes, code: Bytes)
    requires 4 <= free
    ensures var out := head + table + ZeroBytes(free) + kids + code; var at := |head| + |table|;
      out[..at] + Le(|code|, 4) + out[at + 4..] == head + (table + Le(|code|, 4)) + ZeroBytes(free - 4) + (kids + code)
  {
    hide Le, ZeroBytes;
    ZeroSplit(free);
    Filled(head, table, ZeroBytes(free), ZeroBytes(4), ZeroBytes(free - 4), kids, code, Le(|code|, 4));
  }

  lemma Filled(head: Bytes, table: Bytes, zeros: Bytes, gap: Bytes, y: Bytes, kids: Bytes, code: Bytes, fill: Bytes)
    requires zeros == gap + y && |fill| == |gap| == 4
    ensures var out := head + table + zeros + kids + code; var at := |head| + |table|;
      out[..at] + fill + out[at + 4..] == head + (table + fill) + y + (kids + code)
  {
    var x := head + table;
    Assoc(head, table, fill);
    Group(x, gap, y, kids, code);
    Splice(x, gap, y + (kids + code), fill);
    Assoc(x + fill, y, kids + code);
  }

  lemma ZeroSplit(n: nat)
    requires 4 <= n
    ensures ZeroBytes(n) == ZeroBytes(4) + ZeroBytes(n - 4)
  {
  }

  lemma Group(x: Bytes, g: Bytes, y: Bytes, k: Bytes, c: Bytes)
    ensures x + (g + y) + k + c == x + g + (y + (k + c))
  {
    Assoc(x, g, y);
    Assoc(x + g, y, k);
    Assoc(x + g, y + k, c);
    Assoc(y, k, c);
  }

  lemma Splice(x: Bytes, gap: Bytes, y: Bytes, fill: Bytes)
    requires |fill| == |gap|
    ensures var out := x + gap + y; out[..|x|] + fill + out[|x| + |gap|..] == x + fill + y
  {
    var out := x + gap + y;
    assert out[..|x|] == x && out[|x| + |gap|..] == y;
  }

  /** Every path outside raw parts fits its length byte. */
  predicate PathsFit(n: CNode)
    decreases n
  {
    && (n.CLeaf? || n.CExtension? || n.CAccount? ==> |n.path| <= 255)
    && (n.CExtension? ==> PathsFit(n.child))
    && (n.CBranch? ==> forall i :: 0 <= i < |n.children| ==> PathsFit(n.children[i]))
    && (n.CAccount? ==> PathsFit(n.storage))
  }

  lemma BranchFits(children: seq<CNode>, nref: NRef)
    ensures PathsFit(CBranch(children, nref)) <==> forall i :: 0 <= i < |children| ==> PathsFit(children[i])
    ensures PathsFit(CEmpty)
  {
  }

  class Writer {
    var out: Bytes

    constructor ()
      ensures out == []
    {
      out := [];
    }

    /** The bitmap of the taken slots, bit by bit. */
    method BitmapOf(children: seq<CNode>) returns (bitmap: nat)
      ensures bitmap == Bitmap(children)
    {
      bitmap := 0;
      var i := |children|;
      while i > 0
        invariant 0 <= i <= |children| && bitmap == Bitmap(children[i..])
      {
        i := i - 1;
        assert children[i..][1..] == children[i + 1..];
        bitmap := 2 * bitmap + if children[i] != CEmpty then 1 else 0;
      }
    }

    method WritePath(p: Path) returns (ok: bool)
      modifies this
      ensures ok <==> |p| <= 255
      ensures out == if ok then old(out) + EncodePath(p) else old(out)
    {
      ok := |p| <= 255;
      if ok {
        out := out + EncodePath(p);
      }
    }

    /** Write the node, refusing it exactly when one of its paths is too long. */
    method WriteNode(n: CNode) returns (ok: bool)
      requires Sized(n)
      modifies this
      ensures ok <==> PathsFit(n)
      ensures ok ==> out == old(out) + Encode(n)
      decreases n, 1
    {
      hide EncodePath, EncodeRef, Le, Be;
      ok := true;
      match n
      case CEmpty => out := out + [0];
      case CLeaf(path, value, nref) =>
        out := out + [1];
        ok := WritePath(path);
        if ok {
          out := out + Le(|value|, 4) + value + EncodeRef(nref);
          Flat5(old(out), [1], EncodePath(path), Le(|value|, 4), value, EncodeRef(nref));
        }
      case CExtension(path, child, nref) =>
        out := out + [2];
        ok := WritePath(path);
        if ok {
          out := out + EncodeRef(nref);
          ok := WriteNode(child);
          Flat5(old(out), [2], EncodePath(path), EncodeRef(nref), Encode(child), []);
        }
      case CBranch(children, nref) =>
        ok := WriteBranch(children, nref);
      case COverflow(unit, len, root) =>
        out := out + [4] + Le(unit, 4) + Le(len, 4) + root;
        Flat5(old(out), [4], Le(unit, 4), Le(len, 4), root, []);
      case CAccount(path, nonce, balance, codeHash, storage) =>
        out := out + [5];
        ok := WritePath(path);
        if ok {
          out := out + Le(nonce, 8) + Be(balance, 32) + codeHash;
          ok := WriteNode(storage);
          Flat6(old(out), [5], EncodePath(path), Le(nonce, 8), Be(balance, 32), codeHash, Encode(storage));
        }
      case CRaw(buf, off, len, _) => out := out + buf[off..off + len];
    }

    method WriteBranch(children: seq<CNode>, nref: NRef) returns (ok: bool)
      requires forall i :: 0 <= i < |children| ==> Sized(children[i])
      modifies this
      ensures ok <==> PathsFit(CBranch(children, nref))
      ensures ok ==> out == old(out) + Encode(CBranch(children, nref))
      decreases children, 0
    {
      hide Encode, Le, EncodeRef, Table, Kids, Present, ZeroBytes, Sized, PathsFit, Bitmap;
      BranchFits(children, nref);
      var bitmap := BitmapOf(children);
      out := out + [3] + Le(bitmap, 2) + EncodeRef(nref);
      ghost var head := out;
      var tablePos := |out|;
      var slots := Present(children);
      out := out + ZeroBytes(4 * slots);
      var ti := 0;
      NoKids();
      assert children[..0] == [];
      assert out == head + [] + ZeroBytes(4 * slots) + [];
      for i := 0 to |children|
        invariant ti == Present(children[..i]) <= slots && forall j :: 0 <= j < i ==> PathsFit(children[j])
        invariant out == head + Table(children[..i]) + ZeroBytes(4 * (slots - ti)) + Kids(children[..i])
      {
        KidsSnoc(children, i);
        PresentGrows(children, i + 1);
        if children[i] != CEmpty {
          var start := |out|;
          ok := WriteNode(children[i]);
          if !ok {
            return;
          }
          var at := tablePos + ti * 4;
          Backfilled(head, Table(children[..i]), 4 * (slots - ti), Kids(children[..i]), Encode(children[i]));
          out := out[..at] + Le(|out| - start, 4) + out[at + 4..];
          ti := ti + 1;
        } else {
          assert Table(children[..i + 1]) == Table(children[..i]) && Kids(children[..i + 1]) == Kids(children[..i]);
        }
      }
      assert children[..|children|] == children;
      BranchBytes(old(out), children, nref);
      assert ZeroBytes(0) == [];
      ok := true;
    }
  }

  lemma BranchBytes(before: Bytes, children: seq<CNode>, nref: NRef)
    ensures before + Encode(CBranch(children, nref)) ==
      ((before + [3] + Le(Bitmap(children), 2) + EncodeRef(nref)) + Table(children) + []) + Kids(children)
  {
    hide Le, EncodeRef, Table, Kids, Bitmap;
  }

  lemma Flat5(o: Bytes, a: Bytes, b: Bytes, c: Bytes, d: Bytes, e: Bytes)
    ensures o + a + b + c + d + e == o + (a + (b + (c + (d + e)))) && o + a + b + c + d == o + (a + (b + (c + d)))
  {
  }

  lemma Flat6(o: Bytes, a: Bytes, b: Bytes, c: Bytes, d: Bytes, e: Bytes, f: Bytes)
    ensures o + a + b + c + d + e + f == o + (a + (b + (c + (d + (e + f)))))
  {
  }
}

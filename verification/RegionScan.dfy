/** What the packer promises about its pointers, and the region scan that finds records
    without the frontier: it recovers every non-empty record written since the region
    was opened, whatever stale bytes follow.
 */
module RegionScan {
  import T = Trie
  import C = CodeLog
  import opened Regions
  import opened Packer
  import F = FlatFile

  // -------------------------------------------------------------------- pointers

  predicate PtrApart(p: Ptr, q: Ptr) {
    p.unit + Units(p) <= q.unit || q.unit + Units(q) <= p.unit
  }

  predicate InRun(r: Packed, p: Ptr) {
    r.base <= p.unit && p.unit + Units(p) <= r.base + TotalUnits(r.recs)
  }

  /** The pointers of one run tile it from its base on, in order. */
  lemma {:induction false} PtrsTile(base: nat, ps: seq<Bytes>)
    ensures var r := PtrsFrom(base, ps);
      && (forall i :: 0 <= i < |ps| ==> r[i].len == |ps[i]| && r[i].unit + Units(r[i]) <= base + TotalUnits(ps) && base <= r[i].unit)
      && (forall i, j :: 0 <= i < j < |ps| ==> r[i].unit + Units(r[i]) <= r[j].unit)
      && (ps != [] ==> r[0].unit == base && r[|ps| - 1].unit + Units(r[|ps| - 1]) == base + TotalUnits(ps))
      && (forall i :: 0 < i < |ps| ==> r[i].unit == r[i - 1].unit + Units(r[i - 1]))
  {
    hide TotalUnits, PtrsFrom, Units;
    if ps != [] {
      var init, last := ps[..|ps| - 1], ps[|ps| - 1];
      PtrsTile(base, init);
      PtrsSnoc(base, ps);
    } else {
      NoUnits();
    }
  }

  lemma PtrsSnoc(base: nat, ps: seq<Bytes>)
    requires ps != []
    ensures var init, last := ps[..|ps| - 1], ps[|ps| - 1];
      && PtrsFrom(base, ps) == PtrsFrom(base, init) + [Ptr(base + TotalUnits(init), |last|)]
      && TotalUnits(ps) == TotalUnits(init) + Units(Ptr(base + TotalUnits(init), |last|))
      && (init == [] ==> TotalUnits(init) == 0)
  {
  }

  function RecsOf(runs: seq<Packed>): seq<Bytes> {
    if runs == [] then [] else runs[0].recs + RecsOf(runs[1..])
  }

  ghost predicate InSome(runs: seq<Packed>, p: Ptr) {
    exists k :: 0 <= k < |runs| && InRun(runs[k], p)
  }

  lemma InSomeShift(runs: seq<Packed>, p: Ptr)
    requires runs != [] && InSome(runs[1..], p)
    ensures InSome(runs, p)
  {
    var k :| 0 <= k < |runs[1..]| && InRun(runs[1..][k], p);
    assert InRun(runs[k + 1], p);
  }

  lemma ApartFromLater(runs: seq<Packed>, p: Ptr, q: Ptr)
    requires runs != [] && Disjoint(runs) && F.RunsOk(runs) && InRun(runs[0], p) && InSome(runs[1..], q)
    ensures PtrApart(p, q)
  {
    hide TotalUnits, Units;
    var k :| 0 <= k < |runs[1..]| && InRun(runs[1..][k], q);
    assert RunsApart(runs[0], runs[k + 1]) && RunOk(runs[0]) && RunOk(runs[k + 1]);
  }

  /** Across the runs of a batch: one pointer per record, each inside its run, no two
      overlapping. */
  lemma {:induction false} PtrsOfApart(runs: seq<Packed>)
    requires Disjoint(runs) && F.RunsOk(runs)
    ensures var r, ps := PtrsOf(runs), RecsOf(runs);
      && |r| == |ps| && (forall i :: 0 <= i < |r| ==> r[i].len == |ps[i]|)
      && (forall i :: 0 <= i < |r| ==> InSome(runs, r[i]))
      && (forall i, j :: 0 <= i < j < |r| ==> PtrApart(r[i], r[j]))
    decreases |runs|
  {
    if runs != [] {
      var here, rest := PtrsFrom(runs[0].base, runs[0].recs), PtrsOf(runs[1..]);
      PtrsTile(runs[0].base, runs[0].recs);
      hide TotalUnits, PtrsFrom, Units, InSome, RunOk;
      PtrsOfApart(runs[1..]);
      var r := PtrsOf(runs);
      assert r == here + rest;
      forall i | 0 <= i < |r| ensures InSome(runs, r[i]) {
        if i < |here| {
          HeadInSome(runs, r[i]);
        } else {
          InSomeShift(runs, r[i]);
        }
      }
      forall i, j | 0 <= i < j < |r| ensures PtrApart(r[i], r[j]) {
        if i < |here| <= j {
          ApartFromLater(runs, r[i], r[j]);
        }
      }
    }
  }

  lemma HeadInSome(runs: seq<Packed>, p: Ptr)
    requires runs != [] && InRun(runs[0], p)
    ensures InSome(runs, p)
  {
  }

  lemma {:induction false} PlanRecs(a: Alloc, ps: seq<Bytes>, direct: bool)
    requires HeadIn(a) && AllFit(ps)
    ensures RecsOf(Plan(a, ps, direct).runs) == ps
    decreases |ps|
  {
    hide TotalUnits, Fit, Allocated, AllocUnit;
    if ps != [] {
      F.PlanUnfold(a, ps, direct);
      hide Plan;
      var j := Fit(ps);
      var live := TotalUnits(ps[..j]);
      PlanRecs(Allocated(a, PaddedUnits(direct, live), live), ps[j..], direct);
      assert ps[..j] + ps[j..] == ps;
    }
  }

  /** For any payloads within the record bound, with or without direct-I/O padding, a
      batch gets one pointer per payload, each inside one region, no two overlapping. */
  lemma BatchPointers(a: Alloc, ps: seq<Bytes>, direct: bool)
    requires Ok(a) && AllFit(ps)
    ensures var ptrs := PtrsOf(Plan(a, ps, direct).runs);
      && |ptrs| == |ps| && (forall i :: 0 <= i < |ps| ==> ptrs[i].len == |ps[i]|)
      && (forall i :: 0 <= i < |ps| ==> RegionOf(ptrs[i].unit) == RegionOf(ptrs[i].unit + Units(ptrs[i]) - 1))
      && (forall i, j :: 0 <= i < j < |ps| ==> PtrApart(ptrs[i], ptrs[j]))
  {
    hide ListsOk, PinsOk, HeadOk, TotalUnits, Plan, Disjoint, PtrsOf, RecsOf, InSome, RegionOf, Units, PtrApart;
    var runs := Plan(a, ps, direct).runs;
    PlanIsDisjoint(a, ps, direct);
    PtrsOfApart(runs);
    PlanRecs(a, ps, direct);
    var ptrs := PtrsOf(runs);
    forall i | 0 <= i < |ps| ensures RegionOf(ptrs[i].unit) == RegionOf(ptrs[i].unit + Units(ptrs[i]) - 1) {
      OneRegion(runs, ptrs[i]);
    }
  }

  lemma OneRegion(runs: seq<Packed>, p: Ptr)
    requires F.RunsOk(runs) && InSome(runs, p) && forall k :: 0 <= k < |runs| ==> 0 < runs[k].units && RegionOf(runs[k].base) == RegionOf(runs[k].base + runs[k].units - 1)
    ensures RegionOf(p.unit) == RegionOf(p.unit + Units(p) - 1)
  {
    hide TotalUnits;
    var k :| 0 <= k < |runs| && InRun(runs[k], p);
    assert RunOk(runs[k]);
    hide RegionOf;
    SameRegion(runs[k].base, runs[k].units, p.unit, Units(p));
  }

  lemma SameRegion(base: nat, n: nat, u: nat, m: nat)
    requires 0 < m && base <= u && u + m <= base + n && RegionOf(base) == RegionOf(base + n - 1)
    ensures RegionOf(u) == RegionOf(u + m - 1) == RegionOf(base)
  {
  }

  // ------------------------------------------------------------------------ scan

  datatype Hit = Hit(unit: nat, payload: Bytes)

  function FrameLen(buf: Bytes, p: nat): nat
    requires p + 4 <= |buf|
  {
    C.FromLe32(buf[p..p + 4])
  }

  /** What the scan from offset `p` on reports. */
  function ScanFrom(buf: Bytes, base: nat, p: nat): seq<Hit>
    decreases if p <= |buf| then |buf| - p else 0
  {
    if p + 4 > |buf| then []
    else
      var len := FrameLen(buf, p);
      if len == 0 then ScanFrom(buf, base, (p / ADDR_UNIT + 1) * ADDR_UNIT)
      else if p + 4 + len > |buf| then []
      else [Hit(base + p / ADDR_UNIT, buf[p + 4..p + 4 + len])] + ScanFrom(buf, base, p + UnitsFor(RECORD_HDR + len) * ADDR_UNIT)
  }

  lemma ScanStep(buf: Bytes, base: nat, p: nat)
    ensures p + 4 > |buf| ==> ScanFrom(buf, base, p) == []
    ensures p + 4 <= |buf| ==> (
      var len := FrameLen(buf, p);
      && (len == 0 ==> ScanFrom(buf, base, p) == ScanFrom(buf, base, (p / ADDR_UNIT + 1) * ADDR_UNIT))
      && (len > 0 && p + 4 + len > |buf| ==> ScanFrom(buf, base, p) == [])
      && (len > 0 && p + 4 + len <= |buf| ==> (
        ScanFrom(buf, base, p) ==
        [Hit(base + p / ADDR_UNIT, buf[p + 4..p + 4 + len])] + ScanFrom(buf, base, p + UnitsFor(RECORD_HDR + len) * ADDR_UNIT))))
  {
  }

  /** Walk a region's framed records; zero lengths step one unit. */
  method ScanRegion(buf: Bytes, region: nat) returns (hits: seq<Hit>)
    ensures hits == ScanFrom(buf, region * REGION_UNITS, 0)
  {
    hide ScanFrom, FrameLen;
    hits := [];
    var base := region * REGION_UNITS;
    var p := 0;
    while p + 4 <= |buf|
      invariant hits + ScanFrom(buf, base, p) == ScanFrom(buf, base, 0)
      decreases if p <= |buf| then |buf| - p else 0
    {
      ScanStep(buf, base, p);
      var len := FrameLen(buf, p);
      if len == 0 {
        p := (p / ADDR_UNIT + 1) * ADDR_UNIT;
      } else {
        if p + 4 + len > |buf| {
          break;
        }
        ghost var before := hits;
        hits := hits + [Hit(base + p / ADDR_UNIT, buf[p + 4..p + 4 + len])];
        p := p + UnitsFor(RECORD_HDR + len) * ADDR_UNIT;
        assert before + ([hits[|before|]] + ScanFrom(buf, base, p)) == hits + ScanFrom(buf, base, p);
      }
    }
    ScanStep(buf, base, p);
  }

  /** What lies in a region since it was opened: framed records and blank units. */
  datatype Piece = Framed(payload: Bytes) | Blank

  function PieceUnits(p: Piece): nat {
    match p case Framed(payload) => RecUnits(payload) case Blank => 1
  }

  function PieceBytes(p: Piece): (b: Bytes)
    ensures |b| == PieceUnits(p) * ADDR_UNIT
  {
    match p case Framed(payload) => Frame(payload) case Blank => Zeros(ADDR_UNIT)
  }

  function Layout(ps: seq<Piece>): (b: Bytes)
    ensures |b| == LayoutUnits(ps) * ADDR_UNIT
  {
    if ps == [] then [] else Layout(ps[..|ps| - 1]) + PieceBytes(ps[|ps| - 1])
  }

  function LayoutUnits(ps: seq<Piece>): nat {
    if ps == [] then 0 else LayoutUnits(ps[..|ps| - 1]) + PieceUnits(ps[|ps| - 1])
  }

  /** The non-empty records of a layout, where they lie. */
  function HitsOf(base: nat, ps: seq<Piece>): seq<Hit> {
    if ps == [] then []
    else
      var init, last := ps[..|ps| - 1], ps[|ps| - 1];
      HitsOf(base, init) + HitAt(base + LayoutUnits(init), last)
  }

  function HitAt(unit: nat, p: Piece): seq<Hit> {
    if p.Framed? && p.payload != [] then [Hit(unit, p.payload)] else []
  }

  ghost predicate Fits(ps: seq<Piece>) {
    forall i :: 0 <= i < |ps| && ps[i].Framed? ==> |ps[i].payload| <= MAX_RECORD_BYTES
  }

  /** One piece at `p`: the scan reports it if it is a non-empty record, and goes on right
      behind it. */
  lemma ScanPiece(buf: Bytes, base: nat, units: nat, piece: Piece)
    requires (piece.Framed? ==> |piece.payload| <= MAX_RECORD_BYTES) && (units + PieceUnits(piece)) * ADDR_UNIT <= |buf|
    requires buf[units * ADDR_UNIT..(units + PieceUnits(piece)) * ADDR_UNIT] == PieceBytes(piece)
    ensures ScanFrom(buf, base, units * ADDR_UNIT) == HitAt(base + units, piece) + ScanFrom(buf, base, (units + PieceUnits(piece)) * ADDR_UNIT)
  {
    hide ScanFrom, Frame, Zeros, C.Le32, C.FromLe32;
    var p, bytes := units * ADDR_UNIT, PieceBytes(piece);
    ScanStep(buf, base, p);
    assert p / ADDR_UNIT == units;
    match piece
    case Blank =>
      SliceOf(buf, p, bytes, 0, 4);
      assert bytes[..4] == [0, 0, 0, 0];
      BlankLen(bytes);
    case Framed(payload) =>
      FrameParts(payload);
      SliceOf(buf, p, bytes, 0, 4);
      SliceOf(buf, p, bytes, 4, 4 + |payload|);
      assert FrameLen(buf, p) == |payload|;
  }

  lemma SliceOf(buf: Bytes, p: nat, bytes: Bytes, lo: nat, hi: nat)
    requires p + |bytes| <= |buf| && buf[p..p + |bytes|] == bytes && lo <= hi <= |bytes|
    ensures buf[p + lo..p + hi] == bytes[lo..hi]
  {
    var cut, part := buf[p..p + |bytes|], buf[p + lo..p + hi];
    forall i | 0 <= i < |part| ensures part[i] == bytes[lo..hi][i] {
      assert part[i] == cut[lo + i];
    }
  }

  lemma BlankLen(bytes: Bytes)
    requires |bytes| >= 4 && bytes[..4] == [0, 0, 0, 0]
    ensures C.FromLe32(bytes[0..4]) == 0
  {
  }

  lemma FrameParts(p: Bytes)
    ensures var f := Frame(p); RECORD_HDR + |p| <= |f| && f[..4] == C.Le32(|p|) && f[4..4 + |p|] == p
  {
    var f, h := Frame(p), C.Le32(|p|);
    var pad := Zeros(RecUnits(p) * ADDR_UNIT - RECORD_HDR - |p|);
    assert f == h + (p + pad);
    assert f[4..] == p + pad;
    assert f[4..4 + |p|] == f[4..][..|p|];
  }

  lemma PieceStep(ps: seq<Piece>, m: nat)
    requires m < |ps|
    ensures LayoutUnits(ps[..m + 1]) == LayoutUnits(ps[..m]) + PieceUnits(ps[m])
    ensures Layout(ps[..m + 1]) == Layout(ps[..m]) + PieceBytes(ps[m])
    ensures forall base: nat :: HitsOf(base, ps[..m + 1]) == HitsOf(base, ps[..m]) + HitAt(base + LayoutUnits(ps[..m]), ps[m])
  {
    hide PieceUnits, PieceBytes, HitAt;
    assert ps[..m + 1][..m] == ps[..m];
  }

  /** The bytes of a region where piece `m` of its layout lies. */
  lemma PieceThere(buf: Bytes, ps: seq<Piece>, m: nat)
    requires Layout(ps) <= buf && m < |ps|
    ensures (LayoutUnits(ps[..m]) + PieceUnits(ps[m])) * ADDR_UNIT <= |buf|
    ensures buf[LayoutUnits(ps[..m]) * ADDR_UNIT..(LayoutUnits(ps[..m]) + PieceUnits(ps[m])) * ADDR_UNIT] == PieceBytes(ps[m])
  {
    hide PieceUnits, PieceBytes, Layout, LayoutUnits;
    PieceStep(ps, m);
    LayoutPrefix(ps, m + 1);
    CutOut(buf, Layout(ps[..m]), PieceBytes(ps[m]));
  }

  lemma CutOut(buf: Bytes, before: Bytes, b: Bytes)
    requires before + b <= buf
    ensures buf[|before|..|before| + |b|] == b
  {
    var part := buf[|before|..|before| + |b|];
    forall i | 0 <= i < |b| ensures part[i] == b[i] {
      assert (before + b)[|before| + i] == b[i];
    }
  }

  lemma {:induction false} LayoutPrefix(ps: seq<Piece>, m: nat)
    requires m <= |ps|
    ensures Layout(ps[..m]) <= Layout(ps)
    decreases |ps| - m
  {
    hide PieceUnits, PieceBytes;
    if m == |ps| {
      assert ps[..m] == ps;
    } else {
      PieceStep(ps, m);
      LayoutPrefix(ps, m + 1);
    }
  }

  /** The scan of a region reports first, in order, exactly the non-empty records of its
      layout with their units and payloads, whatever follows the written part. */
  lemma {:induction false} ScanRecovers(buf: Bytes, base: nat, ps: seq<Piece>, m: nat)
    requires Fits(ps) && Layout(ps) <= buf && m <= |ps|
    ensures ScanFrom(buf, base, 0) == HitsOf(base, ps[..m]) + ScanFrom(buf, base, LayoutUnits(ps[..m]) * ADDR_UNIT)
    decreases m
  {
    hide ScanFrom, PieceUnits, PieceBytes, Layout, HitAt;
    if m == 0 {
      assert ps[..0] == [];
    } else {
      ScanRecovers(buf, base, ps, m - 1);
      PieceStep(ps, m - 1);
      PieceThere(buf, ps, m - 1);
      ScanPiece(buf, base, LayoutUnits(ps[..m - 1]), ps[m - 1]);
    }
  }
}

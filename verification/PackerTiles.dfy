/** The packer's runs are exactly what the reclamation machine reserves: every run of a
    batch tiles its units with framed records, so each is an enabled reservation step.
 */
module PackerTiles {
  import T = Trie
  import C = CodeLog
  import opened Regions
  import opened Packer
  import opened RegionScan
  import R = Reclaim

  function Blocks(b: Bytes, units: nat): (d: seq<R.Block>)
    requires |b| == units * ADDR_UNIT
    ensures |d| == units && forall i :: 0 <= i < units ==> d[i] == Block(b, i)
  {
    seq(units, i requires 0 <= i < units => Block(b, i))
  }

  function Block(b: Bytes, i: nat): R.Block
    requires (i + 1) * ADDR_UNIT <= |b|
  {
    b[i * ADDR_UNIT..(i + 1) * ADDR_UNIT]
  }

  /** The first `k` records of the run tile its first units. */
  ghost predicate TiledTo(r: Packed, k: nat, data: seq<R.Block>, recs: map<nat, R.Rec>, cover: map<nat, nat>)
    requires k <= |r.recs|
  {
    && R.Tiles(r.base, TotalUnits(r.recs[..k]), recs, cover, data)
    && (forall i :: 0 <= i < k ==> Records(recs, PtrsFrom(r.base, r.recs)[i]))
  }

  predicate Records(recs: map<nat, R.Rec>, p: Ptr) {
    p.unit in recs && recs[p.unit].ptr == p
  }

  /** Pointer `k` of a run starts right behind the first `k` records. */
  lemma {:induction false} PtrIs(base: nat, ps: seq<Bytes>, k: nat)
    requires k < |ps|
    ensures PtrsFrom(base, ps)[k] == Ptr(base + TotalUnits(ps[..k]), |ps[k]|)
    decreases |ps|
  {
    hide TotalUnits;
    var init := ps[..|ps| - 1];
    if k < |init| {
      PtrIs(base, init, k);
      assert init[..k] == ps[..k];
    }
  }

  /** The header of a record's first block gives its length. */
  lemma BlockHeader(image: Bytes, u: nat, p: Bytes)
    requires |p| <= MAX_RECORD_BYTES && (u + RecUnits(p)) * ADDR_UNIT <= |image|
    requires image[u * ADDR_UNIT..(u + RecUnits(p)) * ADDR_UNIT] == Frame(p)
    ensures |Block(image, u)| >= 4 && R.Le32(Block(image, u)) == |p|
  {
    FrameParts(p);
    var lo, f := u * ADDR_UNIT, Frame(p);
    SliceOf(image, lo, f, 0, 4);
    assert Block(image, u)[..4] == image[lo..lo + 4];
    assert image[lo..lo + 4] == C.Le32(|p|);
    var b, h := Block(image, u), C.Le32(|p|);
    assert b[0] == h[0] && b[1] == h[1] && b[2] == h[2] && b[3] == h[3] by {
      assert b[..4][0] == b[0] && b[..4][1] == b[1] && b[..4][2] == b[2] && b[..4][3] == b[3];
    }
  }

  /** Where record `k` lies in the run's image. */
  lemma FrameInImage(r: Packed, k: nat)
    requires RunOk(r) && k < |r.recs|
    ensures var u := TotalUnits(r.recs[..k]);
      && u + RecUnits(r.recs[k]) <= TotalUnits(r.recs)
      && (u + RecUnits(r.recs[k])) * ADDR_UNIT <= |Image(r)|
      && Image(r)[u * ADDR_UNIT..(u + RecUnits(r.recs[k])) * ADDR_UNIT] == Frame(r.recs[k])
  {
    hide TotalUnits, Frame, RecUnits, Zeros;
    TotalStep(r.recs, k);
    TotalGrows(r.recs, k + 1);
    FramesPrefix(r.recs, k + 1);
    hide Frames;
    var u, all := TotalUnits(r.recs[..k]), Frames(r.recs);
    CutOut(all, Frames(r.recs[..k]), Frame(r.recs[k]));
    assert Image(r)[..|all|] == all;
    assert Image(r)[u * ADDR_UNIT..(u + RecUnits(r.recs[k])) * ADDR_UNIT] == all[u * ADDR_UNIT..(u + RecUnits(r.recs[k])) * ADDR_UNIT];
  }

  lemma {:induction false} FramesPrefix(ps: seq<Bytes>, j: nat)
    requires j <= |ps|
    ensures Frames(ps[..j]) <= Frames(ps)
    decreases |ps| - j
  {
    hide Frame, TotalUnits;
    if j == |ps| {
      assert ps[..j] == ps;
    } else {
      TotalStep(ps, j);
      FramesPrefix(ps, j + 1);
    }
  }

  /** Add one record to a tiling. */
  lemma TileOne(base: nat, units: nat, recs: map<nat, R.Rec>, cover: map<nat, nat>, data: seq<R.Block>, rec: R.Rec)
    returns (recs': map<nat, R.Rec>, cover': map<nat, nat>)
    requires R.Tiles(base, units, recs, cover, data)
    requires rec.ptr.unit == base + units && units + Units(rec.ptr) <= |data| && R.Framed(rec) && R.InRun(R.Run(base, data), rec)
    ensures R.Tiles(base, units + Units(rec.ptr), recs', cover', data) && recs' == recs[base + units := rec]
  {
    hide R.Framed, R.InRun;
    var v, n := base + units, Units(rec.ptr);
    hide Units;
    recs' := recs[v := rec];
    cover' := Covered(cover, v, n);
    forall w | w in recs'
      ensures recs'[w].ptr.unit == w && base <= w && w + Units(recs'[w].ptr) <= base + (units + n)
      ensures R.Framed(recs'[w]) && R.InRun(R.Run(base, data), recs'[w])
      ensures forall u: nat :: R.Covers(recs'[w].ptr, u) ==> cover'[u] == w {
    }
  }

  /** Extend a cover by one record. */
  ghost function Covered(cover: map<nat, nat>, v: nat, n: nat): (c: map<nat, nat>)
    ensures forall u :: u in c <==> u in cover || v <= u < v + n
    ensures forall u :: u in c ==> c[u] == if v <= u < v + n then v else cover[u]
  {
    var c := cover + map u | v <= u < v + n && Within(u, v, n) :: v;
    assert forall u :: Within(u, v, n) <==> v <= u < v + n;
    c
  }

  ghost predicate Regional(r: Packed) {
    RunOk(r) && AllFit(r.recs) && 0 < r.units && RegionOf(r.base) == RegionOf(r.base + r.units - 1)
  }

  /** The record at pointer `k` as the reclamation machine sees it. */
  lemma RecordOf(r: Packed, k: nat) returns (rec: R.Rec)
    requires Regional(r) && k < |r.recs|
    ensures var data := Blocks(Image(r), r.units); var p := PtrsFrom(r.base, r.recs)[k];
      && rec.ptr == p && p.unit == r.base + TotalUnits(r.recs[..k]) && Units(p) == RecUnits(r.recs[k])
      && R.Framed(rec) && R.InRun(R.Run(r.base, data), rec)
      && TotalUnits(r.recs[..k]) + Units(p) <= TotalUnits(r.recs)
  {
    hide TotalUnits, Frame, Image, PtrsFrom, R.Le32;
    var data, p, u := Blocks(Image(r), r.units), PtrsFrom(r.base, r.recs)[k], TotalUnits(r.recs[..k]);
    PtrIs(r.base, r.recs, k);
    FrameInImage(r, k);
    BlockHeader(Image(r), u, r.recs[k]);
    rec := R.Rec(p, data[u..u + Units(p)]);
    SameRegion(r.base, r.units, p.unit, Units(p));
  }

  /** Every run of a batch tiles its units with the records at its pointers. */
  lemma {:induction false} RunTiles(r: Packed, k: nat) returns (recs: map<nat, R.Rec>, cover: map<nat, nat>)
    requires Regional(r) && k <= |r.recs|
    ensures TiledTo(r, k, Blocks(Image(r), r.units), recs, cover)
    decreases k
  {
    hide TotalUnits, Image, PtrsFrom, R.Tiles, R.Framed, R.InRun, Units, RecUnits, Blocks;
    var data := Blocks(Image(r), r.units);
    if k == 0 {
      recs, cover := map[], map[];
      NoUnits();
      assert r.recs[..0] == [];
      NoTiles(r.base, data);
    } else {
      recs, cover := RunTiles(r, k - 1);
      var rec := RecordOf(r, k - 1);
      var p := PtrsFrom(r.base, r.recs)[k - 1];
      TotalStep(r.recs, k - 1);
      recs, cover := TileOne(r.base, TotalUnits(r.recs[..k - 1]), recs, cover, data, rec);
      EarlierUnits(r, k - 1);
    }
  }

  lemma NoTiles(base: nat, data: seq<R.Block>)
    ensures R.Tiles(base, 0, map[], map[], data)
  {
  }

  lemma EarlierUnits(r: Packed, k: nat)
    requires k < |r.recs|
    ensures forall i :: 0 <= i < k ==> PtrsFrom(r.base, r.recs)[i].unit < PtrsFrom(r.base, r.recs)[k].unit
  {
    hide PtrsFrom, TotalUnits;
    PtrsTile(r.base, r.recs);
  }

  /** What the packer reserves, the reclamation machine can step: the first run of any
      batch is an enabled reservation in every state with that allocator. */
  lemma PackedRunIsReserved(s: R.State, ps: seq<Bytes>, direct: bool) returns (step: R.Step)
    requires Ok(s.a) && AllFit(ps) && ps != []
    ensures step.Reserve? && R.Enabled(s, step)
    ensures var run := Plan(s.a, ps, direct).runs[0];
      step.run == run.units && step.data == Blocks(Image(run), run.units) && step.units == TotalUnits(run.recs)
  {
    hide ListsOk, PinsOk, HeadOk, Allocated, AllocUnit, Fit, TotalUnits, Image, Blocks, R.Tiles, PtrsFrom;
    var b, r, run, live := PlanStep(a := s.a, ps := ps, direct := direct);
    var j := Fit(ps);
    var first := Plan(s.a, ps, direct).runs[0];
    SomeUnits(ps[..j]);
    FirstRunIs(s.a, ps, direct);
    var recs, cover := RunTiles(first, |first.recs|);
    assert first.recs[..|first.recs|] == first.recs;
    step := R.Reserve(first.units, TotalUnits(first.recs), recs, cover, Blocks(Image(first), first.units));
  }

  lemma FirstRunIs(a: Alloc, ps: seq<Bytes>, direct: bool)
    requires Ok(a) && AllFit(ps) && ps != []
    ensures var runs := Plan(a, ps, direct).runs;
      runs != [] && Regional(runs[0]) && runs[0].recs != [] && 0 < TotalUnits(runs[0].recs) && runs[0].base == AllocUnit(a, runs[0].units)
  {
    hide ListsOk, PinsOk, HeadOk, Allocated, AllocUnit, TotalUnits;
    var b, r, run, live := PlanStep(a, ps, direct);
    SomeUnits(ps[..Fit(ps)]);
  }
}

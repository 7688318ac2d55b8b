/** The region packer: framing records, packing them into runs of at most one region,
    writing runs serially or in a planned pass, and scanning a region back.

    The file is a finite map from byte offsets to bytes; what was never written reads as
    zero.
 */
module Packer {
  import T = Trie
  import opened Regions
  import C = CodeLog

  type Byte = T.Byte
  type Bytes = T.Bytes

  const MAX_RECORD_BYTES: nat := 131068
  const DIO_UNITS: nat := 16
  const U32_MAX: nat := 0xFFFF_FFFF

  type File = map<nat, Byte>

  // --------------------------------------------------------------------- framing

  function RecUnits(p: Bytes): (u: nat)
    ensures 0 < u && RECORD_HDR + |p| <= u * ADDR_UNIT < RECORD_HDR + |p| + ADDR_UNIT && (|p| <= MAX_RECORD_BYTES ==> u <= REGION_UNITS)
  {
    UnitsFor(RECORD_HDR + |p|)
  }

  /** Round a run up to the store's I/O alignment. */
  function PaddedUnits(direct: bool, units: nat): (u: nat)
    ensures units <= u && (units <= REGION_UNITS ==> u <= REGION_UNITS)
    ensures if direct then u % DIO_UNITS == 0 && u < units + DIO_UNITS else u == units
  {
    if direct then DivCeil(units, DIO_UNITS) * DIO_UNITS else units
  }

  function Zeros(n: nat): (z: Bytes)
    ensures |z| == n && forall i :: 0 <= i < n ==> z[i] == 0
  {
    seq(n, _ => 0)
  }

  /** Length, payload, zeros up to the next unit. */
  function Frame(p: Bytes): (f: Bytes)
    ensures |f| == RecUnits(p) * ADDR_UNIT
  {
    C.Le32(|p|) + p + Zeros(RecUnits(p) * ADDR_UNIT - RECORD_HDR - |p|)
  }

  function Frames(ps: seq<Bytes>): (f: Bytes)
    ensures |f| == TotalUnits(ps) * ADDR_UNIT
  {
    if ps == [] then [] else Frames(ps[..|ps| - 1]) + Frame(ps[|ps| - 1])
  }

  function TotalUnits(ps: seq<Bytes>): nat {
    if ps == [] then 0 else TotalUnits(ps[..|ps| - 1]) + RecUnits(ps[|ps| - 1])
  }

  /** The pointers of records packed densely from `base` on. */
  function PtrsFrom(base: nat, ps: seq<Bytes>): (r: seq<Ptr>)
    ensures |r| == |ps|
  {
    if ps == [] then []
    else PtrsFrom(base, ps[..|ps| - 1]) + [Ptr(base + TotalUnits(ps[..|ps| - 1]), |ps[|ps| - 1]|)]
  }

  // ---------------------------------------------------------------------- runs

  /** A reserved run: where, how many units with padding, which records. */
  datatype Packed = Packed(base: nat, units: nat, recs: seq<Bytes>)

  function Image(r: Packed): (b: Bytes)
    requires TotalUnits(r.recs) <= r.units
    ensures |b| == r.units * ADDR_UNIT
  {
    Frames(r.recs) + Zeros((r.units - TotalUnits(r.recs)) * ADDR_UNIT)
  }

  function Put(file: File, off: nat, buf: Bytes): File {
    file + map x | off <= x < off + |buf| && Within(x, off, |buf|) :: buf[x - off]
  }

  /** How many records go into the first run: as many as fit a region, at least one. */
  function Fit(ps: seq<Bytes>): (j: nat)
    requires ps != [] && forall i :: 0 <= i < |ps| ==> |ps[i]| <= MAX_RECORD_BYTES
    ensures 0 < j <= |ps| && TotalUnits(ps[..j]) <= REGION_UNITS
    ensures j < |ps| ==> TotalUnits(ps[..j]) + RecUnits(ps[j]) > REGION_UNITS
  {
    FitFrom(ps, 1)
  }

  function FitFrom(ps: seq<Bytes>, j: nat): (r: nat)
    requires 0 < j <= |ps| && TotalUnits(ps[..j]) <= REGION_UNITS
    ensures j <= r <= |ps| && TotalUnits(ps[..r]) <= REGION_UNITS
    ensures r < |ps| ==> TotalUnits(ps[..r]) + RecUnits(ps[r]) > REGION_UNITS
    decreases |ps| - j
  {
    if j == |ps| || TotalUnits(ps[..j]) + RecUnits(ps[j]) > REGION_UNITS then j
    else
      TotalStep(ps, j);
      FitFrom(ps, j + 1)
  }

  lemma TotalStep(ps: seq<Bytes>, j: nat)
    requires j < |ps|
    ensures TotalUnits(ps[..j + 1]) == TotalUnits(ps[..j]) + RecUnits(ps[j])
    ensures Frames(ps[..j + 1]) == Frames(ps[..j]) + Frame(ps[j])
    ensures forall base: nat :: PtrsFrom(base, ps[..j + 1]) == PtrsFrom(base, ps[..j]) + [Ptr(base + TotalUnits(ps[..j]), |ps[j]|)]
  {
    assert ps[..j + 1][..j] == ps[..j];
  }

  /** The packing loop. */
  method PackRun(payloads: seq<Bytes>, i: nat) returns (j: nat, live: nat)
    requires i < |payloads| && forall k :: 0 <= k < |payloads| ==> |payloads[k]| <= MAX_RECORD_BYTES
    ensures i < j <= |payloads| && live == TotalUnits(payloads[i..j]) && j - i == Fit(payloads[i..])
  {
    hide TotalUnits, FitFrom, Fit;
    var runBytes := 0;
    j := i;
    ghost var rest := payloads[i..];
    NoUnits();
    FitStarts(rest);
    while j < |payloads|
      invariant i <= j <= |payloads|
      invariant runBytes == TotalUnits(rest[..j - i]) * ADDR_UNIT && TotalUnits(rest[..j - i]) <= REGION_UNITS
      invariant j > i ==> Fit(rest) == FitFrom(rest, j - i)
      decreases |payloads| - j
    {
      var rec := RecUnits(payloads[j]) * ADDR_UNIT;
      TotalStep(rest, j - i);
      if j > i {
        FitNext(rest, j - i);
      }
      if j > i && runBytes + rec > REGION_BYTES {
        break;
      }
      runBytes := runBytes + rec;
      j := j + 1;
    }
    if j == |payloads| {
      FitNext(rest, j - i);
    }
    assert rest[..j - i] == payloads[i..j];
    live := runBytes / ADDR_UNIT;
  }

  lemma NoUnits()
    ensures TotalUnits([]) == 0
  {
  }

  lemma FitStarts(ps: seq<Bytes>)
    requires ps != [] && forall i :: 0 <= i < |ps| ==> |ps[i]| <= MAX_RECORD_BYTES
    ensures TotalUnits(ps[..1]) <= REGION_UNITS && Fit(ps) == FitFrom(ps, 1)
  {
  }

  lemma FitNext(ps: seq<Bytes>, j: nat)
    requires 0 < j <= |ps| && TotalUnits(ps[..j]) <= REGION_UNITS
    ensures j == |ps| || TotalUnits(ps[..j]) + RecUnits(ps[j]) > REGION_UNITS ==> FitFrom(ps, j) == j
    ensures j < |ps| && TotalUnits(ps[..j]) + RecUnits(ps[j]) <= REGION_UNITS ==>
      TotalUnits(ps[..j + 1]) <= REGION_UNITS && FitFrom(ps, j) == FitFrom(ps, j + 1)
  {
    if j < |ps| {
      TotalStep(ps, j);
    }
  }

  // ----------------------------------------------------------------------- plan

  predicate AllFit(ps: seq<Bytes>) {
    forall i :: 0 <= i < |ps| ==> |ps[i]| <= MAX_RECORD_BYTES
  }

  datatype Planned = Planned(runs: seq<Packed>, a: Alloc)

  /** The runs a batch is packed into and the allocator afterwards. */
  function Plan(a: Alloc, ps: seq<Bytes>, direct: bool): (p: Planned)
    requires HeadIn(a) && AllFit(ps)
    ensures HeadIn(p.a)
    ensures forall k :: 0 <= k < |p.runs| ==> RunOk(p.runs[k])
    decreases |ps|
  {
    if ps == [] then Planned([], a)
    else
      var j := Fit(ps);
      var live := TotalUnits(ps[..j]);
      var run := PaddedUnits(direct, live);
      var rest := Plan(Allocated(a, run, live), ps[j..], direct);
      Planned([Packed(AllocUnit(a, run), run, ps[..j])] + rest.runs, rest.a)
  }

  predicate RunOk(r: Packed) {
    TotalUnits(r.recs) <= r.units <= REGION_UNITS
  }

  function PtrsOf(runs: seq<Packed>): seq<Ptr> {
    if runs == [] then [] else PtrsFrom(runs[0].base, runs[0].recs) + PtrsOf(runs[1..])
  }

  function WriteRuns(file: File, runs: seq<Packed>): File
    requires forall k :: 0 <= k < |runs| ==> RunOk(runs[k])
    decreases |runs|
  {
    if runs == [] then file
    else
      assert RunOk(runs[0]);
      WriteRuns(Put(file, runs[0].base * ADDR_UNIT, Image(runs[0])), runs[1..])
  }

  predicate Addressable(runs: seq<Packed>) {
    forall k :: 0 <= k < |runs| ==> runs[k].base + runs[k].units <= U32_MAX
  }

  /** Copy bytes into a buffer. */
  method CopyInto(buf: array<Byte>, off: nat, src: Bytes)
    requires off + |src| <= buf.Length
    modifies buf
    ensures buf[..] == old(buf[..off]) + src + old(buf[off + |src|..])
  {
    for i := 0 to |src|
      invariant forall x :: 0 <= x < buf.Length ==> buf[x] == if off <= x < off + i then src[x - off] else old(buf[x])
    {
      buf[off + i] := src[i];
    }
  }

  /** Write one framed record over the zeros behind what is done. */
  method FrameInto(buf: array<Byte>, off: nat, p: Bytes, ghost done: Bytes)
    requires |done| == off && off + RecUnits(p) * ADDR_UNIT <= buf.Length && buf[..] == done + Zeros(buf.Length - off)
    modifies buf
    ensures buf[..] == done + Frame(p) + Zeros(buf.Length - off - RecUnits(p) * ADDR_UNIT)
  {
    hide Frame, Zeros, C.Le32, RecUnits;
    ghost var n, header := buf.Length, C.Le32(|p|);
    assert buf[..off] == buf[..][..off] == done;
    assert buf[off + RECORD_HDR..] == buf[..][off + RECORD_HDR..] == Zeros(n - off)[RECORD_HDR..];
    CopyInto(buf, off, C.Le32(|p|));
    ghost var mid := done + header;
    ZerosTail(n - off, RECORD_HDR);
    assert buf[..] == mid + Zeros(n - off - RECORD_HDR);
    assert buf[..off + RECORD_HDR] == buf[..][..off + RECORD_HDR] == mid;
    assert buf[off + RECORD_HDR + |p|..] == buf[..][off + RECORD_HDR + |p|..] == Zeros(n - off - RECORD_HDR)[|p|..];
    CopyInto(buf, off + RECORD_HDR, p);
    ZerosTail(n - off - RECORD_HDR, |p|);
    Framed(done, n - off, p);
  }

  lemma ZerosTail(n: nat, k: nat)
    requires k <= n
    ensures Zeros(n)[k..] == Zeros(n - k)
  {
  }

  /** Frame a run's records into one zeroed buffer. */
  method FillRun(recs: seq<Bytes>, base: nat, units: nat) returns (image: Bytes, ptrs: seq<Ptr>)
    requires TotalUnits(recs) <= units
    ensures image == Image(Packed(base, units, recs)) && ptrs == PtrsFrom(base, recs)
  {
    hide Frame, Frames, TotalUnits, PtrsFrom, C.Le32, RecUnits;
    NoFrames(base);
    var buf := new Byte[units * ADDR_UNIT](_ => 0);
    var off := 0;
    ptrs := [];
    assert buf[..] == Zeros(units * ADDR_UNIT);
    NoUnits();
    for k := 0 to |recs|
      invariant off == TotalUnits(recs[..k]) * ADDR_UNIT <= units * ADDR_UNIT && buf.Length == units * ADDR_UNIT
      invariant buf[..] == Frames(recs[..k]) + Zeros(units * ADDR_UNIT - off)
      invariant ptrs == PtrsFrom(base, recs[..k])
    {
      TotalStep(recs, k);
      TotalGrows(recs, k + 1);
      var p := recs[k];
      FrameInto(buf, off, p, Frames(recs[..k]));
      ptrs := ptrs + [Ptr(base + off / ADDR_UNIT, |p|)];
      off := off + RecUnits(p) * ADDR_UNIT;
    }
    assert recs[..|recs|] == recs;
    image := buf[..];
  }

  lemma NoFrames(base: nat)
    ensures Frames([]) == [] && PtrsFrom(base, []) == []
  {
  }

  lemma {:induction false} TotalGrows(ps: seq<Bytes>, j: nat)
    requires j <= |ps|
    ensures TotalUnits(ps[..j]) <= TotalUnits(ps)
    decreases |ps| - j
  {
    if j == |ps| {
      assert ps[..j] == ps;
    } else {
      TotalStep(ps, j);
      TotalGrows(ps, j + 1);
    }
  }

  /** Writing header and payload over zeros leaves the frame and fewer zeros. */
  lemma Framed(done: Bytes, zeros: nat, p: Bytes)
    requires RecUnits(p) * ADDR_UNIT <= zeros
    ensures done + C.Le32(|p|) + p + Zeros(zeros - RECORD_HDR - |p|) == done + Frame(p) + Zeros(zeros - RecUnits(p) * ADDR_UNIT)
  {
    var pad := RecUnits(p) * ADDR_UNIT - RECORD_HDR - |p|;
    assert Zeros(zeros - RECORD_HDR - |p|) == Zeros(pad) + Zeros(zeros - RecUnits(p) * ADDR_UNIT);
  }

  // ------------------------------------------------------------------ disjoint

  predicate RunsApart(r: Packed, q: Packed) {
    r.base + r.units <= q.base || q.base + q.units <= r.base
  }

  ghost predicate Disjoint(runs: seq<Packed>) {
    forall i, j :: 0 <= i < j < |runs| ==> RunsApart(runs[i], runs[j])
  }

  /** Every unit of the run is taken and stays so until a free region is reopened. */
  ghost predicate Taken(a: Alloc, r: Packed) {
    forall u :: r.base <= u < r.base + r.units ==> Cached(a, u)
  }

  lemma RunTaken(a: Alloc, run: nat, live: nat, r: Packed)
    requires Ok(a) && 0 < live <= run <= REGION_UNITS && r.base == AllocUnit(a, run) && r.units == run
    ensures Taken(Allocated(a, run, live), r)
    ensures RegionOf(r.base) == RegionOf(r.base + r.units - 1)
  {
    hide ListsOk, PinsOk, HeadOk, Allocated, AllocUnit, Dead;
    var b := Allocated(a, run, live);
    AllocatedIsUnused(a, run, live);
    AllocatedKeepsOk(a, run, live);
    HeadNotFree(b);
    forall u | r.base <= u < r.base + r.units ensures Cached(b, u) {
      assert RegionOf(r.base) <= RegionOf(u) <= RegionOf(r.base + r.units - 1);
    }
  }

  lemma HeadNotFree(b: Alloc)
    requires Ok(b)
    ensures b.head !in b.free
  {
    forall r | r in b.free ensures r != b.head {
      assert r in Parked(b);
    }
  }

  lemma TakenStays(a: Alloc, run: nat, live: nat, q: Packed)
    requires Ok(a) && 0 < live <= run <= REGION_UNITS && Taken(a, q)
    ensures Taken(Allocated(a, run, live), q)
    ensures 0 < q.units ==> RunsApart(q, Packed(AllocUnit(a, run), run, []))
  {
    hide Ok, Allocated, AllocUnit;
    AllocatedIsUnused(a, run, live);
    var base := AllocUnit(a, run);
    var u := if q.base < base then base else q.base;
    assert q.base <= u < q.base + q.units ==> Cached(a, u);
    assert base <= u < base + run ==> !Cached(a, u);
  }

  /** The first run of a batch and the allocator after it. */
  lemma PlanStep(a: Alloc, ps: seq<Bytes>, direct: bool) returns (b: Alloc, r: Packed, run: nat, live: nat)
    requires Ok(a) && AllFit(ps) && ps != []
    ensures 0 < live <= run <= REGION_UNITS && b == Allocated(a, run, live) && Ok(b)
    ensures r.base == AllocUnit(a, run) && r.units == run && Taken(b, r) && RegionOf(r.base) == RegionOf(r.base + r.units - 1)
    ensures var j := Fit(ps); var p, rest := Plan(a, ps, direct), Plan(b, ps[j..], direct);
      p.runs == [r] + rest.runs && p.a == rest.a
  {
    hide Allocated, AllocUnit, Fit, TotalUnits, ListsOk, PinsOk, HeadOk, Taken;
    var j := Fit(ps);
    live := TotalUnits(ps[..j]);
    run := PaddedUnits(direct, live);
    SomeUnits(ps[..j]);
    b, r := Allocated(a, run, live), Packed(AllocUnit(a, run), run, ps[..j]);
    AllocatedKeepsOk(a, run, live);
    RunTaken(a, run, live, r);
  }

  /** No batch touches a unit that was taken before it. */
  lemma {:induction false} PlanAvoids(a: Alloc, ps: seq<Bytes>, direct: bool, q: Packed)
    requires Ok(a) && AllFit(ps) && 0 < q.units && Taken(a, q)
    ensures var p := Plan(a, ps, direct);
      Taken(p.a, q) && forall k :: 0 <= k < |p.runs| ==> RunsApart(q, p.runs[k])
    decreases |ps|
  {
    hide Allocated, AllocUnit, Fit, ListsOk, PinsOk, HeadOk, Taken;
    if ps != [] {
      hide Plan;
      var b, r, run, live := PlanStep(a, ps, direct);
      TakenStays(a, run, live, q);
      PlanAvoids(b, ps[Fit(ps)..], direct, q);
    }
  }

  /** Every batch: each run lies inside one region and within the allocator's bound, and
      no two runs overlap. */
  lemma {:induction false} PlanIsDisjoint(a: Alloc, ps: seq<Bytes>, direct: bool)
    requires Ok(a) && AllFit(ps)
    ensures var p := Plan(a, ps, direct);
      && Ok(p.a) && Disjoint(p.runs)
      && (forall k :: 0 <= k < |p.runs| ==>
        && 0 < p.runs[k].units <= REGION_UNITS
        && RegionOf(p.runs[k].base) == RegionOf(p.runs[k].base + p.runs[k].units - 1))
    decreases |ps|
  {
    hide Allocated, AllocUnit, Fit, ListsOk, PinsOk, HeadOk, Taken;
    if ps != [] {
      hide Plan;
      var b, r, run, live := PlanStep(a, ps, direct);
      PlanAvoids(b, ps[Fit(ps)..], direct, r);
      PlanIsDisjoint(b, ps[Fit(ps)..], direct);
    }
  }

  lemma SomeUnits(ps: seq<Bytes>)
    requires ps != []
    ensures 0 < TotalUnits(ps)
  {
  }
}

/** The flat file's batch writers over the region allocator: the serial one writes each
    run as it packs it, the parallel one plans every run first and then writes the runs
    in any order.  Both are proved to carry out the same plan.
 */
module FlatFile {
  import T = Trie
  import opened Regions
  import opened Packer

  predicate RunsOk(runs: seq<Packed>) {
    forall k :: 0 <= k < |runs| ==> RunOk(runs[k])
  }

  predicate Over(r: Packed, x: int) {
    r.base * ADDR_UNIT <= x < (r.base + r.units) * ADDR_UNIT
  }

  function ByteIn(f: File, x: int): T.Option<Byte> {
    if x in f then T.Some(f[x]) else T.None
  }

  /** `f` is `f0` with exactly the runs of `done` written into it. */
  ghost predicate Merged(f0: File, f: File, runs: seq<Packed>, done: set<nat>)
    requires RunsOk(runs)
  {
    && (forall k, x :: k in done && k < |runs| && Over(runs[k], x) ==> RunOk(runs[k]) && ByteIn(f, x) == ImageByte(runs[k], x))
    && (forall x :: (forall k :: k in done && k < |runs| ==> !Over(runs[k], x)) ==> ByteIn(f, x) == ByteIn(f0, x))
  }

  function ImageByte(r: Packed, x: int): T.Option<Byte>
    requires RunOk(r) && Over(r, x)
  {
    T.Some(Image(r)[x - r.base * ADDR_UNIT])
  }

  lemma PutBytes(f: File, r: Packed, x: int)
    requires RunOk(r)
    ensures ByteIn(Put(f, r.base * ADDR_UNIT, Image(r)), x) == if Over(r, x) then ImageByte(r, x) else ByteIn(f, x)
  {
    hide Image;
    var off, buf := r.base * ADDR_UNIT, Image(r);
    assert Within(x, off, |buf|) <==> Over(r, x);
  }

  lemma ApartNotOver(r: Packed, q: Packed, x: int)
    requires RunsApart(r, q)
    ensures !(Over(r, x) && Over(q, x))
  {
  }

  /** Writing one more run, in any order, keeps the merge exact. */
  lemma MergeOne(f0: File, f: File, runs: seq<Packed>, done: set<nat>, k: nat)
    requires RunsOk(runs) && Disjoint(runs) && k < |runs| && k !in done && Merged(f0, f, runs, done)
    ensures Merged(f0, Put(f, runs[k].base * ADDR_UNIT, Image(runs[k])), runs, done + {k})
  {
    hide Image, Put, Over, ByteIn, ImageByte, TotalUnits;
    assert RunOk(runs[k]);
    var g := Put(f, runs[k].base * ADDR_UNIT, Image(runs[k]));
    forall j, x | j in done + {k} && j < |runs| && Over(runs[j], x)
      ensures RunOk(runs[j]) && ByteIn(g, x) == ImageByte(runs[j], x) {
      PutBytes(f, runs[k], x);
      if j != k {
        ApartNotOver(runs[if j < k then j else k], runs[if j < k then k else j], x);
      }
    }
    forall x | forall j :: j in done + {k} && j < |runs| ==> !Over(runs[j], x)
      ensures ByteIn(g, x) == ByteIn(f0, x) {
      PutBytes(f, runs[k], x);
      assert k in done + {k};
      assert forall j :: j in done ==> j in done + {k};
    }
  }

  lemma MergedUnique(f0: File, f: File, g: File, runs: seq<Packed>)
    requires RunsOk(runs) && Merged(f0, f, runs, Upto(|runs|)) && Merged(f0, g, runs, Upto(|runs|))
    ensures f == g
  {
    hide ByteIn, ImageByte, RunOk;
    forall x: int ensures ByteIn(f, x) == ByteIn(g, x) {
      if k :| 0 <= k < |runs| && Over(runs[k], x) {
        assert k in Upto(|runs|);
      }
    }
    SameBytes(f, g);
  }

  lemma SameBytes(f: File, g: File)
    requires forall x: int :: ByteIn(f, x) == ByteIn(g, x)
    ensures f == g
  {
    forall x: int ensures x in f <==> x in g { assert ByteIn(f, x) == ByteIn(g, x); }
    forall x: int | x in f && x in g ensures f[x] == g[x] { assert ByteIn(f, x) == ByteIn(g, x); }
  }

  function Upto(n: nat): (s: set<nat>)
    ensures forall k :: k in s <==> 0 <= k < n
  {
    if n == 0 then {} else Upto(n - 1) + {n - 1}
  }

  lemma {:induction false} WriteRunsSnoc(f: File, runs: seq<Packed>, r: Packed)
    requires RunsOk(runs) && RunOk(r)
    ensures RunsOk(runs + [r]) && WriteRuns(f, runs + [r]) == Put(WriteRuns(f, runs), r.base * ADDR_UNIT, Image(r))
    ensures PtrsOf(runs + [r]) == PtrsOf(runs) + PtrsFrom(r.base, r.recs)
    decreases |runs|
  {
    hide Put, Image, TotalUnits, PtrsFrom;
    if runs == [] {
      assert runs + [r] == [r];
      assert [r][1..] == [];
    } else {
      assert RunOk(runs[0]);
      WriteRunsSnoc(Put(f, runs[0].base * ADDR_UNIT, Image(runs[0])), runs[1..], r);
      assert (runs + [r])[1..] == runs[1..] + [r];
    }
  }

  /** Writing the runs in order merges all of them. */
  lemma {:induction false} WriteRunsMerges(f: File, runs: seq<Packed>, n: nat)
    requires RunsOk(runs) && Disjoint(runs) && n <= |runs|
    ensures Merged(f, WriteRuns(f, runs[..n]), runs, Upto(n))
    decreases n
  {
    hide Put, Image, TotalUnits, Merged;
    if n == 0 {
      MergedNone(f, runs);
      assert runs[..0] == [];
    } else {
      WriteRunsMerges(f, runs, n - 1);
      WriteRunsSnoc(f, runs[..n - 1], runs[n - 1]);
      assert runs[..n] == runs[..n - 1] + [runs[n - 1]];
      MergeOne(f, WriteRuns(f, runs[..n - 1]), runs, Upto(n - 1), n - 1);
    }
  }

  lemma MergedNone(f: File, runs: seq<Packed>)
    requires RunsOk(runs)
    ensures Merged(f, f, runs, {})
  {
  }

  // ------------------------------------------------------------------- progress

  /** The batch was carried out: file, allocator and pointers are the plan's. */
  ghost predicate Carried(file0: File, a0: Alloc, ps: seq<Bytes>, direct: bool, file: File, a: Alloc, ptrs: seq<Ptr>)
    requires HeadIn(a0) && AllFit(ps)
  {
    var p := Plan(a0, ps, direct);
    file == WriteRuns(file0, p.runs) && a == p.a && ptrs == PtrsOf(p.runs)
  }

  /** The runs so far are the plan's, and the rest of the plan starts from here. */
  ghost predicate Behind(a0: Alloc, ps: seq<Bytes>, direct: bool, done: seq<Packed>, a: Alloc, rest: seq<Bytes>)
    requires HeadIn(a0) && AllFit(ps) && HeadIn(a) && AllFit(rest)
  {
    Plan(a0, ps, direct).runs == done + Plan(a, rest, direct).runs && Plan(a0, ps, direct).a == Plan(a, rest, direct).a
  }

  lemma FitRest(ps: seq<Bytes>, i: nat)
    requires i <= |ps| && AllFit(ps)
    ensures AllFit(ps[i..])
  {
  }

  /** One run further along the plan. */
  lemma BehindStep(a0: Alloc, ps: seq<Bytes>, direct: bool, done: seq<Packed>, a: Alloc, rest: seq<Bytes>, n: nat, run: Packed)
    requires Ok(a0) && AllFit(ps) && Ok(a) && AllFit(rest) && rest != [] && n == Fit(rest)
    requires Behind(a0, ps, direct, done, a, rest)
    requires run.recs == rest[..n] && run.units == PaddedUnits(direct, TotalUnits(rest[..n])) && run.base == AllocUnit(a, run.units)
    ensures AllFit(rest[n..])
    ensures var live := TotalUnits(rest[..n]);
      && 0 < live <= run.units <= REGION_UNITS && Ok(Allocated(a, run.units, live)) && RunOk(run)
      && Behind(a0, ps, direct, done + [run], Allocated(a, run.units, live), rest[n..])
      && run in Plan(a0, ps, direct).runs
  {
    hide Allocated, AllocUnit, Fit, TotalUnits, ListsOk, PinsOk, HeadOk;
    FitRest(rest, n);
    SomeUnits(rest[..n]);
    AllocatedKeepsOk(a, run.units, TotalUnits(rest[..n]));
    PlanUnfold(a, rest, direct);
    hide Plan;
    var next := Plan(Allocated(a, run.units, TotalUnits(rest[..n])), rest[n..], direct).runs;
    assert done + ([run] + next) == (done + [run]) + next;
    assert run in (done + [run]) + next;
  }

  lemma PlanUnfold(a: Alloc, ps: seq<Bytes>, direct: bool)
    requires HeadIn(a) && AllFit(ps) && ps != []
    ensures var j := Fit(ps); var live := TotalUnits(ps[..j]); var run := PaddedUnits(direct, live);
      && run <= REGION_UNITS && HeadIn(Allocated(a, run, live)) && AllFit(ps[j..])
      && Plan(a, ps, direct).runs == [Packed(AllocUnit(a, run), run, ps[..j])] + Plan(Allocated(a, run, live), ps[j..], direct).runs
      && Plan(a, ps, direct).a == Plan(Allocated(a, run, live), ps[j..], direct).a
  {
  }

  lemma PlanEnds(a: Alloc, direct: bool)
    requires HeadIn(a)
    ensures Plan(a, [], direct) == Planned([], a)
  {
  }

  lemma NoRuns(f: File)
    ensures WriteRuns(f, []) == f && PtrsOf([]) == []
  {
  }

  method TooBig(payloads: seq<Bytes>) returns (found: bool)
    ensures found <==> !AllFit(payloads)
  {
    for i := 0 to |payloads|
      invariant AllFit(payloads[..i])
    {
      if |payloads[i]| > MAX_RECORD_BYTES {
        return true;
      }
    }
    return false;
  }

  // --------------------------------------------------------------------- writers

  /** The allocator a batch starts from: staged regions are free again once nothing is
      cached. */
  function Unstaged(a: Alloc, cached: nat): Alloc {
    if cached == 0 then Drained(a) else a
  }

  class FlatFile {
    const direct: bool
    const seg: RegionAlloc
    var file: File
    var readAheadLen: nat

    constructor (direct: bool, seg: RegionAlloc)
      ensures this.direct == direct && this.seg == seg && file == map[] && readAheadLen == 0
    {
      this.direct, this.seg, file, readAheadLen := direct, seg, map[], 0;
    }

    /** Release the staged regions if no read-ahead entry can alias one. */
    method DrainStagedIfUnaliased()
      requires Ok(seg.View())
      modifies seg
      ensures Ok(seg.View()) && seg.View() == Unstaged(old(seg.View()), readAheadLen)
    {
      if readAheadLen == 0 {
        DrainedKeepsProtection(seg.View());
        seg.DrainStaged();
      }
    }

    /** Coalesce the payloads into runs and write each run as it is packed. */
    method WriteBatch(payloads: seq<Bytes>) returns (r: T.Result<seq<Ptr>>)
      requires Ok(seg.View())
      modifies this`file, seg
      ensures Ok(seg.View()) && Ok(Unstaged(old(seg.View()), readAheadLen))
      ensures !AllFit(payloads) ==> r.Err? && file == old(file) && seg.View() == Unstaged(old(seg.View()), readAheadLen)
      ensures AllFit(payloads) ==> (r.Ok? <==> Addressable(Plan(Unstaged(old(seg.View()), readAheadLen), payloads, direct).runs))
      ensures AllFit(payloads) && r.Ok? ==>
        Carried(old(file), Unstaged(old(seg.View()), readAheadLen), payloads, direct, file, seg.View(), r.value)
    {
      hide ListsOk, PinsOk, HeadOk, Plan, WriteRuns, PtrsOf, Image, Put, Allocated, AllocUnit, Fit, TotalUnits, AllFit, Behind;
      DrainStagedIfUnaliased();
      ghost var a0 := seg.View();
      var tooBig := TooBig(payloads);
      if tooBig {
        return T.Err;
      }
      var ptrs := [];
      var i := 0;
      ghost var done: seq<Packed> := [];
      NoRuns(file);
      BehindStart(a0, payloads, direct);
      while i < |payloads|
        invariant i <= |payloads| && AllFit(payloads) && AllFit(payloads[i..]) && Ok(seg.View())
        invariant RunsOk(done) && Addressable(done)
        invariant file == WriteRuns(old(file), done) && ptrs == PtrsOf(done)
        invariant Behind(a0, payloads, direct, done, seg.View(), payloads[i..])
        decreases |payloads| - i
      {
        ghost var a, rest := seg.View(), payloads[i..];
        FitEach(payloads);
        var j, live := PackRun(payloads, i);
        assert rest[..j - i] == payloads[i..j] && rest[j - i..] == payloads[j..];
        var units := PaddedUnits(direct, live);
        PackedFits(rest, direct);
        var base := seg.Reserve(units, live);
        ghost var run := Packed(base, units, payloads[i..j]);
        BehindStep(a0, payloads, direct, done, a, rest, j - i, run);
        if base + units > U32_MAX {
          return T.Err;
        }
        var image, placed := FillRun(payloads[i..j], base, units);
        WriteRunsSnoc(old(file), done, run);
        file := Put(file, base * ADDR_UNIT, image);
        ptrs := ptrs + placed;
        done := done + [run];
        i := j;
      }
      BehindEnds(a0, payloads, direct, done, seg.View(), payloads[i..]);
      r := T.Ok(ptrs);
    }

    /** Plan and reserve every run in one pass, then write the runs in any order. */
    method WriteBatchParallel(payloads: seq<Bytes>) returns (r: T.Result<seq<Ptr>>)
      requires Ok(seg.View())
      modifies this`file, seg
      ensures Ok(seg.View()) && Ok(Unstaged(old(seg.View()), readAheadLen))
      ensures !AllFit(payloads) ==> r.Err? && file == old(file) && seg.View() == Unstaged(old(seg.View()), readAheadLen)
      ensures AllFit(payloads) ==> (r.Ok? <==> Addressable(Plan(Unstaged(old(seg.View()), readAheadLen), payloads, direct).runs))
      ensures AllFit(payloads) && r.Ok? ==>
        Carried(old(file), Unstaged(old(seg.View()), readAheadLen), payloads, direct, file, seg.View(), r.value)
    {
      hide ListsOk, PinsOk, HeadOk, Plan, WriteRuns, PtrsOf, Image, Put, Allocated, AllocUnit, Fit, TotalUnits, AllFit, Behind, Merged;
      DrainStagedIfUnaliased();
      ghost var a0 := seg.View();
      var tooBig := TooBig(payloads);
      if tooBig {
        return T.Err;
      }
      var planned, runs, ptrs := PlanRuns(payloads);
      if !planned {
        return T.Err;
      }
      PlanIsDisjoint(a0, payloads, direct);
      WriteAny(runs);
      r := T.Ok(ptrs);
    }

    method PlanRuns(payloads: seq<Bytes>) returns (ok: bool, runs: seq<Packed>, ptrs: seq<Ptr>)
      requires Ok(seg.View()) && AllFit(payloads)
      modifies seg
      ensures Ok(seg.View())
      ensures ok <==> Addressable(Plan(old(seg.View()), payloads, direct).runs)
      ensures ok ==> Plan(old(seg.View()), payloads, direct) == Planned(runs, seg.View()) && ptrs == PtrsOf(runs)
    {
      hide ListsOk, PinsOk, HeadOk, Plan, WriteRuns, PtrsOf, Allocated, AllocUnit, Fit, TotalUnits, AllFit, Behind;
      ghost var a0 := seg.View();
      ptrs, runs := [], [];
      var i := 0;
      NoRuns(file);
      BehindStart(a0, payloads, direct);
      while i < |payloads|
        invariant i <= |payloads| && AllFit(payloads[i..]) && Ok(seg.View())
        invariant RunsOk(runs) && Addressable(runs) && ptrs == PtrsOf(runs)
        invariant Behind(a0, payloads, direct, runs, seg.View(), payloads[i..])
        decreases |payloads| - i
      {
        ghost var a, rest := seg.View(), payloads[i..];
        FitEach(payloads);
        var j, live := PackRun(payloads, i);
        assert rest[..j - i] == payloads[i..j] && rest[j - i..] == payloads[j..];
        var units := PaddedUnits(direct, live);
        PackedFits(rest, direct);
        var base := seg.Reserve(units, live);
        var run := Packed(base, units, payloads[i..j]);
        BehindStep(a0, payloads, direct, runs, a, rest, j - i, run);
        if base + units > U32_MAX {
          return false, [], [];
        }
        WriteRunsSnoc(file, runs, run);
        ptrs := ptrs + PtrsFrom(base, payloads[i..j]);
        runs := runs + [run];
        i := j;
      }
      BehindEnds(a0, payloads, direct, runs, seg.View(), payloads[i..]);
      ok := true;
    }

    /** Positioned writes of disjoint runs, one after the other in any order. */
    method WriteAny(runs: seq<Packed>)
      requires RunsOk(runs) && Disjoint(runs)
      modifies this`file
      ensures file == WriteRuns(old(file), runs)
    {
      hide WriteRuns, Image, Put, TotalUnits, Merged;
      var todo := Upto(|runs|);
      MergedNone(file, runs);
      ghost var done: set<nat> := {};
      while todo != {}
        invariant todo !! done && todo + done == Upto(|runs|) && Merged(old(file), file, runs, done)
        decreases |todo|
      {
        var k :| k in todo;
        var image, _ := FillRun(runs[k].recs, runs[k].base, runs[k].units);
        MergeOne(old(file), file, runs, done, k);
        file := Put(file, runs[k].base * ADDR_UNIT, image);
        todo, done := todo - {k}, done + {k};
      }
      assert runs[..|runs|] == runs;
      WriteRunsMerges(old(file), runs, |runs|);
      MergedUnique(old(file), file, WriteRuns(old(file), runs), runs);
    }
  }

  lemma BehindStart(a0: Alloc, ps: seq<Bytes>, direct: bool)
    requires HeadIn(a0) && AllFit(ps)
    ensures ps[0..] == ps && Behind(a0, ps, direct, [], a0, ps[0..])
  {
  }

  lemma BehindEnds(a0: Alloc, ps: seq<Bytes>, direct: bool, done: seq<Packed>, a: Alloc, rest: seq<Bytes>)
    requires HeadIn(a0) && AllFit(ps) && HeadIn(a) && AllFit(rest) && rest == [] && Behind(a0, ps, direct, done, a, rest)
    ensures Plan(a0, ps, direct) == Planned(done, a)
  {
    PlanEnds(a, direct);
  }

  lemma FitEach(ps: seq<Bytes>)
    requires AllFit(ps)
    ensures forall k :: 0 <= k < |ps| ==> |ps[k]| <= MAX_RECORD_BYTES
  {
  }

  lemma PackedFits(ps: seq<Bytes>, direct: bool)
    requires AllFit(ps) && ps != []
    ensures TotalUnits(ps[..Fit(ps)]) <= PaddedUnits(direct, TotalUnits(ps[..Fit(ps)])) <= REGION_UNITS
  {
  }
}

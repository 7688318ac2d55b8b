/** Regions over whole histories: what lies in every region since it was last opened,
    kept through every batch and every change of the allocator's books, so that a scan
    of any region finds every non-empty record written to it.
 */
module RegionHistory {
  import T = Trie
  import opened Regions
  import opened Packer
  import opened RegionScan
  import F = FlatFile

  /** A region as read from the file; what was never written reads as zero. */
  function ReadRegion(file: File, r: nat): (b: Bytes)
    ensures |b| == REGION_BYTES
    ensures forall i :: 0 <= i < REGION_BYTES ==> b[i] == if r * REGION_BYTES + i in file then file[r * REGION_BYTES + i] else 0
  {
    seq(REGION_BYTES, i requires 0 <= i < REGION_BYTES => if r * REGION_BYTES + i in file then file[r * REGION_BYTES + i] else 0)
  }

  /** The allocator, the file, and the pieces written to each region since it was opened. */
  datatype Store = Store(a: Alloc, file: File, layout: map<nat, seq<Piece>>)

  ghost predicate LayoutAt(file: File, r: nat, ps: seq<Piece>) {
    Fits(ps) && Layout(ps) <= ReadRegion(file, r)
  }

  ghost predicate StoreOk(s: Store) {
    && Ok(s.a)
    && (forall r :: r in s.layout ==> LayoutAt(s.file, r, s.layout[r]))
    && (s.a.live != [] ==> s.a.head in s.layout && s.a.head * REGION_UNITS + LayoutUnits(s.layout[s.a.head]) == s.a.next)
  }

  // ----------------------------------------------------------------------- a run

  function Records(ps: seq<Bytes>): (r: seq<Piece>)
    ensures |r| == |ps| && forall i :: 0 <= i < |ps| ==> r[i] == Framed(ps[i])
  {
    if ps == [] then [] else Records(ps[..|ps| - 1]) + [Framed(ps[|ps| - 1])]
  }

  function Blanks(n: nat): (r: seq<Piece>)
    ensures |r| == n && forall i :: 0 <= i < n ==> r[i] == Blank
  {
    if n == 0 then [] else Blanks(n - 1) + [Blank]
  }

  function Pieces(r: Packed): seq<Piece>
    requires RunOk(r)
  {
    Records(r.recs) + Blanks(r.units - TotalUnits(r.recs))
  }

  lemma {:induction false} LayoutConcat(ps: seq<Piece>, qs: seq<Piece>)
    ensures Layout(ps + qs) == Layout(ps) + Layout(qs) && LayoutUnits(ps + qs) == LayoutUnits(ps) + LayoutUnits(qs)
    decreases |qs|
  {
    hide PieceBytes, PieceUnits;
    if qs == [] {
      assert ps + qs == ps;
    } else {
      var init := qs[..|qs| - 1];
      LayoutConcat(ps, init);
      assert (ps + qs)[..|ps + qs| - 1] == ps + init;
      assert (Layout(ps) + Layout(init)) + PieceBytes(qs[|qs| - 1]) == Layout(ps) + (Layout(init) + PieceBytes(qs[|qs| - 1]));
    }
  }

  lemma {:induction false} RecordsLayout(ps: seq<Bytes>)
    ensures Layout(Records(ps)) == Frames(ps) && LayoutUnits(Records(ps)) == TotalUnits(ps)
  {
    hide Frame;
    if ps != [] {
      var init := ps[..|ps| - 1];
      RecordsLayout(init);
      assert Records(ps)[..|ps| - 1] == Records(init);
    }
  }

  lemma BlankPiece()
    ensures PieceUnits(Blank) == 1 && PieceBytes(Blank) == Zeros(ADDR_UNIT)
  {
  }

  lemma {:induction false} BlanksLayout(n: nat)
    ensures Layout(Blanks(n)) == Zeros(n * ADDR_UNIT) && LayoutUnits(Blanks(n)) == n
  {
    hide PieceUnits, Blanks;
    if n == 0 {
      assert Blanks(0) == [];
    } else {
      BlankPiece();
      BlanksLayout(n - 1);
      assert Blanks(n)[..n - 1] == Blanks(n - 1);
      assert Zeros((n - 1) * ADDR_UNIT) + Zeros(ADDR_UNIT) == Zeros(n * ADDR_UNIT);
    }
  }

  /** The bytes a run writes are exactly its pieces laid out. */
  lemma PiecesLayout(r: Packed)
    requires RunOk(r)
    ensures Layout(Pieces(r)) == Image(r) && LayoutUnits(Pieces(r)) == r.units
  {
    hide Layout, LayoutUnits, Frames, TotalUnits, Records, Blanks, Zeros;
    RecordsLayout(r.recs);
    BlanksLayout(r.units - TotalUnits(r.recs));
    LayoutConcat(Records(r.recs), Blanks(r.units - TotalUnits(r.recs)));
  }

  /** Append one run at the head. */
  function Appended(s: Store, units: nat, recs: seq<Bytes>): Store
    requires HeadIn(s.a) && TotalUnits(recs) <= units <= REGION_UNITS
    requires !NeedsNewHead(s.a, units) ==> s.a.head in s.layout
  {
    var run := Packed(AllocUnit(s.a, units), units, recs);
    var before := if NeedsNewHead(s.a, units) then [] else s.layout[s.a.head];
    Store(Allocated(s.a, units, TotalUnits(recs)), Put(s.file, run.base * ADDR_UNIT, Image(run)),
          s.layout[HeadFor(s.a, units).head := before + Pieces(run)])
  }

  lemma PutElsewhere(file: File, base: nat, buf: Bytes, head: nat, r: nat)
    requires head * REGION_UNITS <= base && base * ADDR_UNIT + |buf| <= (head + 1) * REGION_BYTES && r != head
    ensures ReadRegion(Put(file, base * ADDR_UNIT, buf), r) == ReadRegion(file, r)
  {
    var b, c := ReadRegion(Put(file, base * ADDR_UNIT, buf), r), ReadRegion(file, r);
    forall i | 0 <= i < REGION_BYTES ensures b[i] == c[i] {
      var x := r * REGION_BYTES + i;
      if r < head {
        assert (r + 1) * REGION_BYTES <= head * REGION_BYTES;
      } else {
        assert (head + 1) * REGION_BYTES <= r * REGION_BYTES;
      }
      assert !Within(x, base * ADDR_UNIT, |buf|);
    }
  }

  lemma PutHere(file: File, head: nat, units: nat, buf: Bytes, before: Bytes)
    requires before <= ReadRegion(file, head) && |before| == units * ADDR_UNIT && |before| + |buf| <= REGION_BYTES
    ensures before + buf <= ReadRegion(Put(file, (head * REGION_UNITS + units) * ADDR_UNIT, buf), head)
  {
    var off := (head * REGION_UNITS + units) * ADDR_UNIT;
    var b, c := ReadRegion(Put(file, off, buf), head), ReadRegion(file, head);
    assert off == head * REGION_BYTES + |before|;
    forall i | 0 <= i < |before + buf| ensures b[i] == (before + buf)[i] {
      var x := head * REGION_BYTES + i;
      assert Within(x, off, |buf|) <==> |before| <= i;
      if i < |before| {
        assert c[i] == before[i];
      }
    }
  }

  /** Where a run lands: right behind what its region holds since it was opened. */
  lemma LandsBehind(s: Store, units: nat, live: nat)
    requires StoreOk(s) && 0 < live <= units <= REGION_UNITS
    ensures !NeedsNewHead(s.a, units) ==> s.a.head in s.layout
    ensures var before := if NeedsNewHead(s.a, units) then [] else s.layout[s.a.head];
      var head := HeadFor(s.a, units).head;
      var b := Allocated(s.a, units, live);
      && AllocUnit(s.a, units) == head * REGION_UNITS + LayoutUnits(before)
      && LayoutUnits(before) + units <= REGION_UNITS
      && LayoutAt(s.file, head, before) && b.head == head && b.next == AllocUnit(s.a, units) + units && b.live != []
  {
    hide ListsOk, PinsOk, Layout;
    HeadForHasRoom(s.a, units);
    EmptyLayout(s.file, HeadFor(s.a, units).head);
  }

  lemma EmptyLayout(file: File, r: nat)
    ensures LayoutAt(file, r, [])
  {
  }

  lemma FitsConcat(ps: seq<Piece>, r: Packed)
    requires Fits(ps) && RunOk(r) && AllFit(r.recs)
    ensures Fits(ps + Pieces(r))
  {
    hide TotalUnits;
  }

  /** Appending a run keeps every region's layout. */
  lemma AppendedOk(s: Store, units: nat, recs: seq<Bytes>)
    requires StoreOk(s) && AllFit(recs) && 0 < TotalUnits(recs) <= units <= REGION_UNITS
    ensures !NeedsNewHead(s.a, units) ==> s.a.head in s.layout
    ensures StoreOk(Appended(s, units, recs))
  {
    hide ListsOk, PinsOk, HeadOk, Layout, LayoutUnits, TotalUnits, Image, Put, ReadRegion, Pieces, Fits, Allocated, HeadFor, AllocUnit, AllFit;
    LandsBehind(s, units, TotalUnits(recs));
    var before := if NeedsNewHead(s.a, units) then [] else s.layout[s.a.head];
    var head, base := HeadFor(s.a, units).head, AllocUnit(s.a, units);
    var run := Packed(base, units, recs);
    var t := Appended(s, units, recs);
    AllocatedKeepsOk(s.a, units, TotalUnits(recs));
    PiecesLayout(run);
    LayoutConcat(before, Pieces(run));
    FitsConcat(before, run);
    PutHere(s.file, head, LayoutUnits(before), Image(run), Layout(before));
    forall r | r in t.layout ensures LayoutAt(t.file, r, t.layout[r]) {
      if r != head {
        PutElsewhere(s.file, base, Image(run), head, r);
      }
    }
  }

  // ------------------------------------------------------------------- histories

  /** Append a whole batch, run by run. */
  ghost function Batched(s: Store, ps: seq<Bytes>, direct: bool): (t: Store)
    requires StoreOk(s) && AllFit(ps)
    ensures StoreOk(t)
    decreases |ps|
  {
    if ps == [] then s
    else
      var j := Fit(ps);
      var units := PaddedUnits(direct, TotalUnits(ps[..j]));
      SomeUnits(ps[..j]);
      AppendedOk(s, units, ps[..j]);
      Batched(Appended(s, units, ps[..j]), ps[j..], direct)
  }

  /** The batch writers do to allocator and file exactly this. */
  lemma {:induction false} BatchedIsPlan(s: Store, ps: seq<Bytes>, direct: bool)
    requires StoreOk(s) && AllFit(ps)
    ensures var t, p := Batched(s, ps, direct), Plan(s.a, ps, direct);
      t.a == p.a && F.RunsOk(p.runs) && t.file == WriteRuns(s.file, p.runs)
    decreases |ps|
  {
    if ps != [] {
      hide StoreOk, Allocated, AllocUnit, Fit, TotalUnits, Image, Put, Pieces, HeadFor, NeedsNewHead, WriteRuns, Ok;
      var j := Fit(ps);
      var units := PaddedUnits(direct, TotalUnits(ps[..j]));
      SomeUnits(ps[..j]);
      AppendedOk(s, units, ps[..j]);
      var t := Appended(s, units, ps[..j]);
      StoreHead(s);
      StoreHead(t);
      F.PlanUnfold(s.a, ps, direct);
      BatchedIsPlan(t, ps[j..], direct);
      BatchedUnfold(s, ps, direct);
      hide Batched, Plan;
      FirstRun(s.file, Plan(s.a, ps, direct).runs);
      assert Plan(s.a, ps, direct).runs[1..] == Plan(t.a, ps[j..], direct).runs;
    }
  }

  lemma StoreHead(s: Store)
    requires StoreOk(s)
    ensures Ok(s.a) && HeadIn(s.a)
  {
  }

  lemma BatchedUnfold(s: Store, ps: seq<Bytes>, direct: bool)
    requires StoreOk(s) && AllFit(ps) && ps != []
    ensures var j := Fit(ps); var units := PaddedUnits(direct, TotalUnits(ps[..j]));
      && (!NeedsNewHead(s.a, units) ==> s.a.head in s.layout) && HeadIn(s.a)
      && StoreOk(Appended(s, units, ps[..j])) && AllFit(ps[j..])
      && Batched(s, ps, direct) == Batched(Appended(s, units, ps[..j]), ps[j..], direct)
  {
    hide Ok, Fit, TotalUnits, Appended, StoreOk;
    var j := Fit(ps);
    SomeUnits(ps[..j]);
    StoreHead(s);
    AppendedOk(s, PaddedUnits(direct, TotalUnits(ps[..j])), ps[..j]);
  }

  lemma FirstRun(file: File, runs: seq<Packed>)
    requires runs != [] && F.RunsOk(runs)
    ensures RunOk(runs[0]) && F.RunsOk(runs[1..])
    ensures WriteRuns(file, runs) == WriteRuns(Put(file, runs[0].base * ADDR_UNIT, Image(runs[0])), runs[1..])
  {
    hide Put, Image;
  }

  /** A change of the books: frees, pins, checkpoints and drains move regions between
      lists, and leave the write position alone. */
  ghost predicate Books(a: Alloc, b: Alloc) {
    Ok(b) && b.head == a.head && b.next == a.next && (b.live == [] <==> a.live == [])
  }

  /** Every operation other than a reservation is such a change. */
  lemma AccountingIsBooks(a: Alloc, unit: nat, units: nat, g: nat)
    requires Ok(a)
    ensures Books(a, Freed(a, unit, units)) && Books(a, Persisted(a)) && Books(a, Pinned(a)) && Books(a, Unpinned(a, g)) && Books(a, Drained(a))
    ensures g in a.pins ==> Books(a, PinnedAt(a, g))
  {
    hide Ok, Parked, Cached, Durable, Guarded, Route;
    FreedKeepsOk(a, unit, units);
    PersistedKeepsOk(a);
    PinnedKeepsOk(a);
    UnpinnedKeepsOk(a, g);
    DrainedKeepsProtection(a);
    if g in a.pins {
      PinnedAtKeepsOk(a, g);
    }
  }

  datatype StoreStep = Write(ps: seq<Bytes>, direct: bool) | Account(b: Alloc)

  /** The store after a history from a new file, if every step was possible. */
  ghost predicate After(steps: seq<StoreStep>, s: Store)
    decreases |steps|
  {
    if steps == [] then s == Store(EMPTY, map[], map[])
    else
      var step := steps[|steps| - 1];
      exists p :: After(steps[..|steps| - 1], p) && Steps(p, step, s)
  }

  ghost predicate Steps(p: Store, step: StoreStep, s: Store) {
    match step
    case Write(ps, direct) => StoreOk(p) && AllFit(ps) && s == Batched(p, ps, direct)
    case Account(b) => Books(p.a, b) && s == p.(a := b)
  }

  lemma {:induction false} HistoryOk(steps: seq<StoreStep>, s: Store)
    requires After(steps, s)
    ensures StoreOk(s)
    decreases |steps|
  {
    if steps == [] {
      EmptyOk();
    } else {
      var p :| After(steps[..|steps| - 1], p) && Steps(p, steps[|steps| - 1], s);
      HistoryOk(steps[..|steps| - 1], p);
    }
  }

  lemma EmptyOk()
    ensures Ok(EMPTY)
  {
    assert Parked(EMPTY) == multiset{};
  }

  /** After every history, scanning any region reports, first and in order, exactly the
      non-empty records written to it since it was opened, with their units and payloads. */
  lemma ScanAfterHistory(steps: seq<StoreStep>, s: Store, r: nat)
    requires After(steps, s) && r in s.layout
    ensures HitsOf(r * REGION_UNITS, s.layout[r]) <= ScanFrom(ReadRegion(s.file, r), r * REGION_UNITS, 0)
  {
    hide ScanFrom, Layout, HitsOf, ReadRegion, After, LayoutUnits, Ok;
    HistoryOk(steps, s);
    var ps := s.layout[r];
    ScanRecovers(ReadRegion(s.file, r), r * REGION_UNITS, ps, |ps|);
    assert ps[..|ps|] == ps;
  }

  lemma HitsSnoc(base: nat, ps: seq<Piece>, p: Piece)
    ensures HitsOf(base, ps + [p]) == HitsOf(base, ps) + HitAt(base + LayoutUnits(ps), p)
  {
    hide LayoutUnits, HitAt;
    assert (ps + [p])[..|ps|] == ps;
  }

  lemma {:induction false} HitsConcat(base: nat, ps: seq<Piece>, qs: seq<Piece>)
    ensures HitsOf(base, ps + qs) == HitsOf(base, ps) + HitsOf(base + LayoutUnits(ps), qs)
    decreases |qs|
  {
    hide LayoutUnits, HitsOf, HitAt, Layout;
    if qs == [] {
      NoHits(base + LayoutUnits(ps));
      assert ps + qs == ps;
    } else {
      var init, last := qs[..|qs| - 1], qs[|qs| - 1];
      HitsConcat(base, ps, init);
      UnitsConcat(ps, init);
      assert ps + qs == (ps + init) + [last];
      assert qs == init + [last];
      HitsSnoc(base, ps + init, last);
      HitsSnoc(base + LayoutUnits(ps), init, last);
      Assoc(HitsOf(base, ps), HitsOf(base + LayoutUnits(ps), init), HitAt(base + LayoutUnits(ps) + LayoutUnits(init), last));
    }
  }

  lemma Assoc(a: seq<Hit>, b: seq<Hit>, c: seq<Hit>)
    ensures (a + b) + c == a + (b + c)
  {
  }

  lemma NoHits(base: nat)
    ensures HitsOf(base, []) == []
  {
  }

  lemma UnitsConcat(ps: seq<Piece>, qs: seq<Piece>)
    ensures LayoutUnits(ps + qs) == LayoutUnits(ps) + LayoutUnits(qs)
  {
    hide LayoutUnits, Layout;
    LayoutConcat(ps, qs);
  }

  lemma {:induction false} RecordHits(base: nat, recs: seq<Bytes>, i: nat)
    requires i < |recs| && recs[i] != []
    ensures Hit(PtrsFrom(base, recs)[i].unit, recs[i]) in HitsOf(base, Records(recs))
  {
    hide PieceUnits, TotalUnits, LayoutUnits;
    var init := recs[..|recs| - 1];
    assert Records(recs)[..|recs| - 1] == Records(init);
    RecordsLayout(init);
    if i < |init| {
      RecordHits(base, init, i);
    }
  }

  /** A record just written is reported by a scan of its region, at its own pointer. */
  lemma WrittenIsHit(s: Store, units: nat, recs: seq<Bytes>, i: nat)
    requires StoreOk(s) && AllFit(recs) && TotalUnits(recs) <= units <= REGION_UNITS && i < |recs| && recs[i] != []
    ensures !NeedsNewHead(s.a, units) ==> s.a.head in s.layout
    ensures var ptr, t := PtrsFrom(AllocUnit(s.a, units), recs)[i], Appended(s, units, recs);
      && t.a.head in t.layout
      && Hit(ptr.unit, recs[i]) in HitsOf(t.a.head * REGION_UNITS, t.layout[t.a.head])
  {
    hide ListsOk, PinsOk, HeadOk, Layout, LayoutUnits, TotalUnits, Image, Put, ReadRegion, Allocated, HeadFor, AllocUnit, AllFit, HitsOf,
      PtrsFrom, Records, Blanks;
    SomeUnits(recs);
    LandsBehind(s, units, TotalUnits(recs));
    var before := if NeedsNewHead(s.a, units) then [] else s.layout[s.a.head];
    var head, base := HeadFor(s.a, units).head, AllocUnit(s.a, units);
    var blanks := Blanks(units - TotalUnits(recs));
    RecordHits(base, recs, i);
    HitsConcat(base, Records(recs), blanks);
    HitsConcat(head * REGION_UNITS, before, Records(recs) + blanks);
  }
}

/** What the steps of the storage engine do, not only what they keep: which slot swings
    to which record, which units come off the books, and that a record can always be copied,
    relocated and its old place given up.
 */
module ReclaimEffects {
  import opened Regions
  import opened RegionLife
  import opened Reclaim
  import opened ReclaimSteps
  import opened ReclaimSafety

  /** Exactly the units of the record at `ptr` are off their region's count. */
  ghost predicate Uncounted(a: Alloc, b: Alloc, ptr: Ptr) {
    && |b.live| == |a.live| && RegionOf(ptr.unit) < |a.live| && Units(ptr) <= a.live[RegionOf(ptr.unit)]
    && forall q :: 0 <= q < |a.live| ==> b.live[q] == a.live[q] - if q == RegionOf(ptr.unit) then Units(ptr) else 0
  }

  /** Only the frontier, the pending records and their accounting differ. */
  ghost predicate OnlyMoves(s: State, t: State) {
    t == s.(a := t.a, own := t.own, frontier := t.frontier, pending := t.pending)
  }

  lemma FreedUncounts(a: Alloc, ptr: Ptr)
    requires Ok(a) && RegionOf(ptr.unit) < |a.live| && Units(ptr) <= a.live[RegionOf(ptr.unit)]
    ensures Uncounted(a, Freed(a, ptr.unit, Units(ptr)), ptr)
  {
    hide Ok, Freed, Units;
    FreedIsExact(a, ptr.unit, Units(ptr));
  }

  lemma SwungIsExact(s: State, p: Path, v: nat)
    requires Inv(s) && p in s.frontier && v in s.pending
    ensures var t := Swung(s, p, v);
      OnlyMoves(s, t) && t.frontier == s.frontier[p := s.pending[v].rec] && t.pending == s.pending - {v} && Uncounted(s.a, t.a, s.frontier[p].ptr)
  {
    hide Inv, Swung, Uncounted, Ok, OnlyMoves, Freed, Units;
    FreeNeverSaturates(s, p);
    InvOk(s);
    SwungFields(s, p, v);
    FreedUncounts(s.a, s.frontier[p].ptr);
  }

  lemma SwungFields(s: State, p: Path, v: nat)
    requires p in s.frontier && v in s.pending
    ensures var t := Swung(s, p, v);
      && OnlyMoves(s, t) && t.frontier == s.frontier[p := s.pending[v].rec] && t.pending == s.pending - {v}
      && t.a == Freed(s.a, s.frontier[p].ptr.unit, Units(s.frontier[p].ptr))
  {
    hide Freed, Disown, Rename, Units;
    var m := DoDetach(s, p);
    assert m.frontier == s.frontier - {p};
    assert (s.frontier - {p})[p := s.pending[v].rec] == s.frontier[p := s.pending[v].rec];
  }

  lemma DroppedIsExact(s: State, v: nat)
    requires Inv(s) && v in s.pending
    ensures var t := Dropped(s, v);
      OnlyMoves(s, t) && t.frontier == s.frontier && t.pending == s.pending - {v} && Uncounted(s.a, t.a, s.pending[v].rec.ptr)
  {
    DropNeverSaturates(s, v);
    InvOk(s);
    hide Inv, Freed, Disown, Uncounted, Ok;
    FreedUncounts(s.a, s.pending[v].rec.ptr);
  }

  lemma InvOk(s: State)
    requires Inv(s)
    ensures Ok(s.a)
  {
  }

  /** Installing a collected copy: if the slot still points at the record collected, it
      swings to the copy and the old record's units are given up; otherwise the copy's are and
      the frontier stays.  Either way the copy is pending no more. */
  lemma InstallIsExact(s: State, v: nat)
    requires Inv(s) && Enabled(s, Install(v))
    ensures var t, use := Next(s, Install(v)), s.pending[v].use;
      var was := s.views[s.handles[use.handle].gen][use.path].ptr;
      && OnlyMoves(s, t) && t.pending == s.pending - {v}
      && if use.path in s.frontier && s.frontier[use.path].ptr == was
         then t.frontier == s.frontier[use.path := s.pending[v].rec] && Uncounted(s.a, t.a, was)
         else t.frontier == s.frontier && Uncounted(s.a, t.a, s.pending[v].rec.ptr)
  {
    hide Inv, Swung, Dropped, Uncounted, OnlyMoves, Next;
    InstallUnfolds(s, v);
    DroppedIsExact(s, v);
    if s.pending[v].use.path in s.frontier {
      SwungIsExact(s, s.pending[v].use.path, v);
    }
  }

  lemma InstallUnfolds(s: State, v: nat)
    requires Enabled(s, Install(v))
    ensures var t, use := Next(s, Install(v)), s.pending[v].use;
      var was := s.views[s.handles[use.handle].gen][use.path].ptr;
      if use.path in s.frontier && s.frontier[use.path].ptr == was then t == Swung(s, use.path, v) else t == Dropped(s, v)
  {
    hide Swung, Dropped;
  }

  /** Evacuating a record swings its slot to the copy and gives up the old units. */
  lemma EvacuateIsExact(s: State, p: Path, v: nat)
    requires Inv(s) && Enabled(s, Evacuate(p, v))
    ensures var t := Next(s, Evacuate(p, v));
      && OnlyMoves(s, t) && t.frontier == s.frontier[p := s.pending[v].rec] && t.pending == s.pending - {v}
      && Uncounted(s.a, t.a, s.frontier[p].ptr)
  {
    hide Inv, Swung, Uncounted;
    SwungIsExact(s, p, v);
  }

  /** Attaching a record uses it up, and no count changes. */
  lemma AttachIsExact(s: State, p: Path, v: nat)
    requires Enabled(s, Attach(p, v))
    ensures var t := Next(s, Attach(p, v));
      OnlyMoves(s, t) && t.frontier == s.frontier[p := s.pending[v].rec] && t.pending == s.pending - {v} && t.a == s.a
  {
    hide Rename;
  }

  /** Detaching a record gives up its units. */
  lemma DetachIsExact(s: State, p: Path)
    requires Inv(s) && Enabled(s, Detach(p))
    ensures var t := Next(s, Detach(p));
      OnlyMoves(s, t) && t.frontier == s.frontier - {p} && t.pending == s.pending && Uncounted(s.a, t.a, s.frontier[p].ptr)
  {
    FreeNeverSaturates(s, p);
    InvOk(s);
    hide Inv, Freed, Disown, Uncounted, Ok, Units;
    FreedUncounts(s.a, s.frontier[p].ptr);
  }

  // ------------------------------------------------------------ writes and readers

  /** A positioned write puts every record of its run on disk, and nothing else. */
  lemma WriteIsExact(s: State, id: nat)
    requires Inv(s) && Enabled(s, PWrite(id))
    ensures var t := Next(s, PWrite(id));
      && id !in t.runs && t.pending == s.pending && t.frontier == s.frontier && t.a == s.a
      && (forall v :: v in s.pending && s.pending[v].run == id ==> ReadUnits(t.disk, s.pending[v].rec.ptr) == s.pending[v].rec.image)
      && (forall u: nat :: u !in RunUnits(s.runs[id]) ==> At(t.disk, u) == At(s.disk, u))
  {
    hide Inv, Overwrite, RunUnits, Intact, ReadUnits, At;
    WriteKeepsInv(s, id);
    var t := Next(s, PWrite(id));
    forall v | v in s.pending && s.pending[v].run == id ensures ReadUnits(t.disk, s.pending[v].rec.ptr) == s.pending[v].rec.image {
      WrittenIsIntact(t, v);
      IntactIsRead(t.disk, s.pending[v].rec);
    }
  }

  lemma WrittenIsIntact(s: State, v: nat)
    requires Inv(s) && v in s.pending && s.pending[v].run !in s.runs
    ensures Intact(s.disk, s.pending[v].rec)
  {
    hide Ok, OwnOk, RunsOk, FrontierOk, ViewsOk, HandlesOk, CopiesOk, ManifestOk, CacheOk, Intact;
    assert PendOk(s.pending[v], s.runs, s.nextRun, s.disk);
  }

  ghost predicate SomeHandle(handles: map<nat, Handle>, g: nat) {
    exists h :: h in handles && handles[h].gen == g
  }

  /** A generation has a frozen frontier exactly while some handle holds it. */
  lemma ViewsAreHandled(s: State, g: nat)
    requires Inv(s)
    ensures g in s.views <==> SomeHandle(s.handles, g)
  {
    hide OwnOk, RunsOk, PendingOk, FrontierOk, CopiesOk, ManifestOk, CacheOk, ListsOk, HeadOk, Intact, AllGuarded;
    if g in s.views {
      assert s.a.pins[g] == |HandlesAt(s.handles, g)|;
      assert HandlesAt(s.handles, g) != {};
      var h :| h in HandlesAt(s.handles, g);
    }
  }

  /** A new snapshot freezes the frontier of its moment under a generation of its own. */
  lemma PinIsExact(s: State)
    requires Inv(s) && Enabled(s, Pin)
    ensures var t, n := Next(s, Pin), s.nextHandle;
      && n !in s.handles && t.handles == s.handles[n := t.handles[n]] && t.handles[n].gen !in s.views && t.handles[n].copies == map[]
      && t == s.(a := t.a, handles := t.handles, nextHandle := t.nextHandle, views := s.views[t.handles[n].gen := s.frontier])
  {
    hide Inv, Next, Pinned;
    NewNames(s);
    PinUnfolds(s);
  }

  lemma PinUnfolds(s: State)
    requires Enabled(s, Pin)
    ensures var n, g := s.nextHandle, s.a.pinGen + 1;
      Next(s, Pin) == s.(a := Pinned(s.a), views := s.views[g := s.frontier], handles := s.handles[n := Handle(g, false, map[])], nextHandle := n + 1)
  {
    hide Pinned;
  }

  /** A clone shares its original's generation. */
  lemma CloneIsExact(s: State, h: nat)
    requires Inv(s) && Enabled(s, Clone(h))
    ensures var t, n := Next(s, Clone(h)), s.nextHandle;
      && n !in s.handles && t.handles == s.handles[n := t.handles[n]] && t.handles[n].gen == s.handles[h].gen
      && t == s.(a := t.a, handles := t.handles, nextHandle := t.nextHandle)
  {
    hide Inv, PinnedAt;
    NewNames(s);
    assert Next(s, Clone(h)) == DoClone(s, h);
  }

  /** Dropping a handle drops that handle alone, and its frozen frontier exactly when no
      other handle shares it. */
  lemma UnpinIsExact(s: State, h: nat)
    requires Inv(s) && Enabled(s, Unpin(h))
    ensures var t := Next(s, Unpin(h));
      && t == s.(a := t.a, handles := s.handles - {h}, views := t.views)
      && forall g :: g in t.views <==> SomeHandle(s.handles - {h}, g)
  {
    hide Inv, Next, Enabled, DoUnpin, SomeHandle;
    UnpinUnfolds(s, h);
    UnpinKeepsInv(s, h);
    var t := Next(s, Unpin(h));
    forall g ensures g in t.views <==> SomeHandle(s.handles - {h}, g) {
      ViewsAreHandled(t, g);
    }
  }

  lemma UnpinUnfolds(s: State, h: nat)
    requires Enabled(s, Unpin(h))
    ensures var t := Next(s, Unpin(h)); h in s.handles && t == DoUnpin(s, h) && t == s.(a := t.a, handles := s.handles - {h}, views := t.views)
  {
    hide Unpinned;
  }

  lemma NewNames(s: State)
    requires Inv(s)
    ensures s.a.pinGen + 1 !in s.views && s.nextHandle !in s.handles
  {
    hide OwnOk, RunsOk, PendingOk, FrontierOk, CopiesOk, ManifestOk, CacheOk, ViewsOk, HandlesOk, Ok;
    PinIsNew(s);
  }

  /** A collector copies out what its frozen slot holds. */
  lemma CollectReadIsExact(s: State, h: nat, p: Path)
    requires Inv(s) && Enabled(s, CollectRead(h, p))
    ensures var c := s.handles[h];
      Next(s, CollectRead(h, p)) == s.(handles := s.handles[h := c.(copies := c.copies[p := s.views[c.gen][p].image])])
  {
    hide Inv, ReadSlot, Next;
    CollectReadUnfolds(s, h, p);
    SnapshotReads(s, s.handles[h].gen, p);
  }

  lemma CollectReadUnfolds(s: State, h: nat, p: Path)
    requires Enabled(s, CollectRead(h, p))
    ensures var c := s.handles[h];
      Next(s, CollectRead(h, p)) == s.(handles := s.handles[h := c.(copies := c.copies[p := ReadSlot(s.disk, s.views[c.gen], p)])])
  {
    hide ReadSlot;
  }

  /** Prefetching caches the very record the slot points at. */
  lemma PrefetchIsExact(s: State, p: Path)
    requires Inv(s) && Enabled(s, Prefetch(p))
    ensures Next(s, Prefetch(p)) == s.(cache := s.cache[s.frontier[p].ptr.unit := s.frontier[p]])
  {
    hide Inv, ReadSlot, ReadUnits, Next, Enabled;
    PrefetchUnfolds(s, p);
    FrontierReads(s, p);
    SlotIsUnits(s.disk, s.frontier, p);
  }

  lemma PrefetchUnfolds(s: State, p: Path)
    requires Enabled(s, Prefetch(p))
    ensures p in s.frontier
    ensures var ptr := s.frontier[p].ptr; Next(s, Prefetch(p)) == s.(cache := s.cache[ptr.unit := Rec(ptr, ReadUnits(s.disk, ptr))])
  {
    hide ReadUnits;
  }

  /** Clearing the cache, or seeing it empty, lets the staged regions go: none is staged
      afterwards and all of them are free. */
  lemma DrainsAreExact(s: State, step: Step)
    requires Inv(s) && Enabled(s, step) && (step.CacheClear? || step.DrainStaged? || step.CollectDrain?)
    ensures var t := Next(s, step);
      && t.a.staged == [] && t.a.free == s.a.free + s.a.staged && t.a.quarantine == s.a.quarantine && t.a.hold == s.a.hold
      && t.frontier == s.frontier && t.disk == s.disk && (step.CacheClear? ==> t.cache == map[])
  {
    hide Inv;
  }

  lemma SlotIsUnits(d: Disk, f: Frontier, p: Path)
    requires p in f
    ensures ReadSlot(d, f, p) == ReadUnits(d, f[p].ptr)
  {
  }

  /** After the sync nothing is unsynced. */
  lemma SyncIsExact(s: State)
    requires Enabled(s, PersistSync)
    ensures var t := Next(s, PersistSync); t == s.(ckpt := t.ckpt, dirty := {})
  {
  }

  /** When a checkpoint is done no region is quarantined or fresh, and none is lost. */
  lemma PersistDoneIsExact(s: State)
    requires Inv(s) && Enabled(s, PersistDone)
    ensures var t := Next(s, PersistDone);
      t.ckpt.Idle? && t.a.quarantine == [] && (forall r: nat :: !IsFresh(t.a, r)) && Parked(t.a) == Parked(s.a) && t.a.live == s.a.live
  {
    InvOk(s);
    hide Inv, Ok, Parked, Persisted;
    PersistedKeepsOk(s.a);
    PersistedIsExact(s.a);
  }

  // --------------------------------------------------------------- relocations run

  ghost predicate Runs(s: State, steps: seq<Step>, t: State)
    decreases |steps|
  {
    if steps == [] then t == s else Enabled(s, steps[0]) && Runs(Next(s, steps[0]), steps[1..], t)
  }

  /** A reservation makes its records pending in a new run of their bytes. */
  lemma ReserveIsExact(s: State, run: nat, units: nat, recs: map<nat, Rec>, cover: map<nat, nat>, data: seq<Block>)
    requires Inv(s) && Enabled(s, Reserve(run, units, recs, cover, data))
    ensures var t, id := Next(s, Reserve(run, units, recs, cover, data)), s.nextRun;
      && id !in s.runs && t.runs == s.runs[id := Run(AllocUnit(s.a, run), data)] && t.pending.Keys == s.pending.Keys + recs.Keys
      && (forall v :: v in recs ==> v !in s.pending && t.pending[v] == Pend(recs[v], id, Unclaimed))
      && (forall v :: v in s.pending ==> t.pending[v] == s.pending[v])
      && (forall u :: u in cover ==> u !in s.own)
      && t == s.(a := t.a, own := t.own, pending := t.pending, runs := t.runs, nextRun := t.nextRun)
  {
    RunsAreOld(s);
    ReservesNew(s, run, units, recs, cover, data);
    hide Inv, Allocated, AllocUnit, Tiles, Ok, AddOwners, AddPending;
  }

  lemma ReservesNew(s: State, run: nat, units: nat, recs: map<nat, Rec>, cover: map<nat, nat>, data: seq<Block>)
    requires Inv(s) && Enabled(s, Reserve(run, units, recs, cover, data))
    ensures s.own.Keys !! cover.Keys && s.pending.Keys !! recs.Keys
  {
    hide RunsOk, PendingOk, FrontierOk, ViewsOk, HandlesOk, CopiesOk, ManifestOk, CacheOk, Ok, OwnOk, Tiles;
    ReserveIsNew(s, run, units, recs, cover, data);
  }

  lemma RunsAreOld(s: State)
    requires Inv(s)
    ensures s.nextRun !in s.runs
  {
  }

  /** The record's bytes at a new place. */
  function Copy(r: Rec, base: nat): Rec {
    Rec(Ptr(base, r.ptr.len), r.image)
  }

  function CopyStep(a: Alloc, r: Rec): Step {
    var n, base := Units(r.ptr), AllocUnit(a, Units(r.ptr));
    Reserve(n, n, map[base := Copy(r, base)], map u: nat | base <= u < base + n && Within(u, base, n) :: base, r.image)
  }

  lemma CopyFits(a: Alloc, r: Rec)
    requires Ok(a) && Framed(r)
    ensures Units(r.ptr) <= REGION_UNITS && Framed(Copy(r, AllocUnit(a, Units(r.ptr))))
  {
    var n := Units(r.ptr);
    assert n <= REGION_UNITS;
    AllocatedIsUnused(a, n, n);
  }

  lemma CopyIsEnabled(s: State, r: Rec)
    requires Ok(s.a) && Framed(r)
    ensures Enabled(s, CopyStep(s.a, r))
  {
    CopyFits(s.a, r);
    var n, base := Units(r.ptr), AllocUnit(s.a, Units(r.ptr));
    hide Ok, AllocUnit, Le32, UnitsFor, RegionOf;
    var step := CopyStep(s.a, r);
    assert step.data[0..n] == step.data;
    assert forall u: nat :: Within(u, base, n) <==> base <= u < base + n;
    assert Tiles(base, n, step.recs, step.cover, step.data);
  }

  /** Reserved and written: the copy is ready to be claimed, and nothing else changed for
      anybody. */
  ghost predicate CopiedAs(s: State, t: State, r: Rec, v: nat) {
    && Ready(t, v) && t.pending[v].rec == Copy(r, v) && v !in s.own
    && t == s.(a := t.a, own := t.own, pending := t.pending, runs := t.runs, nextRun := t.nextRun, disk := t.disk, dirty := t.dirty)
  }

  /** Any record can be copied to a place of its own. */
  lemma CopyRuns(s: State, r: Rec) returns (steps: seq<Step>, t: State, v: nat)
    requires Inv(s) && Framed(r)
    ensures |steps| == 2 && Runs(s, steps, t) && Inv(t) && CopiedAs(s, t, r, v)
  {
    hide Inv, Enabled, Next, Ok, Framed, AllocUnit, Runs;
    InvOk(s);
    CopyIsEnabled(s, r);
    var step := CopyStep(s.a, r);
    v := AllocUnit(s.a, Units(r.ptr));
    var n := Units(r.ptr);
    var mid := Next(s, step);
    StepKeepsInv(s, step);
    ReserveIsExact(s, n, n, step.recs, step.cover, step.data);
    assert Within(v, v, n);
    assert v in step.cover;
    var write := PWrite(s.nextRun);
    WriteEnabled(mid, s.nextRun);
    StepKeepsInv(mid, write);
    WriteIsExact(mid, s.nextRun);
    WriteUnfolds(mid, s.nextRun);
    t := Next(mid, write);
    steps := [step, write];
    RunsTwo(s, step, write);
  }

  lemma WriteEnabled(s: State, id: nat)
    ensures Enabled(s, PWrite(id)) <==> id in s.runs
  {
  }

  lemma WriteUnfolds(s: State, id: nat)
    requires Enabled(s, PWrite(id))
    ensures var t := Next(s, PWrite(id)); t == s.(disk := t.disk, dirty := t.dirty, runs := t.runs)
  {
    hide Overwrite, RunUnits;
  }

  lemma RunsTwo(s: State, x: Step, y: Step)
    requires Enabled(s, x) && Enabled(Next(s, x), y)
    ensures Runs(s, [x, y], Next(Next(s, x), y))
  {
    hide Enabled, Next;
    assert [x, y][1..] == [y] && [y][1..] == [];
    assert Runs(Next(s, x), [y], Next(Next(s, x), y));
  }

  lemma {:induction false} RunsThen(s: State, xs: seq<Step>, t: State, ys: seq<Step>, u: State)
    requires Runs(s, xs, t) && Runs(t, ys, u)
    ensures Runs(s, xs + ys, u)
    decreases |xs|
  {
    hide Enabled, Next;
    if xs == [] {
      assert xs + ys == ys;
    } else {
      RunsThen(Next(s, xs[0]), xs[1..], t, ys, u);
      assert (xs + ys)[1..] == xs[1..] + ys;
    }
  }

  lemma RunsOne(s: State, x: Step)
    requires Enabled(s, x)
    ensures Runs(s, [x], Next(s, x))
  {
    hide Enabled, Next;
    assert Runs(Next(s, x), [], Next(s, x));
  }

  /** The slot points at a copy in a new place with the same bytes, and no other slot moved. */
  ghost predicate Relocated(s: State, t: State, p: Path) {
    && p in s.frontier && p in t.frontier && t.frontier[p].ptr.unit !in s.own && t.frontier[p].image == s.frontier[p].image
    && t.frontier == s.frontier[p := t.frontier[p]] && t.handles == s.handles
  }

  lemma FrontierFramed(s: State, p: Path)
    requires Inv(s) && p in s.frontier
    ensures Framed(s.frontier[p])
  {
    hide Ok, OwnOk, RunsOk, PendingOk, ViewsOk, HandlesOk, CopiesOk, ManifestOk, CacheOk;
  }

  /** Evacuation always runs: any record of the frontier can be moved between checkpoints. */
  lemma EvacuationRuns(s: State, p: Path) returns (steps: seq<Step>, t: State)
    requires Inv(s) && s.ckpt.Idle? && p in s.frontier
    ensures Runs(s, steps, t) && Inv(t) && Relocated(s, t, p)
  {
    hide Inv, Enabled, Next, Framed, Runs, Uncounted;
    FrontierFramed(s, p);
    var xs, m, v := CopyRuns(s, s.frontier[p]);
    FrontierReads(m, p);
    var step := Evacuate(p, v);
    EvacuateEnabled(m, p, v);
    StepKeepsInv(m, step);
    EvacuateIsExact(m, p, v);
    RunsOne(m, step);
    t := Next(m, step);
    RunsThen(s, xs, m, [step], t);
    steps := xs + [step];
  }

  /** An edit always runs: any well-formed record can be written and attached at a free slot
      between checkpoints, and any slot can be given up. */
  lemma EditRuns(s: State, p: Path, r: Rec) returns (steps: seq<Step>, t: State)
    requires Inv(s) && s.ckpt.Idle? && Framed(r)
    ensures Runs(s, steps, t) && Inv(t)
    ensures p !in s.frontier ==> p in t.frontier && t.frontier[p].image == r.image && t.frontier == s.frontier[p := t.frontier[p]]
    ensures p in s.frontier ==> t.frontier == s.frontier - {p}
  {
    hide Inv, Enabled, Next, Framed, Runs, Uncounted;
    if p in s.frontier {
      DetachEnabled(s, p);
      StepKeepsInv(s, Detach(p));
      DetachIsExact(s, p);
      RunsOne(s, Detach(p));
      steps, t := [Detach(p)], Next(s, Detach(p));
    } else {
      var xs, m, v := CopyRuns(s, r);
      AttachEnabled(m, p, v);
      StepKeepsInv(m, Attach(p, v));
      AttachIsExact(m, p, v);
      RunsOne(m, Attach(p, v));
      t := Next(m, Attach(p, v));
      RunsThen(s, xs, m, [Attach(p, v)], t);
      steps := xs + [Attach(p, v)];
    }
  }

  lemma DetachEnabled(s: State, p: Path)
    requires s.ckpt.Idle? && p in s.frontier
    ensures Enabled(s, Detach(p))
  {
  }

  lemma AttachEnabled(s: State, p: Path, v: nat)
    requires s.ckpt.Idle? && p !in s.frontier && Ready(s, v)
    ensures Enabled(s, Attach(p, v))
  {
  }

  lemma EvacuateEnabled(s: State, p: Path, v: nat)
    requires s.ckpt.Idle? && p in s.frontier && Ready(s, v) && s.pending[v].rec == Copy(s.frontier[p], v)
    requires ReadSlot(s.disk, s.frontier, p) == s.frontier[p].image
    ensures Enabled(s, Evacuate(p, v))
  {
    hide ReadSlot;
  }

  /** Background collection always runs: pin, copy the frozen record out, write it elsewhere,
      install and unpin move any record of the frontier, when nothing comes in between. */
  lemma CollectionRuns(s: State, p: Path) returns (steps: seq<Step>, t: State)
    requires Inv(s) && s.ckpt.Idle? && p in s.frontier
    ensures Runs(s, steps, t) && Inv(t) && Relocated(s, t, p)
  {
    hide Inv, Enabled, Next, Framed, Runs, Uncounted;
    var h := s.nextHandle;
    CollectEnabled(s, p);
    StepKeepsInv(s, Pin);
    PinIsExact(s);
    var a := Next(s, Pin);
    CollectReadEnabled(a, h, p);
    StepKeepsInv(a, CollectRead(h, p));
    CollectReadIsExact(a, h, p);
    var b := Next(a, CollectRead(h, p));
    RunsTwo(s, Pin, CollectRead(h, p));
    FrontierFramed(b, p);
    var xs, c, v := CopyRuns(b, b.frontier[p]);
    RunsThen(s, [Pin, CollectRead(h, p)], b, xs, c);
    var ys, d := InstallRuns(c, h, p, v);
    RunsThen(s, [Pin, CollectRead(h, p)] + xs, c, ys, d);
    t := d;
    steps := [Pin, CollectRead(h, p)] + xs + ys;
    PinnedOwn(s);
  }

  lemma PinnedOwn(s: State)
    requires Enabled(s, Pin)
    ensures Next(s, Pin).own == s.own
  {
    hide Pinned;
  }

  lemma CollectEnabled(s: State, p: Path)
    requires s.ckpt.Idle?
    ensures Enabled(s, Pin)
  {
  }

  lemma CollectReadEnabled(s: State, h: nat, p: Path)
    requires h in s.handles && s.handles[h].gen in s.views && p in s.views[s.handles[h].gen]
    ensures Enabled(s, CollectRead(h, p))
  {
  }

  /** The copy at `v` of what handle `h` collected at `p` is installed, and `h` dropped. */
  lemma InstallRuns(s: State, h: nat, p: Path, v: nat) returns (steps: seq<Step>, t: State)
    requires Inv(s) && s.ckpt.Idle? && HasView(s, h) && p in s.frontier && p in s.views[s.handles[h].gen] && Ready(s, v)
    requires s.views[s.handles[h].gen][p] == s.frontier[p] && s.pending[v].rec == Copy(s.frontier[p], v)
    requires p in s.handles[h].copies && s.handles[h].copies[p] == s.frontier[p].image
    ensures Runs(s, steps, t) && Inv(t) && t.frontier == s.frontier[p := Copy(s.frontier[p], v)] && t.handles == s.handles - {h}
  {
    hide Inv, Enabled, Next, Runs, Uncounted;
    PlaceEnabled(s, h, p, v);
    var place := CollectPlace(h, p, v);
    StepKeepsInv(s, place);
    var a := Next(s, place);
    InstallEnabled(a, h, p, v);
    StepKeepsInv(a, Install(v));
    InstallIsExact(a, v);
    var b := Next(a, Install(v));
    RunsTwo(s, place, Install(v));
    UnpinEnabled(b, h);
    StepKeepsInv(b, Unpin(h));
    UnpinIsExact(b, h);
    t := Next(b, Unpin(h));
    RunsOne(b, Unpin(h));
    RunsThen(s, [place, Install(v)], b, [Unpin(h)], t);
    steps := [place, Install(v)] + [Unpin(h)];
  }

  lemma PlaceEnabled(s: State, h: nat, p: Path, v: nat)
    requires HasView(s, h) && p in s.frontier && p in s.views[s.handles[h].gen] && Ready(s, v)
    requires s.views[s.handles[h].gen][p] == s.frontier[p] && s.pending[v].rec == Copy(s.frontier[p], v)
    requires p in s.handles[h].copies && s.handles[h].copies[p] == s.frontier[p].image
    ensures Enabled(s, CollectPlace(h, p, v))
    ensures Next(s, CollectPlace(h, p, v)) == s.(pending := s.pending[v := s.pending[v].(use := For(h, p))])
  {
  }

  lemma InstallEnabled(s: State, h: nat, p: Path, v: nat)
    requires s.ckpt.Idle? && HasView(s, h) && p in s.views[s.handles[h].gen]
    requires v in s.pending && s.pending[v].use == For(h, p) && s.pending[v].run !in s.runs
    ensures Enabled(s, Install(v))
  {
  }

  lemma UnpinEnabled(s: State, h: nat)
    requires h in s.handles
    ensures Enabled(s, Unpin(h))
  {
  }

  /** A writer that sees the cache empty drains, a collector that does too, and a crash may
      come at any time and leave any disk that kept what was synced. */
  lemma DrainsAndCrashesRun(s: State, h: nat, d: Disk)
    requires Inv(s)
    ensures s.cache == map[] ==> Enabled(s, DrainCheck) && Enabled(Next(s, DrainCheck), DrainStaged)
    ensures s.cache == map[] && h in s.handles ==> Enabled(s, CollectCheck(h)) && Enabled(Next(s, CollectCheck(h)), CollectDrain(h))
    ensures s.manifest.Manifest? && (forall u :: u !in s.dirty ==> At(d, u) == At(s.disk, u)) ==> Enabled(s, CrashOpen(d))
    ensures h in s.handles ==> Enabled(s, Clone(h)) && Enabled(s, Unpin(h))
    ensures forall p :: p in s.frontier && s.ckpt.Idle? && !s.draining ==> Enabled(s, Prefetch(p))
  {
    hide Inv;
  }

  // ------------------------------------------------------------- nothing is lost

  /** In every reachable state a region is held only for a pin that is live. */
  lemma {:induction false} RunHoldsNeeded(states: seq<State>, steps: seq<Step>, k: nat)
    requires IsRun(states, steps) && k < |states|
    ensures HoldNeeded(states[k].a)
  {
    hide Inv, Enabled, Next, HoldNeeded;
    if k == 0 {
      EmptyHolds();
    } else {
      RunInv(states, steps, k - 1);
      RunHoldsNeeded(states, steps, k - 1);
      StepHoldsNeeded(states[k - 1], steps[k - 1]);
    }
  }

  lemma EmptyHolds()
    ensures HoldNeeded(EMPTY)
  {
  }

  lemma StepHoldsNeeded(s: State, step: Step)
    requires Inv(s) && HoldNeeded(s.a) && Enabled(s, step)
    ensures HoldNeeded(Next(s, step).a)
  {
    hide Inv, Ok, HoldNeeded, Enabled, Next;
    InvOk(s);
    if step.Detach? || step.Evacuate? || step.Install? {
      FreeStepHoldsNeeded(s, step);
    } else if step.Pin? || step.Clone? || step.Unpin? {
      HandleStepHoldsNeeded(s, step);
    } else if step.Reserve? || step.CrashOpen? {
      EdgeStepHoldsNeeded(s, step);
    } else if step.CollectDrain? || step.PersistDone? || step.CacheClear? || step.DrainStaged? {
      ListStepHoldsNeeded(s, step);
    } else {
      OtherStepKeepsAlloc(s, step);
    }
  }

  lemma FreeStepHoldsNeeded(s: State, step: Step)
    requires Ok(s.a) && HoldNeeded(s.a) && Enabled(s, step) && (step.Detach? || step.Evacuate? || step.Install?)
    ensures HoldNeeded(Next(s, step).a)
  {
    hide Ok, HoldNeeded, DoDetach, Swung, Dropped, ReadSlot;
    var v := if step.Detach? then 0 else step.unit;
    FreeHoldsNeeded(s, if step.Install? then s.pending[v].use.path else step.path, v);
  }

  lemma HandleStepHoldsNeeded(s: State, step: Step)
    requires HoldNeeded(s.a) && Enabled(s, step) && (step.Pin? || step.Clone? || step.Unpin?)
    ensures HoldNeeded(Next(s, step).a)
  {
    hide HoldNeeded, DoPin, DoClone, DoUnpin;
    HandleHoldsNeeded(s, if step.Pin? then 0 else step.handle);
  }

  lemma EdgeStepHoldsNeeded(s: State, step: Step)
    requires Ok(s.a) && HoldNeeded(s.a) && Enabled(s, step) && (step.Reserve? || step.CrashOpen?)
    ensures HoldNeeded(Next(s, step).a)
  {
    hide HoldNeeded, DoReserve, Tiles, DoCrash;
    if step.Reserve? {
      ReserveHoldsNeeded(s, step.run, step.units, step.recs, step.cover, step.data);
    } else {
      CrashHoldsNeeded(s.manifest.frontier, s.manifest.endPage, step.disk);
    }
  }

  lemma ListStepHoldsNeeded(s: State, step: Step)
    requires Ok(s.a) && HoldNeeded(s.a) && Enabled(s, step) && (step.CollectDrain? || step.PersistDone? || step.CacheClear? || step.DrainStaged?)
    ensures HoldNeeded(Next(s, step).a)
  {
    hide Ok, HoldNeeded, Persisted, Drained;
    ParkingHoldsNeeded(s.a, 0, 0);
  }

  lemma OtherStepKeepsAlloc(s: State, step: Step)
    requires Enabled(s, step)
    requires step.PWrite? || step.Attach? || step.CollectRead? || step.CollectCheck? || step.CollectPlace? || step.PersistSync? || step.PersistCommit?
      || step.Prefetch? || step.DrainCheck?
    ensures Next(s, step).a == s.a
  {
    hide Overwrite, RunUnits, Rename, ReadSlot, ReadUnits;
  }

  lemma ReserveHoldsNeeded(s: State, run: nat, units: nat, recs: map<nat, Rec>, cover: map<nat, nat>, data: seq<Block>)
    requires HeadIn(s.a) && HoldNeeded(s.a)
    ensures HoldNeeded(DoReserve(s, run, units, recs, cover, data).a)
  {
    hide Allocated, HoldNeeded;
    ReservingHoldsNeeded(s.a, run, units);
  }

  lemma CrashHoldsNeeded(f: Frontier, endPage: nat, d: Disk)
    ensures HoldNeeded(DoCrash(f, endPage, d).a)
  {
  }

  lemma HandleHoldsNeeded(s: State, h: nat)
    requires HoldNeeded(s.a)
    ensures HoldNeeded(DoPin(s).a) && (h in s.handles ==> HoldNeeded(DoClone(s, h).a) && HoldNeeded(DoUnpin(s, h).a))
  {
    hide HoldNeeded, Pinned, PinnedAt, Unpinned;
    PinningHoldsNeeded(s.a, 0);
    if h in s.handles {
      PinningHoldsNeeded(s.a, s.handles[h].gen);
      UnpinningHoldsNeeded(s.a, s.handles[h].gen);
    }
  }

  lemma FreeHoldsNeeded(s: State, p: Path, v: nat)
    requires Ok(s.a) && HoldNeeded(s.a)
    ensures p in s.frontier ==> HoldNeeded(DoDetach(s, p).a)
    ensures p in s.frontier && v in s.pending ==> HoldNeeded(Swung(s, p, v).a)
    ensures v in s.pending ==> HoldNeeded(Dropped(s, v).a)
  {
    hide Ok, HoldNeeded, Freed;
    if p in s.frontier {
      ParkingHoldsNeeded(s.a, s.frontier[p].ptr.unit, Units(s.frontier[p].ptr));
    }
    if v in s.pending {
      ParkingHoldsNeeded(s.a, s.pending[v].rec.ptr.unit, Units(s.pending[v].rec.ptr));
    }
  }

  /** With no snapshot open and no checkpoint under way, one checkpoint and clearing the cache
      always run, and every region that was parked is free afterwards. */
  lemma CheckpointFreesAll(states: seq<State>, steps: seq<Step>, k: nat) returns (more: seq<Step>, t: State)
    requires IsRun(states, steps) && k < |states| && states[k].ckpt.Idle? && states[k].handles == map[]
    ensures Runs(states[k], more, t) && Inv(t) && t.frontier == states[k].frontier
    ensures multiset(t.a.free) == Parked(states[k].a) && t.a.staged == [] && t.a.quarantine == [] && t.a.hold == []
  {
    hide Inv, Enabled, Next, HoldNeeded, Runs, Parked, Persisted, Drained;
    var s := states[k];
    RunInv(states, steps, k);
    RunHoldsNeeded(states, steps, k);
    NoPins(s);
    CheckpointEnabled(s);
    var a := Next(s, PersistSync);
    var commit := PersistCommit(s.a.endPage);
    var b := Next(a, commit);
    var c := Next(b, PersistDone);
    t := Next(c, CacheClear);
    StepKeepsInv(s, PersistSync);
    StepKeepsInv(a, commit);
    StepKeepsInv(b, PersistDone);
    StepKeepsInv(c, CacheClear);
    InvOk(s);
    EveryParkedRegionComesBack(s.a);
    RunsTwo(s, PersistSync, commit);
    RunsTwo(b, PersistDone, CacheClear);
    RunsThen(s, [PersistSync, commit], b, [PersistDone, CacheClear], t);
    more := [PersistSync, commit] + [PersistDone, CacheClear];
  }

  lemma NoPins(s: State)
    requires Inv(s) && s.handles == map[]
    ensures s.a.pins == map[]
  {
    hide OwnOk, RunsOk, PendingOk, FrontierOk, CopiesOk, ManifestOk, CacheOk, ViewsOk, ListsOk, HeadOk;
    forall g ensures g !in s.a.pins {
      assert HandlesAt(s.handles, g) == {};
    }
    assert s.a.pins.Keys == {};
  }

  lemma CheckpointEnabled(s: State)
    requires s.ckpt.Idle?
    ensures Enabled(s, PersistSync) && Enabled(Next(s, PersistSync), PersistCommit(s.a.endPage))
    ensures var b := Next(Next(s, PersistSync), PersistCommit(s.a.endPage));
      Enabled(b, PersistDone) && Enabled(Next(b, PersistDone), CacheClear)
    ensures var t := Next(Next(Next(Next(s, PersistSync), PersistCommit(s.a.endPage)), PersistDone), CacheClear);
      t.a == Drained(Persisted(s.a)) && t.frontier == s.frontier
  {
    hide Persisted, Drained;
  }
}

/** Every step of the storage engine preserves its invariant. */
module ReclaimSteps {
  import opened Regions
  import opened Reclaim

  // ------------------------------------------------------------------- helpers

  /** An owned unit lies in a region with live data, so every actor may rely on it. */
  lemma OwnedIsGuarded(s: State, u: nat, g: nat)
    requires Ok(s.a) && OwnOk(s.a, s.own, s.frontier, s.pending) && u in s.own
    ensures s.a.live[RegionOf(u)] > 0 && Guarded(s.a, u, g)
  {
    var r := RegionOf(u);
    assert Written(s.a, u);
    assert u in OwnedIn(s.own.Keys, r);
    assert s.a.live[r] == |OwnedIn(s.own.Keys, r)|;
    assert OwnedIn(s.own.Keys, r) != {};
    LiveIsGuarded(s.a, u, g);
  }

  lemma FrontierIsGuarded(s: State, p: Path, g: nat)
    requires Ok(s.a) && OwnOk(s.a, s.own, s.frontier, s.pending) && p in s.frontier
    ensures AllGuarded(s.a, s.frontier[p], g)
    ensures forall u: nat :: Covers(s.frontier[p].ptr, u) ==> Written(s.a, u) && s.a.live[RegionOf(u)] > 0
  {
    forall u: nat | Covers(s.frontier[p].ptr, u)
      ensures Guarded(s.a, u, g) && s.a.live[RegionOf(u)] > 0 {
      OwnedIsGuarded(s, u, g);
    }
  }

  lemma ApartIfNoCommon(run: Run, r: Rec)
    requires forall u: nat :: Covers(r.ptr, u) ==> u !in RunUnits(run)
    ensures run.data != [] ==> Apart(run, r)
  {
    var u := if run.base < r.ptr.unit then r.ptr.unit else run.base;
    assert run.data != [] && !Apart(run, r) ==> Covers(r.ptr, u) && u in RunUnits(run);
  }

  lemma RunIsCached(s: State, id: nat, u: nat)
    requires Ok(s.a) && OwnOk(s.a, s.own, s.frontier, s.pending) && RunsOk(s)
    requires id in s.runs && u in RunUnits(s.runs[id])
    ensures Guarded(s.a, u, 0)
  {
    OwnedIsGuarded(s, s.runs[id].base, 0);
    LiveIsGuarded(s.a, u, 0);
  }

  lemma SameRegion(r: Rec, u: nat)
    requires Framed(r) && Covers(r.ptr, u)
    ensures RegionOf(u) == RegionOf(r.ptr.unit)
  {
  }

  lemma IntactDeterminesImage(d: Disk, x: Rec, y: Rec)
    requires Intact(d, x) && Intact(d, y) && x.ptr.unit == y.ptr.unit
    ensures x == y
  {
    assert Covers(x.ptr, x.ptr.unit) && Covers(y.ptr, x.ptr.unit);
    assert x.image[0] == y.image[0];
    forall i | 0 <= i < |x.image| ensures x.image[i] == y.image[i] {
      assert Covers(x.ptr, x.ptr.unit + i) && Covers(y.ptr, x.ptr.unit + i);
    }
  }

  lemma IntactIsRead(d: Disk, r: Rec)
    requires Intact(d, r)
    ensures ReadUnits(d, r.ptr) == r.image
  {
    forall i | 0 <= i < |r.image| ensures ReadUnits(d, r.ptr)[i] == r.image[i] {
      assert Covers(r.ptr, r.ptr.unit + i);
    }
  }

  // ------------------------------------------------------------------- reserve

  ghost predicate CanReserve(s: State, run: nat, units: nat, recs: map<nat, Rec>, cover: map<nat, nat>, data: seq<Block>) {
    0 < units <= run <= REGION_UNITS && |data| == run && Ok(s.a) && Tiles(AllocUnit(s.a, run), units, recs, cover, data)
  }

  lemma ReserveIsNew(s: State, run: nat, units: nat, recs: map<nat, Rec>, cover: map<nat, nat>, data: seq<Block>)
    requires OwnOk(s.a, s.own, s.frontier, s.pending) && CanReserve(s, run, units, recs, cover, data)
    ensures s.own.Keys !! cover.Keys && s.pending.Keys !! recs.Keys
    ensures forall u :: u in s.own ==> u !in RunUnits(Run(AllocUnit(s.a, run), data))
    ensures forall u :: u in s.own ==> Written(Allocated(s.a, run, units), u)
  {
    hide ListsOk, PinsOk, HeadOk, Allocated, AllocUnit;
    AllocatedIsUnused(s.a, run, units);
    forall u | u in s.own ensures Cached(s.a, u) {
      OwnedIsGuarded(s, u, 0);
    }
    forall v | v in s.pending ensures v !in recs {
      assert Covers(s.pending[v].rec.ptr, v);
      assert v in recs ==> Covers(recs[v].ptr, v);
    }
  }

  lemma ReserveLive(s: State, run: nat, units: nat, r: nat)
    requires Ok(s.a) && 0 < units <= run <= REGION_UNITS && r < |Allocated(s.a, run, units).live|
    ensures Allocated(s.a, run, units).live[r] ==
      (if r < |s.a.live| then s.a.live[r] else 0) + if r == RegionOf(AllocUnit(s.a, run)) then units else 0
  {
    hide ListsOk, PinsOk, Cached;
    AllocatedIsUnused(s.a, run, units);
  }

  lemma ReserveCounts(s: State, run: nat, units: nat, cover: map<nat, nat>, r: nat)
    requires OwnOk(s.a, s.own, s.frontier, s.pending) && Ok(s.a) && 0 < units <= run <= REGION_UNITS
    requires forall u :: u in cover <==> AllocUnit(s.a, run) <= u < AllocUnit(s.a, run) + units
    requires s.own.Keys !! cover.Keys && r < |Allocated(s.a, run, units).live|
    ensures Allocated(s.a, run, units).live[r] == |OwnedIn(AddOwners(s.own, cover).Keys, r)|
  {
    hide ListsOk, PinsOk, HeadOk, Allocated, AllocUnit;
    var base := AllocUnit(s.a, run);
    AllocatedIsUnused(s.a, run, units);
    assert AddOwners(s.own, cover).Keys == s.own.Keys + Range(base, units);
    OwnedAdd(s.own.Keys, base, units, r);
    if r >= |s.a.live| {
      assert OwnedIn(s.own.Keys, r) == {};
    }
    ReserveLive(s, run, units, r);
  }

  lemma ReserveKeepsCounts(s: State, run: nat, units: nat, recs: map<nat, Rec>, cover: map<nat, nat>, data: seq<Block>)
    requires OwnOk(s.a, s.own, s.frontier, s.pending) && CanReserve(s, run, units, recs, cover, data)
    ensures Counted(Allocated(s.a, run, units), AddOwners(s.own, cover))
  {
    hide ListsOk, PinsOk, HeadOk, Allocated, AllocUnit, AddOwners, AddPending, OwnedIn, OwnersOk, Cached;
    ReserveIsNew(s, run, units, recs, cover, data);
    AllocatedIsUnused(s.a, run, units);
    var live := Allocated(s.a, run, units).live;
    forall r | 0 <= r < |live| ensures live[r] == |OwnedIn(AddOwners(s.own, cover).Keys, r)| {
      ReserveCounts(s, run, units, cover, r);
    }
  }

  lemma ReserveKeepsOwn(s: State, run: nat, units: nat, recs: map<nat, Rec>, cover: map<nat, nat>, data: seq<Block>)
    requires OwnersOk(s.own, s.frontier, s.pending) && Tiles(AllocUnit(s.a, run), units, recs, cover, data)
    requires s.own.Keys !! cover.Keys && s.pending.Keys !! recs.Keys
    ensures OwnersOk(AddOwners(s.own, cover), s.frontier, AddPending(s.pending, recs, s.nextRun))
  {
    hide AllocUnit, Framed, AddOwners, AddPending, InRun, OwnsAll;
    var own, pending := AddOwners(s.own, cover), AddPending(s.pending, recs, s.nextRun);
    forall p | p in s.frontier ensures OwnsAll(own, s.frontier[p], Slot(p)) {
      OwnsAllGrows(s.own, cover, s.frontier[p], Slot(p));
    }
    forall v | v in pending ensures pending[v].rec.ptr.unit == v && OwnsAll(own, pending[v].rec, Reserved(v)) {
      if v in recs {
        OwnsAllNew(s.own, cover, recs[v], v);
      } else {
        OwnsAllGrows(s.own, cover, s.pending[v].rec, Reserved(v));
      }
    }
    forall u | u in own ensures Owns(s.frontier, pending, own[u], u) {
      if u !in cover {
        assert Owns(s.frontier, s.pending, s.own[u], u);
      }
    }
  }

  lemma OwnsAllGrows(own: map<nat, Owner>, cover: map<nat, nat>, r: Rec, o: Owner)
    requires OwnsAll(own, r, o) && own.Keys !! cover.Keys
    ensures OwnsAll(AddOwners(own, cover), r, o)
  {
  }

  lemma OwnsAllNew(own: map<nat, Owner>, cover: map<nat, nat>, r: Rec, v: nat)
    requires forall u: nat :: Covers(r.ptr, u) ==> u in cover && cover[u] == v
    ensures OwnsAll(AddOwners(own, cover), r, Reserved(v))
  {
  }

  lemma ReserveIsApart(a: Alloc, run: nat, units: nat, data: seq<Block>, r: Rec)
    requires Ok(a) && 0 < units <= run == |data| <= REGION_UNITS && AllCached(a, r)
    ensures Apart(Run(AllocUnit(a, run), data), r)
  {
    hide ListsOk, PinsOk, HeadOk, Allocated, AllocUnit, Cached;
    AllocatedIsUnused(a, run, units);
    ApartIfNoCommon(Run(AllocUnit(a, run), data), r);
  }

  lemma ReserveKeepsApart(s: State, run: nat, units: nat, data: seq<Block>)
    requires Inv(s) && 0 < units <= run == |data| <= REGION_UNITS
    ensures var new_run := Run(AllocUnit(s.a, run), data);
      && (forall g, p :: g in s.views && p in s.views[g] ==> Apart(new_run, s.views[g][p]))
      && (forall u :: u in s.cache ==> Apart(new_run, s.cache[u]))
      && (s.manifest.Manifest? ==> forall p :: p in s.manifest.frontier ==> Apart(new_run, s.manifest.frontier[p]))
  {
    hide ListsOk, PinsOk, HeadOk, OwnOk, RunsOk, PendingOk, HandlesOk, CopiesOk, Apart, Intact, AllocUnit, IsFresh;
    var new_run := Run(AllocUnit(s.a, run), data);
    forall g, p | g in s.views && p in s.views[g] ensures Apart(new_run, s.views[g][p]) {
      ReserveIsApart(s.a, run, units, data, s.views[g][p]);
    }
    forall u | u in s.cache ensures Apart(new_run, s.cache[u]) {
      ReserveIsApart(s.a, run, units, data, s.cache[u]);
    }
    if s.manifest.Manifest? {
      forall p | p in s.manifest.frontier ensures Apart(new_run, s.manifest.frontier[p]) {
        if s.ckpt.Committed? {
          FrontierIsGuarded(s, p, 0);
        }
        ReserveIsApart(s.a, run, units, data, s.manifest.frontier[p]);
      }
    }
  }

  lemma ReserveKeepsPlaced(s: State, run: nat, units: nat, cover: map<nat, nat>, id: nat)
    requires Ok(s.a) && OwnOk(s.a, s.own, s.frontier, s.pending) && RunsOk(s) && id in s.runs
    requires 0 < units <= run <= REGION_UNITS
    ensures RunPlaced(Allocated(s.a, run, units), AddOwners(s.own, cover), s.runs[id])
  {
    hide ListsOk, PinsOk, HeadOk, OwnOk, Allocated, AllocUnit, AddOwners;
    AllocatedIsUnused(s.a, run, units);
    forall u | u in RunUnits(s.runs[id]) ensures Cached(s.a, u) {
      RunIsCached(s, id, u);
    }
  }

  lemma ReserveIsPlaced(s: State, run: nat, units: nat, recs: map<nat, Rec>, cover: map<nat, nat>, data: seq<Block>)
    requires CanReserve(s, run, units, recs, cover, data)
    ensures RunPlaced(Allocated(s.a, run, units), AddOwners(s.own, cover), Run(AllocUnit(s.a, run), data))
  {
    hide ListsOk, PinsOk, HeadOk, Allocated, AllocUnit, AddOwners;
    AllocatedIsUnused(s.a, run, units);
  }

  lemma ReserveKeepsOwners(s: State, run: nat, units: nat, recs: map<nat, Rec>, cover: map<nat, nat>, data: seq<Block>)
    requires OwnOk(s.a, s.own, s.frontier, s.pending) && RunsOk(s) && CanReserve(s, run, units, recs, cover, data)
    ensures var t := DoReserve(s, run, units, recs, cover, data); RunOwners(t.runs, t.own, t.pending)
  {
    hide ListsOk, PinsOk, HeadOk, Allocated, AllocUnit, AddOwners, AddPending, Apart, Framed;
    var t := DoReserve(s, run, units, recs, cover, data);
    ReserveIsNew(s, run, units, recs, cover, data);
    AllocatedIsUnused(s.a, run, units);
    forall id, u | id in t.runs && u in RunUnits(t.runs[id]) && u in t.own ensures OwnedByRun(t.pending, t.own[u], id) {
      if id != s.nextRun {
        RunIsCached(s, id, u);
        assert u !in cover;
        assert OwnedByRun(s.pending, s.own[u], id);
      }
    }
  }

  lemma ReserveKeepsRuns(s: State, run: nat, units: nat, recs: map<nat, Rec>, cover: map<nat, nat>, data: seq<Block>)
    requires Inv(s) && CanReserve(s, run, units, recs, cover, data)
    ensures RunsOk(DoReserve(s, run, units, recs, cover, data))
  {
    hide ListsOk, PinsOk, HeadOk, OwnOk, PendingOk, FrontierOk, ViewsOk, HandlesOk, CopiesOk, ManifestOk, CacheOk, Allocated, AllocUnit, Apart,
      RunPlaced, RunOwners, AddOwners, AddPending, Tiles;
    var t := DoReserve(s, run, units, recs, cover, data);
    ReserveKeepsApart(s, run, units, data);
    ReserveKeepsOwners(s, run, units, recs, cover, data);
    ReserveIsPlaced(s, run, units, recs, cover, data);
    forall id | id in s.runs ensures RunPlaced(t.a, t.own, s.runs[id]) {
      ReserveKeepsPlaced(s, run, units, cover, id);
    }
  }

  lemma ReserveKeepsPending(s: State, run: nat, units: nat, recs: map<nat, Rec>, cover: map<nat, nat>, data: seq<Block>)
    requires PendingOk(s) && CanReserve(s, run, units, recs, cover, data)
    requires s.nextRun !in s.runs
    ensures PendingOk(DoReserve(s, run, units, recs, cover, data))
  {
    hide ListsOk, PinsOk, HeadOk, Allocated, AllocUnit, AddOwners, AddPending, Framed, Intact, InRun;
    var t := DoReserve(s, run, units, recs, cover, data);
    forall v | v in t.pending ensures PendOk(t.pending[v], t.runs, t.nextRun, t.disk) {
      if v !in recs {
        assert PendOk(s.pending[v], s.runs, s.nextRun, s.disk);
      }
    }
  }

  lemma ReserveKeepsViews(s: State, run: nat, units: nat, recs: map<nat, Rec>, cover: map<nat, nat>, data: seq<Block>)
    requires Ok(s.a) && ViewsOk(s) && CacheOk(s) && 0 < units <= run <= REGION_UNITS
    ensures ViewsOk(DoReserve(s, run, units, recs, cover, data)) && CacheOk(DoReserve(s, run, units, recs, cover, data))
  {
    hide ListsOk, PinsOk, HeadOk, AllocUnit, Intact, AddOwners, AddPending;
    AllocatedIsUnused(s.a, run, units);
  }

  lemma ReserveKeepsManifest(s: State, run: nat, units: nat, recs: map<nat, Rec>, cover: map<nat, nat>, data: seq<Block>)
    requires Ok(s.a) && ManifestOk(s) && CopiesOk(s) && 0 < units <= run <= REGION_UNITS
    ensures ManifestOk(DoReserve(s, run, units, recs, cover, data)) && CopiesOk(DoReserve(s, run, units, recs, cover, data))
  {
    hide ListsOk, PinsOk, HeadOk, AllocUnit, Intact, IsFresh, Clean, Disjoint, AddOwners, AddPending;
    AllocatedIsUnused(s.a, run, units);
  }

  lemma ReserveKeepsInv(s: State, run: nat, units: nat, recs: map<nat, Rec>, cover: map<nat, nat>, data: seq<Block>)
    requires Inv(s) && CanReserve(s, run, units, recs, cover, data)
    ensures Inv(DoReserve(s, run, units, recs, cover, data))
  {
    hide ListsOk, PinsOk, HeadOk, Counted, OwnersOk, PendingOk, ViewsOk, CopiesOk, ManifestOk, CacheOk, AllocUnit, Tiles,
      AddOwners, AddPending, RunOwners, RunPlaced, Apart, Intact;
    AllocatedKeepsOk(s.a, run, units);
    ReserveIsNew(s, run, units, recs, cover, data);
    ReserveKeepsCounts(s, run, units, recs, cover, data);
    ReserveKeepsOwn(s, run, units, recs, cover, data);
    ReserveKeepsRuns(s, run, units, recs, cover, data);
    ReserveKeepsPending(s, run, units, recs, cover, data);
    ReserveKeepsViews(s, run, units, recs, cover, data);
    ReserveKeepsManifest(s, run, units, recs, cover, data);
  }

  // -------------------------------------------------------------------- pwrite

  lemma IntactElsewhere(d: Disk, run: Run, r: Rec)
    requires Intact(d, r) && forall u: nat :: Covers(r.ptr, u) ==> u !in RunUnits(run)
    ensures Intact(Overwrite(d, run), r)
  {
    hide Overwrite, Framed;
  }

  lemma IntactApart(d: Disk, run: Run, r: Rec)
    requires Intact(d, r) && Apart(run, r)
    ensures Intact(Overwrite(d, run), r)
  {
    hide Overwrite, Framed, Intact;
    IntactElsewhere(d, run, r);
  }

  lemma IntactInRun(d: Disk, run: Run, r: Rec)
    requires Framed(r) && InRun(run, r)
    ensures Intact(Overwrite(d, run), r)
  {
    hide Overwrite;
  }

  /** Nothing of the frontier lies in a run waiting to be written. */
  lemma RunMissesFrontier(s: State, id: nat, p: Path)
    requires OwnersOk(s.own, s.frontier, s.pending) && RunOwners(s.runs, s.own, s.pending)
    requires id in s.runs && p in s.frontier && s.runs[id].data != []
    ensures Apart(s.runs[id], s.frontier[p])
    ensures forall u: nat :: Covers(s.frontier[p].ptr, u) ==> u !in RunUnits(s.runs[id])
  {
    hide Owns, Apart;
    assert OwnsAll(s.own, s.frontier[p], Slot(p));
    ApartIfNoCommon(s.runs[id], s.frontier[p]);
  }

  lemma WriteKeepsPending(s: State, id: nat)
    requires OwnersOk(s.own, s.frontier, s.pending) && RunOwners(s.runs, s.own, s.pending) && PendingOk(s) && id in s.runs
    ensures PendingOk(DoWrite(s, id))
  {
    hide Intact, InRun, Framed, Overwrite, Owns;
    var t := DoWrite(s, id);
    forall v | v in t.pending ensures PendOk(t.pending[v], t.runs, t.nextRun, t.disk) {
      assert PendOk(s.pending[v], s.runs, s.nextRun, s.disk);
      if s.pending[v].run == id {
        IntactInRun(s.disk, s.runs[id], s.pending[v].rec);
      } else if s.pending[v].run !in s.runs {
        assert OwnsAll(s.own, s.pending[v].rec, Reserved(v));
        forall u: nat | Covers(s.pending[v].rec.ptr, u) ensures u !in RunUnits(s.runs[id]) {
          assert u in RunUnits(s.runs[id]) ==> OwnedByRun(s.pending, s.own[u], id);
        }
        IntactElsewhere(s.disk, s.runs[id], s.pending[v].rec);
      }
    }
  }

  lemma WriteKeepsFrontier(s: State, id: nat)
    requires OwnersOk(s.own, s.frontier, s.pending) && RunsOk(s) && FrontierOk(s) && id in s.runs
    ensures FrontierOk(DoWrite(s, id))
    ensures forall p, u: nat :: p in s.frontier && Covers(s.frontier[p].ptr, u) ==> u !in RunUnits(s.runs[id])
  {
    hide Intact, Overwrite, Apart, OwnersOk, RunOwners;
    forall p | p in s.frontier
      ensures Intact(Overwrite(s.disk, s.runs[id]), s.frontier[p])
      ensures forall u: nat :: Covers(s.frontier[p].ptr, u) ==> u !in RunUnits(s.runs[id]) {
      RunMissesFrontier(s, id, p);
      IntactElsewhere(s.disk, s.runs[id], s.frontier[p]);
    }
  }

  lemma WriteKeepsClients(s: State, id: nat)
    requires RunsOk(s) && ViewsOk(s) && CacheOk(s) && id in s.runs
    ensures ViewsOk(DoWrite(s, id)) && CacheOk(DoWrite(s, id))
  {
    hide Intact, Overwrite, Apart, RunOwners, AllGuarded, AllCached, RunPlaced, Unaliased;
    forall g, p | g in s.views && p in s.views[g] ensures Intact(DoWrite(s, id).disk, s.views[g][p]) {
      IntactApart(s.disk, s.runs[id], s.views[g][p]);
    }
    forall u | u in s.cache ensures Intact(DoWrite(s, id).disk, s.cache[u]) {
      IntactApart(s.disk, s.runs[id], s.cache[u]);
    }
  }

  lemma WriteKeepsManifest(s: State, id: nat)
    requires RunsOk(s) && ManifestOk(s) && id in s.runs && s.manifest.Manifest?
    ensures forall p :: p in s.manifest.frontier ==>
      && Intact(Overwrite(s.disk, s.runs[id]), s.manifest.frontier[p])
      && Clean(s.dirty + RunUnits(s.runs[id]), s.manifest.frontier[p])
  {
    hide Intact, Overwrite, RunOwners, RunPlaced, AllDurable, Disjoint, Clean, Apart, RunUnits;
    forall p | p in s.manifest.frontier
      ensures Intact(Overwrite(s.disk, s.runs[id]), s.manifest.frontier[p])
      ensures Clean(s.dirty + RunUnits(s.runs[id]), s.manifest.frontier[p]) {
      IntactApart(s.disk, s.runs[id], s.manifest.frontier[p]);
      CleanApart(s.dirty, s.runs[id], s.manifest.frontier[p]);
    }
  }

  lemma WriteKeepsCheckpoint(s: State, id: nat)
    requires RunsOk(s) && ManifestOk(s) && id in s.runs
    requires forall p, u: nat :: p in s.frontier && Covers(s.frontier[p].ptr, u) ==> u !in RunUnits(s.runs[id])
    ensures ManifestOk(DoWrite(s, id))
  {
    if s.manifest.Manifest? {
      WriteKeepsManifest(s, id);
    }
    SyncedStaysClean(s, id);
    hide Intact, Overwrite, RunsOk, AllDurable, Disjoint, Clean, RunUnits, Covers, RegionOf, DivCeil;
  }

  lemma SyncedStaysClean(s: State, id: nat)
    requires ManifestOk(s) && id in s.runs
    requires forall p, u: nat :: p in s.frontier && Covers(s.frontier[p].ptr, u) ==> u !in RunUnits(s.runs[id])
    ensures s.ckpt.Synced? ==> forall p :: p in s.frontier ==> Clean(s.dirty + RunUnits(s.runs[id]), s.frontier[p])
  {
    hide Intact, AllDurable, Disjoint, Clean, RunUnits, RegionOf, DivCeil;
    if s.ckpt.Synced? {
      forall p | p in s.frontier ensures Clean(s.dirty + RunUnits(s.runs[id]), s.frontier[p]) {
        CleanElsewhere(s.dirty, s.runs[id], s.frontier[p]);
      }
    }
  }

  lemma CleanElsewhere(dirty: set<nat>, run: Run, r: Rec)
    requires Clean(dirty, r) && forall u: nat :: Covers(r.ptr, u) ==> u !in RunUnits(run)
    ensures Clean(dirty + RunUnits(run), r)
  {
  }

  lemma CleanApart(dirty: set<nat>, run: Run, r: Rec)
    requires Clean(dirty, r) && Apart(run, r)
    ensures Clean(dirty + RunUnits(run), r)
  {
  }

  lemma WriteKeepsInv(s: State, id: nat)
    requires Inv(s) && id in s.runs
    ensures Inv(DoWrite(s, id))
  {
    hide Ok, Counted, OwnersOk, PendingOk, FrontierOk, ViewsOk, CacheOk, ManifestOk, Overwrite, RunUnits, Apart, RunPlaced;
    WriteKeepsPending(s, id);
    WriteKeepsFrontier(s, id);
    WriteKeepsClients(s, id);
    WriteKeepsCheckpoint(s, id);
  }

  // ------------------------------------------------------------ attach, detach

  lemma AttachKeepsOwners(s: State, path: Path, v: nat)
    requires OwnersOk(s.own, s.frontier, s.pending) && path !in s.frontier && v in s.pending
    ensures var t := DoAttach(s, path, v); OwnersOk(t.own, t.frontier, t.pending)
  {
    hide Rename, OwnsAll;
    var t := DoAttach(s, path, v);
    forall u | u in t.own ensures Owns(t.frontier, t.pending, t.own[u], u) {
      assert Owns(s.frontier, s.pending, s.own[u], u);
    }
    forall p | p in t.frontier ensures OwnsAll(t.own, t.frontier[p], Slot(p)) {
      if p == path {
        OwnsAllRenamed(s.own, s.pending[v].rec, Reserved(v), Reserved(v), Slot(path));
      } else {
        OwnsAllRenamed(s.own, s.frontier[p], Slot(p), Reserved(v), Slot(path));
      }
    }
    forall w | w in t.pending ensures t.pending[w].rec.ptr.unit == w && OwnsAll(t.own, t.pending[w].rec, Reserved(w)) {
      OwnsAllRenamed(s.own, s.pending[w].rec, Reserved(w), Reserved(v), Slot(path));
    }
  }

  lemma OwnsAllRenamed(own: map<nat, Owner>, r: Rec, o: Owner, from: Owner, to: Owner)
    requires OwnsAll(own, r, o)
    ensures OwnsAll(Rename(own, from, to), r, if o == from then to else o)
  {
  }

  lemma AttachKeepsRuns(s: State, path: Path, v: nat)
    requires RunsOk(s) && v in s.pending && s.pending[v].run !in s.runs
    ensures RunsOk(DoAttach(s, path, v))
  {
    hide Rename, Apart, Written;
    var t := DoAttach(s, path, v);
    forall id, u | id in t.runs && u in RunUnits(t.runs[id]) && u in t.own ensures OwnedByRun(t.pending, t.own[u], id) {
      assert OwnedByRun(s.pending, s.own[u], id);
    }
    forall id | id in t.runs ensures RunPlaced(t.a, t.own, t.runs[id]) {
      assert RunPlaced(s.a, s.own, s.runs[id]);
    }
  }

  lemma AttachKeepsInv(s: State, path: Path, v: nat)
    requires Inv(s) && s.ckpt.Idle? && path !in s.frontier && v in s.pending && s.pending[v].run !in s.runs
    ensures Inv(DoAttach(s, path, v))
  {
    hide Ok, OwnersOk, RunsOk, ViewsOk, CacheOk, Rename, Intact, OwnedIn, Written, AllDurable;
    AttachKeepsOwners(s, path, v);
    AttachKeepsRuns(s, path, v);
    assert PendOk(s.pending[v], s.runs, s.nextRun, s.disk);
    AttachKeepsClients(s, path, v);
  }

  lemma AttachKeepsClients(s: State, path: Path, v: nat)
    requires ViewsOk(s) && CacheOk(s) && v in s.pending
    ensures ViewsOk(DoAttach(s, path, v)) && CacheOk(DoAttach(s, path, v))
  {
    hide Rename, Intact, AllGuarded, AllCached, Unaliased;
  }

  lemma FreedShape(a: Alloc, unit: nat, units: nat)
    ensures var b := Freed(a, unit, units);
      && b.head == a.head && b.next == a.next && b.endPage == a.endPage && b.pinGen == a.pinGen && b.pins == a.pins
      && |b.live| == |a.live|
      && (RegionOf(unit) < |a.live| && a.live[RegionOf(unit)] >= units ==>
            b.live == a.live[RegionOf(unit) := a.live[RegionOf(unit)] - units])
  {
  }

  /** Freeing an owned record never saturates a live count. */
  lemma FreeCounts(a: Alloc, own: map<nat, Owner>, r: Rec, o: Owner)
    requires Counted(a, own) && OwnsAll(own, r, o) && Framed(r)
    requires forall u :: u in own && own[u] == o ==> Covers(r.ptr, u)
    ensures RegionOf(r.ptr.unit) < |a.live| && Units(r.ptr) <= a.live[RegionOf(r.ptr.unit)]
    ensures Counted(Freed(a, r.ptr.unit, Units(r.ptr)), Disown(own, o))
  {
    hide Freed, Disown;
    var b, own', n := Freed(a, r.ptr.unit, Units(r.ptr)), Disown(own, o), Units(r.ptr);
    assert Covers(r.ptr, r.ptr.unit);
    assert own.Keys == own'.Keys + Range(r.ptr.unit, n);
    assert own'.Keys !! Range(r.ptr.unit, n);
    FreedShape(a, r.ptr.unit, n);
    forall q | 0 <= q < |a.live| ensures a.live[q] == |OwnedIn(own'.Keys, q)| + if q == RegionOf(r.ptr.unit) then n else 0 {
      OwnedAdd(own'.Keys, r.ptr.unit, n, q);
    }
  }

  lemma FreedKeepsClients(s: State, unit: nat, units: nat)
    requires Ok(s.a) && ViewsOk(s) && HandlesOk(s)
    ensures var t := s.(a := Freed(s.a, unit, units)); ViewsOk(t) && HandlesOk(t)
  {
    hide ListsOk, HeadOk, PinsOk, Freed, Intact;
    FreedKeepsProtection(s.a, unit, units);
    FreedShape(s.a, unit, units);
  }

  lemma FreedKeepsCache(s: State, unit: nat, units: nat)
    requires Ok(s.a) && CacheOk(s) && HandlesOk(s)
    ensures CacheOk(s.(a := Freed(s.a, unit, units)))
  {
    hide ListsOk, HeadOk, Freed, Intact, Cached, HandlesAt;
    FreedKeepsProtection(s.a, unit, units);
  }

  lemma FreedKeepsManifest(s: State, unit: nat, units: nat)
    requires Ok(s.a) && ManifestOk(s) && s.ckpt.Idle?
    ensures ManifestOk(s.(a := Freed(s.a, unit, units)))
  {
    hide ListsOk, HeadOk, PinsOk, Freed, Intact, Cached, Durable, Clean, Disjoint;
    FreedKeepsProtection(s.a, unit, units);
  }

  lemma DisownKeepsRuns(s: State, o: Owner, unit: nat, units: nat)
    requires RunsOk(s) && (o.Reserved? && o.unit in s.pending ==> s.pending[o.unit].run !in s.runs)
    ensures RunsOk(s.(own := Disown(s.own, o), a := Freed(s.a, unit, units)))
  {
    hide Disown, Apart, Freed;
    FreedShape(s.a, unit, units);
    var t := s.(own := Disown(s.own, o), a := Freed(s.a, unit, units));
    forall id | id in t.runs ensures RunPlaced(t.a, t.own, t.runs[id]) {
      assert RunPlaced(s.a, s.own, s.runs[id]);
      assert s.runs[id].base in RunUnits(s.runs[id]);
      assert OwnedByRun(s.pending, s.own[s.runs[id].base], id);
    }
  }

  lemma DetachKeepsOwners(s: State, path: Path)
    requires OwnersOk(s.own, s.frontier, s.pending) && path in s.frontier
    ensures OwnersOk(Disown(s.own, Slot(path)), s.frontier - {path}, s.pending)
    ensures forall u :: u in s.own && s.own[u] == Slot(path) ==> Covers(s.frontier[path].ptr, u)
  {
    hide Disown;
    var own, frontier := Disown(s.own, Slot(path)), s.frontier - {path};
    forall u | u in s.own ensures s.own[u] == Slot(path) ==> Covers(s.frontier[path].ptr, u) {
      assert Owns(s.frontier, s.pending, s.own[u], u);
    }
    forall u | u in own ensures Owns(frontier, s.pending, own[u], u) {
      assert Owns(s.frontier, s.pending, s.own[u], u);
    }
    forall p | p in frontier ensures OwnsAll(own, frontier[p], Slot(p)) {
      assert OwnsAll(s.own, s.frontier[p], Slot(p));
    }
    forall v | v in s.pending ensures OwnsAll(own, s.pending[v].rec, Reserved(v)) {
      assert OwnsAll(s.own, s.pending[v].rec, Reserved(v));
    }
  }

  lemma DetachKeepsInv(s: State, path: Path)
    requires Inv(s) && s.ckpt.Idle? && path in s.frontier
    ensures Inv(DoDetach(s, path))
  {
    hide Ok, Counted, OwnersOk, RunsOk, ViewsOk, HandlesOk, CopiesOk, ManifestOk, CacheOk, PendingOk, Freed, Disown, OwnsAll;
    var was := s.frontier[path].ptr;
    FreedKeepsOk(s.a, was.unit, Units(was));
    DetachKeepsOwners(s, path);
    assert OwnsAll(s.own, s.frontier[path], Slot(path)) by { DetachOwned(s, path); }
    FreeCounts(s.a, s.own, s.frontier[path], Slot(path));
    DisownKeepsRuns(s, Slot(path), was.unit, Units(was));
    FreedKeepsClients(s, was.unit, Units(was));
    FreedKeepsCache(s, was.unit, Units(was));
    FreedKeepsManifest(s, was.unit, Units(was));
    RestKept(s, DoDetach(s, path));
  }

  lemma DetachOwned(s: State, path: Path)
    requires OwnersOk(s.own, s.frontier, s.pending) && path in s.frontier
    ensures OwnsAll(s.own, s.frontier[path], Slot(path))
  {
  }

  /** Groups that do not look at the owners, and look at the frontier only during a
      checkpoint. */
  lemma RestKept(s: State, t: State)
    requires t.ckpt.Idle?
    requires forall v :: v in t.pending ==> v in s.pending && t.pending[v] == s.pending[v]
    requires t == s.(a := t.a, own := t.own, frontier := t.frontier, pending := t.pending)
    ensures PendingOk(s) ==> PendingOk(t)
    ensures CopiesOk(s) ==> CopiesOk(t)
    ensures RunsOk(s.(a := t.a, own := t.own)) && t.pending == s.pending ==> RunsOk(t)
    ensures ViewsOk(s.(a := t.a)) ==> ViewsOk(t)
    ensures HandlesOk(s.(a := t.a)) ==> HandlesOk(t)
    ensures CacheOk(s.(a := t.a)) ==> CacheOk(t)
    ensures ManifestOk(s.(a := t.a)) ==> ManifestOk(t)
  {
    hide PendingOk, CopiesOk, RunsOk, ViewsOk, HandlesOk, CacheOk, ManifestOk;
    ReadersKept(s, t);
    PendingKept(s, t);
    RunsKept(s, t);
  }

  lemma PendingKept(s: State, t: State)
    requires forall v :: v in t.pending ==> v in s.pending && t.pending[v] == s.pending[v]
    requires t == s.(a := t.a, own := t.own, frontier := t.frontier, pending := t.pending)
    ensures PendingOk(s) ==> PendingOk(t)
    ensures CopiesOk(s) ==> CopiesOk(t)
  {
    hide PendOk;
  }

  lemma RunsKept(s: State, t: State)
    requires t.ckpt.Idle? && t == s.(a := t.a, own := t.own, frontier := t.frontier, pending := t.pending)
    ensures RunsOk(s.(a := t.a, own := t.own)) && t.pending == s.pending ==> RunsOk(t)
  {
    hide RunPlaced, RunOwners, Apart;
  }

  lemma ReadersKept(s: State, t: State)
    requires t.ckpt.Idle? && t == s.(a := t.a, own := t.own, frontier := t.frontier, pending := t.pending)
    ensures ViewsOk(s.(a := t.a)) ==> ViewsOk(t)
    ensures HandlesOk(s.(a := t.a)) ==> HandlesOk(t)
    ensures CacheOk(s.(a := t.a)) ==> CacheOk(t)
    ensures ManifestOk(s.(a := t.a)) ==> ManifestOk(t)
  {
    hide Intact, AllGuarded, AllCached, AllDurable, Unaliased, Clean, Disjoint;
  }

  lemma SwungKeepsInv(s: State, path: Path, v: nat)
    requires Inv(s) && s.ckpt.Idle? && path in s.frontier && v in s.pending && s.pending[v].run !in s.runs
    ensures Inv(Swung(s, path, v))
  {
    hide Inv, Freed, Disown, Rename;
    DetachKeepsInv(s, path);
    AttachKeepsInv(DoDetach(s, path), path, v);
  }

  lemma DropKeepsOwners(s: State, v: nat)
    requires OwnersOk(s.own, s.frontier, s.pending) && v in s.pending
    ensures OwnersOk(Disown(s.own, Reserved(v)), s.frontier, s.pending - {v})
    ensures forall u :: u in s.own && s.own[u] == Reserved(v) ==> Covers(s.pending[v].rec.ptr, u)
    ensures s.pending[v].rec.ptr.unit == v && OwnsAll(s.own, s.pending[v].rec, Reserved(v))
  {
    hide Disown;
    var own, pending := Disown(s.own, Reserved(v)), s.pending - {v};
    forall u | u in s.own ensures s.own[u] == Reserved(v) ==> Covers(s.pending[v].rec.ptr, u) {
      assert Owns(s.frontier, s.pending, s.own[u], u);
    }
    forall u | u in own ensures Owns(s.frontier, pending, own[u], u) {
      assert Owns(s.frontier, s.pending, s.own[u], u);
    }
    forall p | p in s.frontier ensures OwnsAll(own, s.frontier[p], Slot(p)) {
      assert OwnsAll(s.own, s.frontier[p], Slot(p));
    }
    forall w | w in pending ensures OwnsAll(own, pending[w].rec, Reserved(w)) {
      assert OwnsAll(s.own, s.pending[w].rec, Reserved(w));
    }
  }

  lemma DropKeepsRuns(s: State, v: nat)
    requires RunsOk(s) && v in s.pending && s.pending[v].run !in s.runs
    requires forall u :: u in s.own ==> s.own[u] != Reserved(v)
    ensures RunsOk(s.(pending := s.pending - {v}))
  {
    hide RunPlaced, Apart;
    var t := s.(pending := s.pending - {v});
    forall id, u | id in t.runs && u in RunUnits(t.runs[id]) && u in t.own ensures OwnedByRun(t.pending, t.own[u], id) {
      assert OwnedByRun(s.pending, s.own[u], id);
    }
  }

  lemma DroppedKeepsInv(s: State, v: nat)
    requires Inv(s) && s.ckpt.Idle? && v in s.pending && s.pending[v].run !in s.runs
    ensures Inv(Dropped(s, v))
  {
    hide Ok, Counted, OwnersOk, RunsOk, ViewsOk, HandlesOk, CopiesOk, ManifestOk, CacheOk, Freed, Disown, OwnsAll, FrontierOk;
    var r := s.pending[v].rec;
    assert PendOk(s.pending[v], s.runs, s.nextRun, s.disk);
    FreedKeepsOk(s.a, r.ptr.unit, Units(r.ptr));
    DropKeepsOwners(s, v);
    FreeCounts(s.a, s.own, r, Reserved(v));
    DisownKeepsRuns(s, Reserved(v), r.ptr.unit, Units(r.ptr));
    DropKeepsRuns(s.(own := Disown(s.own, Reserved(v)), a := Freed(s.a, r.ptr.unit, Units(r.ptr))), v);
    FreedKeepsClients(s, r.ptr.unit, Units(r.ptr));
    FreedKeepsCache(s, r.ptr.unit, Units(r.ptr));
    FreedKeepsManifest(s, r.ptr.unit, Units(r.ptr));
    RestKept(s, Dropped(s, v));
    assert FrontierOk(Dropped(s, v)) by { DroppedKeepsFrontier(s, v); }
  }

  lemma DroppedKeepsFrontier(s: State, v: nat)
    requires FrontierOk(s) && v in s.pending
    ensures FrontierOk(Dropped(s, v))
  {
    hide Freed, Disown, Intact;
  }

  // ------------------------------------------------------------------ snapshots

  lemma PinKeepsHandles(s: State)
    requires HandlesOk(s) && Ok(s.a)
    ensures HandlesOk(DoPin(s))
  {
    hide ListsOk, HeadOk;
    var t, g0 := DoPin(s), s.a.pinGen + 1;
    PinnedKeepsOk(s.a);
    forall g | g in t.a.pins ensures t.a.pins[g] == |HandlesAt(t.handles, g)| {
      if g == g0 {
        assert HandlesAt(t.handles, g) == {s.nextHandle};
      } else {
        assert HandlesAt(t.handles, g) == HandlesAt(s.handles, g);
      }
    }
  }

  lemma PinKeepsViews(s: State)
    requires Ok(s.a) && OwnOk(s.a, s.own, s.frontier, s.pending) && FrontierOk(s) && ViewsOk(s)
    ensures ViewsOk(DoPin(s))
  {
    hide ListsOk, HeadOk, OwnersOk, Counted, Intact;
    var g0 := s.a.pinGen + 1;
    PinnedKeepsOk(s.a);
    forall p | p in s.frontier ensures AllGuarded(s.a, s.frontier[p], g0) {
      FrontierIsGuarded(s, p, g0);
    }
  }

  lemma PinKeepsRuns(s: State)
    requires OwnersOk(s.own, s.frontier, s.pending) && RunsOk(s) && Ok(s.a) && ViewsOk(s)
    ensures RunsOk(DoPin(s))
  {
    hide ListsOk, HeadOk, OwnersOk, Apart, RunOwners, Intact, AllGuarded;
    forall id, p | id in s.runs && p in s.frontier ensures Apart(s.runs[id], s.frontier[p]) {
      assert RunPlaced(s.a, s.own, s.runs[id]);
      RunMissesFrontier(s, id, p);
    }
  }

  /** Groups that look neither at the pins nor at the handles. */
  lemma PinsAreScratch(s: State, t: State)
    requires t == s.(a := s.a.(pins := t.a.pins, pinGen := t.a.pinGen), views := t.views, handles := t.handles, nextHandle := t.nextHandle)
    ensures Counted(s.a, s.own) ==> Counted(t.a, t.own)
    ensures PendingOk(s) ==> PendingOk(t)
    ensures FrontierOk(s) ==> FrontierOk(t)
  {
    hide Intact, PendOk, OwnedIn;
  }

  lemma PinsAreScratchForManifest(s: State, t: State)
    requires t == s.(a := s.a.(pins := t.a.pins, pinGen := t.a.pinGen), views := t.views, handles := t.handles, nextHandle := t.nextHandle)
    ensures ManifestOk(s) ==> ManifestOk(t)
  {
    hide Intact, Clean, Disjoint;
  }

  lemma PinsAreScratchForRuns(s: State, t: State)
    requires t == s.(a := s.a.(pins := t.a.pins, pinGen := t.a.pinGen), handles := t.handles, nextHandle := t.nextHandle)
    ensures RunsOk(s) ==> RunsOk(t)
    ensures ViewsOk(s) && t.a.pins.Keys == s.a.pins.Keys ==> ViewsOk(t)
  {
    hide Intact, RunOwners, Apart;
  }

  /** Handles keep their scratch; new ones start without any. */
  lemma NewHandleKeepsScratch(s: State, t: State, g: nat)
    requires t == s.(a := s.a.(pins := t.a.pins, pinGen := t.a.pinGen), views := t.views,
      handles := s.handles[s.nextHandle := Handle(g, false, map[])], nextHandle := s.nextHandle + 1)
    requires s.nextHandle !in s.handles && forall g :: g in s.views ==> g in t.views && t.views[g] == s.views[g]
    ensures CopiesOk(s) ==> CopiesOk(t)
    ensures CacheOk(s) ==> CacheOk(t)
  {
    hide Intact;
  }

  lemma PinKeepsInv(s: State)
    requires Inv(s) && s.ckpt.Idle?
    ensures Inv(DoPin(s))
  {
    hide ListsOk, HeadOk, PinsOk, Counted, OwnersOk, RunsOk, PendingOk, FrontierOk, HandlesOk, CopiesOk, ManifestOk, CacheOk, ViewsOk;
    PinnedKeepsOk(s.a);
    PinKeepsHandles(s);
    PinKeepsViews(s);
    PinKeepsRuns(s);
    PinsAreScratch(s, DoPin(s));
    PinsAreScratchForManifest(s, DoPin(s));
    PinIsNew(s);
    NewHandleKeepsScratch(s, DoPin(s), s.a.pinGen + 1);
  }

  lemma PinIsNew(s: State)
    requires Ok(s.a) && ViewsOk(s) && HandlesOk(s)
    ensures s.a.pinGen + 1 !in s.views && s.nextHandle !in s.handles
  {
    hide ListsOk, HeadOk, Intact;
  }

  lemma CloneKeepsInv(s: State, h: nat)
    requires Inv(s) && h in s.handles
    ensures Inv(DoClone(s, h))
  {
    hide ListsOk, PinsOk, HeadOk, Counted, OwnersOk, RunsOk, PendingOk, FrontierOk, CopiesOk, ManifestOk, CacheOk, ViewsOk, HandlesAt;
    PinnedAtKeepsOk(s.a, s.handles[h].gen);
    CloneKeepsHandles(s, h);
    PinsAreScratch(s, DoClone(s, h));
    PinsAreScratchForManifest(s, DoClone(s, h));
    assert DoClone(s, h).a.pins.Keys == s.a.pins.Keys;
    PinsAreScratchForRuns(s, DoClone(s, h));
    NewHandleKeepsScratch(s, DoClone(s, h), s.handles[h].gen);
  }

  lemma CloneKeepsHandles(s: State, h: nat)
    requires HandlesOk(s) && Ok(s.a) && h in s.handles
    ensures HandlesOk(DoClone(s, h))
  {
    hide ListsOk, HeadOk, PinsOk, HandlesAt;
    var t, g0 := DoClone(s, h), s.handles[h].gen;
    forall g | g in t.a.pins ensures t.a.pins[g] == |HandlesAt(t.handles, g)| {
      HandleAdded(s.handles, s.nextHandle, Handle(g0, false, map[]), g);
    }
  }

  lemma HandleAdded(handles: map<nat, Handle>, n: nat, c: Handle, g: nat)
    requires n !in handles
    ensures |HandlesAt(handles[n := c], g)| == |HandlesAt(handles, g)| + if c.gen == g then 1 else 0
  {
    assert HandlesAt(handles[n := c], g) == HandlesAt(handles, g) + if c.gen == g then {n} else {};
  }

  lemma UnpinShape(a: Alloc, g: nat)
    ensures var b := Unpinned(a, g);
      && b.pins == DropPin(a, g).pins && b.pinGen == a.pinGen && b.live == a.live && b.young == a.young
      && b.head == a.head && b.next == a.next && b.endPage == a.endPage && b.free == a.free
  {
    hide Route;
  }

  lemma UnpinKeepsHandles(s: State, h: nat)
    requires HandlesOk(s) && h in s.handles
    ensures HandlesOk(DoUnpin(s, h))
  {
    hide Unpinned;
    var t, g0 := DoUnpin(s, h), s.handles[h].gen;
    UnpinShape(s.a, g0);
    assert h in HandlesAt(s.handles, g0);
    assert HandlesAt(t.handles, g0) == HandlesAt(s.handles, g0) - {h};
    forall g | g != g0 ensures HandlesAt(t.handles, g) == HandlesAt(s.handles, g) {
    }
    forall k | k in t.handles ensures t.handles[k].gen in t.a.pins {
      assert s.handles[k].gen in s.a.pins;
      if t.handles[k].gen == g0 {
        assert k in HandlesAt(t.handles, g0);
        assert |HandlesAt(t.handles, g0)| == |HandlesAt(s.handles, g0)| - 1;
        assert HandlesAt(t.handles, g0) != {};
      }
    }
  }

  lemma UnpinKeepsClients(s: State, h: nat)
    requires ViewsOk(s) && ManifestOk(s) && h in s.handles
    ensures ViewsOk(DoUnpin(s, h)) && ManifestOk(DoUnpin(s, h))
  {
    hide Unpinned, Intact, Guarded, Durable, Cached, Clean, Disjoint;
    UnpinShape(s.a, s.handles[h].gen);
    UnpinnedKeepsProtection(s.a, s.handles[h].gen);
  }

  /** Releasing parked regions never stages one that a checked collector must not
      drain. */
  lemma UnpinKeepsCache(s: State, h: nat)
    requires CacheOk(s) && h in s.handles && HandlesOk(DoUnpin(s, h))
    ensures CacheOk(DoUnpin(s, h))
  {
    hide Unpinned, Intact, Guarded, Durable, Cached, HandlesAt;
    UnpinShape(s.a, s.handles[h].gen);
    UnpinnedKeepsProtection(s.a, s.handles[h].gen);
    var t := DoUnpin(s, h);
    forall u, k | u in t.cache && k in t.handles && t.handles[k].checked
      ensures Unaliased(t.a, RegionOf(u), t.handles[k].gen) {
      assert Unaliased(s.a, RegionOf(u), s.handles[k].gen);
      assert t.handles[k].gen in t.a.pins;
    }
  }

  lemma UnpinKeepsRest(s: State, h: nat)
    requires h in s.handles && HandlesOk(DoUnpin(s, h))
    ensures CopiesOk(s) ==> CopiesOk(DoUnpin(s, h))
    ensures RunsOk(s) ==> RunsOk(DoUnpin(s, h))
    ensures PendingOk(s) && FrontierOk(s) ==> PendingOk(DoUnpin(s, h)) && FrontierOk(DoUnpin(s, h))
    ensures Counted(s.a, s.own) ==> Counted(DoUnpin(s, h).a, s.own)
  {
    hide Unpinned, Intact, HandlesAt, PendOk, Apart, RunOwners, OwnedIn;
    UnpinShape(s.a, s.handles[h].gen);
  }

  lemma UnpinKeepsInv(s: State, h: nat)
    requires Inv(s) && h in s.handles
    ensures Inv(DoUnpin(s, h))
  {
    hide Ok, Counted, OwnersOk, RunsOk, PendingOk, FrontierOk, ViewsOk, HandlesOk, CopiesOk, ManifestOk, CacheOk, Unpinned;
    UnpinnedKeepsOk(s.a, s.handles[h].gen);
    UnpinKeepsHandles(s, h);
    UnpinKeepsClients(s, h);
    UnpinKeepsCache(s, h);
    UnpinKeepsRest(s, h);
  }

  // ----------------------------------------------------------------- collectors

  lemma SameGenKeepsHandles(s: State, h: nat, c: Handle)
    requires HandlesOk(s) && h in s.handles && c.gen == s.handles[h].gen
    ensures HandlesOk(s.(handles := s.handles[h := c]))
  {
    var t := s.(handles := s.handles[h := c]);
    forall g | g in t.a.pins ensures t.a.pins[g] == |HandlesAt(t.handles, g)| {
      assert HandlesAt(t.handles, g) == HandlesAt(s.handles, g);
    }
  }

  /** One handle's scratch changed: it keeps its pin, its copies stay true and it may
      have seen an empty cache. */
  lemma ScratchKeepsInv(s: State, h: nat, c: Handle)
    requires Inv(s) && h in s.handles && c.gen == s.handles[h].gen
    requires forall p :: p in c.copies ==>
      c.gen in s.views && p in s.views[c.gen] && c.copies[p] == s.views[c.gen][p].image
    requires c.checked ==> s.handles[h].checked || s.cache == map[]
    ensures Inv(s.(handles := s.handles[h := c]))
  {
    hide Ok, Counted, OwnersOk, RunsOk, PendingOk, FrontierOk, HandlesOk, CopiesOk, ManifestOk, CacheOk, ViewsOk;
    var t := s.(handles := s.handles[h := c]);
    SameGenKeepsHandles(s, h, c);
    PinsAreScratch(s, t);
    PinsAreScratchForManifest(s, t);
    PinsAreScratchForRuns(s, t);
    ScratchKeepsCopies(s, h, c);
    ScratchKeepsCache(s, h, c);
  }

  lemma ScratchKeepsCopies(s: State, h: nat, c: Handle)
    requires CopiesOk(s) && h in s.handles && c.gen == s.handles[h].gen
    requires forall p :: p in c.copies ==>
      c.gen in s.views && p in s.views[c.gen] && c.copies[p] == s.views[c.gen][p].image
    ensures CopiesOk(s.(handles := s.handles[h := c]))
  {
  }

  lemma ScratchKeepsCache(s: State, h: nat, c: Handle)
    requires CacheOk(s) && h in s.handles && c.gen == s.handles[h].gen
    requires c.checked ==> s.handles[h].checked || s.cache == map[]
    ensures CacheOk(s.(handles := s.handles[h := c]))
  {
    hide Intact, AllCached, Unaliased;
  }

  lemma CollectReadKeepsInv(s: State, h: nat, path: Path)
    requires Inv(s) && HasView(s, h) && path in s.views[s.handles[h].gen]
    ensures Inv(DoCollectRead(s, h, path))
  {
    hide Ok, Counted, OwnersOk, RunsOk, PendingOk, FrontierOk, HandlesOk, ManifestOk, CacheOk, Intact, AllGuarded;
    IntactIsRead(s.disk, s.views[s.handles[h].gen][path]);
    var c := s.handles[h];
    ScratchKeepsInv(s, h, c.(copies := c.copies[path := ReadSlot(s.disk, s.views[c.gen], path)]));
  }

  lemma PlaceKeepsInv(s: State, h: nat, path: Path, v: nat)
    requires Inv(s) && Enabled(s, CollectPlace(h, path, v))
    ensures Inv(s.(pending := s.pending[v := s.pending[v].(use := For(h, path))]))
  {
    hide Ok, Counted, OwnersOk, RunsOk, PendingOk, FrontierOk, HandlesOk, CopiesOk, ManifestOk, CacheOk, ViewsOk;
    PlaceKeepsOwners(s, h, path, v);
    PlaceKeepsPending(s, h, path, v);
    PlaceKeepsCopies(s, h, path, v);
    PlaceKeepsRest(s, s.pending[v := s.pending[v].(use := For(h, path))]);
  }

  lemma PlaceKeepsPending(s: State, h: nat, path: Path, v: nat)
    requires v in s.pending
    ensures var t := s.(pending := s.pending[v := s.pending[v].(use := For(h, path))]);
      (PendingOk(s) ==> PendingOk(t)) && (RunsOk(s) ==> RunsOk(t))
  {
    hide Intact, Framed, InRun, RunPlaced, Apart;
    var t := s.(pending := s.pending[v := s.pending[v].(use := For(h, path))]);
    if RunsOk(s) {
      forall id, u | id in t.runs && u in RunUnits(t.runs[id]) && u in t.own ensures OwnedByRun(t.pending, t.own[u], id) {
        assert OwnedByRun(s.pending, s.own[u], id);
      }
    }
    if PendingOk(s) {
      forall w | w in t.pending ensures PendOk(t.pending[w], t.runs, t.nextRun, t.disk) {
        assert PendOk(s.pending[w], s.runs, s.nextRun, s.disk);
      }
    }
  }

  lemma PlaceKeepsCopies(s: State, h: nat, path: Path, v: nat)
    requires CopiesOk(s) && HandlesOk(s) && Enabled(s, CollectPlace(h, path, v))
    ensures CopiesOk(s.(pending := s.pending[v := s.pending[v].(use := For(h, path))]))
  {
    hide HandlesAt;
  }

  lemma PlaceKeepsRest(s: State, pending: map<nat, Pend>)
    ensures FrontierOk(s) ==> FrontierOk(s.(pending := pending))
    ensures ViewsOk(s) ==> ViewsOk(s.(pending := pending))
    ensures HandlesOk(s) ==> HandlesOk(s.(pending := pending))
    ensures ManifestOk(s) ==> ManifestOk(s.(pending := pending))
    ensures CacheOk(s) ==> CacheOk(s.(pending := pending))
  {
    hide Intact, AllGuarded, AllDurable, AllCached, Unaliased, Clean, Disjoint, HandlesAt;
  }

  lemma PlaceKeepsOwners(s: State, h: nat, path: Path, v: nat)
    requires OwnersOk(s.own, s.frontier, s.pending) && v in s.pending
    ensures OwnersOk(s.own, s.frontier, s.pending[v := s.pending[v].(use := For(h, path))])
  {
    hide Covers;
    forall u | u in s.own ensures Owns(s.frontier, s.pending[v := s.pending[v].(use := For(h, path))], s.own[u], u) {
      assert Owns(s.frontier, s.pending, s.own[u], u);
    }
  }

  // ------------------------------------------------------------------- draining

  lemma DrainKeepsInv(s: State)
    requires Inv(s) && forall u :: u in s.cache ==> RegionOf(u) !in s.a.staged
    ensures Inv(s.(a := Drained(s.a)))
  {
    hide Ok, Counted, OwnersOk, RunsOk, PendingOk, FrontierOk, ViewsOk, HandlesOk, CopiesOk, ManifestOk, CacheOk, Drained;
    DrainedKeepsProtection(s.a);
    DrainKeepsClients(s);
    DrainKeepsCache(s);
    DrainKeepsRest(s);
  }

  lemma DrainKeepsClients(s: State)
    requires Ok(s.a) && ViewsOk(s) && ManifestOk(s)
    ensures ViewsOk(s.(a := Drained(s.a))) && ManifestOk(s.(a := Drained(s.a)))
  {
    hide ListsOk, PinsOk, HeadOk, Intact, Guarded, Durable, Cached, Clean, Disjoint;
    DrainedKeepsProtection(s.a);
  }

  lemma DrainKeepsCache(s: State)
    requires Ok(s.a) && CacheOk(s) && forall u :: u in s.cache ==> RegionOf(u) !in s.a.staged
    ensures CacheOk(s.(a := Drained(s.a)))
  {
    hide ListsOk, PinsOk, HeadOk, Cached;
    DrainedKeepsProtection(s.a);
    forall u | u in s.cache ensures AllCached(Drained(s.a), s.cache[u]) {
      forall w: nat | Covers(s.cache[u].ptr, w) ensures Cached(Drained(s.a), w) {
        SameRegion(s.cache[u], w);
      }
    }
  }

  lemma DrainKeepsRest(s: State)
    ensures RunsOk(s) ==> RunsOk(s.(a := Drained(s.a)))
    ensures PendingOk(s) && FrontierOk(s) ==> PendingOk(s.(a := Drained(s.a))) && FrontierOk(s.(a := Drained(s.a)))
    ensures HandlesOk(s) ==> HandlesOk(s.(a := Drained(s.a)))
    ensures CopiesOk(s) ==> CopiesOk(s.(a := Drained(s.a)))
    ensures Counted(s.a, s.own) ==> Counted(Drained(s.a), s.own)
  {
    hide Intact, HandlesAt, PendOk, Apart, RunOwners, OwnedIn;
  }

  lemma CollectDrainKeepsInv(s: State, h: nat)
    requires Inv(s) && h in s.handles && s.handles[h].checked
    ensures Inv(s.(a := Drained(s.a), handles := s.handles[h := s.handles[h].(checked := false)]))
  {
    hide Ok, Counted, OwnersOk, RunsOk, PendingOk, FrontierOk, ViewsOk, HandlesOk, ManifestOk, Drained, Intact, AllCached;
    DrainKeepsInv(s);
    ScratchKeepsInv(s.(a := Drained(s.a)), h, s.handles[h].(checked := false));
  }

  lemma EmptyCacheKeepsInv(s: State)
    requires Inv(s)
    ensures Inv(s.(cache := map[]))
  {
    hide Ok, Counted, OwnersOk, PendingOk, FrontierOk, ViewsOk, HandlesOk, CopiesOk, ManifestOk, Intact, AllCached, Apart, RunOwners;
    var t := s.(cache := map[]);
    assert PendingOk(t) && FrontierOk(t) && ViewsOk(t) && HandlesOk(t) && CopiesOk(t) && ManifestOk(t) by {
      CacheIsScratch(s, t);
    }
  }

  lemma CacheIsScratch(s: State, t: State)
    requires t == s.(cache := t.cache, draining := t.draining)
    ensures PendingOk(s) ==> PendingOk(t)
    ensures FrontierOk(s) ==> FrontierOk(t)
    ensures ViewsOk(s) ==> ViewsOk(t)
    ensures HandlesOk(s) ==> HandlesOk(t)
    ensures CopiesOk(s) ==> CopiesOk(t)
    ensures ManifestOk(s) ==> ManifestOk(t)
  {
    hide Intact, HandlesAt, PendOk, AllGuarded, AllDurable, Clean, Disjoint;
  }

  lemma DrainingKeepsInv(s: State, draining: bool)
    requires Inv(s) && (draining ==> s.cache == map[])
    ensures Inv(s.(draining := draining))
  {
    hide Ok, Counted, OwnersOk, PendingOk, FrontierOk, ViewsOk, HandlesOk, CopiesOk, ManifestOk, Intact, AllCached, Apart, RunOwners;
    CacheIsScratch(s, s.(draining := draining));
  }

  lemma PrefetchKeepsInv(s: State, path: Path)
    requires Inv(s) && path in s.frontier && !s.draining
    ensures Inv(DoPrefetch(s, path))
  {
    hide Ok, Counted, OwnersOk, PendingOk, ViewsOk, HandlesOk, CopiesOk, ManifestOk, Intact, Apart, RunOwners;
    var t := DoPrefetch(s, path);
    CacheIsScratch(s, t);
    IntactIsRead(s.disk, s.frontier[path]);
    PrefetchKeepsCache(s, path);
    forall id | id in s.runs ensures Apart(s.runs[id], s.frontier[path]) {
      assert RunPlaced(s.a, s.own, s.runs[id]);
      RunMissesFrontier(s, id, path);
    }
  }

  lemma PrefetchKeepsCache(s: State, path: Path)
    requires Ok(s.a) && OwnOk(s.a, s.own, s.frontier, s.pending) && FrontierOk(s) && CacheOk(s)
    requires path in s.frontier && !s.draining
    ensures CacheOk(DoPrefetch(s, path))
  {
    hide ListsOk, PinsOk, HeadOk, Counted, OwnersOk, Intact;
    var t, r := DoPrefetch(s, path), s.frontier[path];
    IntactIsRead(s.disk, r);
    assert Covers(r.ptr, r.ptr.unit);
    FrontierIsGuarded(s, path, 0);
    forall h | h in s.handles && s.handles[h].checked ensures Unaliased(s.a, RegionOf(r.ptr.unit), s.handles[h].gen) {
      FrontierIsGuarded(s, path, s.handles[h].gen);
    }
  }

  // ---------------------------------------------------------------- checkpoints

  lemma WrittenInFile(a: Alloc, u: nat)
    requires Ok(a) && Written(a, u)
    ensures RegionOf(u) < FileRegions(a)
  {
    hide ListsOk, PinsOk;
  }

  /** Groups that look neither at the checkpoint nor at its manifest. */
  lemma CheckpointIsScratch(s: State, t: State)
    requires t == s.(ckpt := t.ckpt, dirty := t.dirty, manifest := t.manifest)
    ensures PendingOk(s) ==> PendingOk(t)
    ensures FrontierOk(s) ==> FrontierOk(t)
    ensures ViewsOk(s) ==> ViewsOk(t)
    ensures HandlesOk(s) ==> HandlesOk(t)
    ensures CopiesOk(s) ==> CopiesOk(t)
    ensures CacheOk(s) ==> CacheOk(t)
  {
    hide Intact, AllGuarded, AllCached, Unaliased, HandlesAt, PendOk;
  }

  lemma SyncKeepsInv(s: State)
    requires Inv(s) && s.ckpt.Idle?
    ensures Inv(s.(ckpt := Synced(s.a.endPage), dirty := {}))
  {
    hide Ok, Counted, OwnersOk, RunOwners, RunPlaced, Apart, PendingOk, FrontierOk, ViewsOk, HandlesOk, CopiesOk, CacheOk, Intact,
      AllDurable, Disjoint;
    var t := s.(ckpt := Synced(s.a.endPage), dirty := {});
    CheckpointIsScratch(s, t);
    forall p | p in s.frontier ensures RegionOf(s.frontier[p].ptr.unit) < FileRegions(s.a) {
      FrontierIsGuarded(s, p, 0);
      assert Covers(s.frontier[p].ptr, s.frontier[p].ptr.unit);
      WrittenInFile(s.a, s.frontier[p].ptr.unit);
    }
  }

  lemma FrontierDisjoint(s: State)
    requires OwnersOk(s.own, s.frontier, s.pending)
    ensures Disjoint(s.frontier)
  {
    forall p, q, u: nat | p in s.frontier && q in s.frontier && Covers(s.frontier[p].ptr, u) && Covers(s.frontier[q].ptr, u)
      ensures p == q {
      assert OwnsAll(s.own, s.frontier[p], Slot(p)) && OwnsAll(s.own, s.frontier[q], Slot(q));
    }
  }

  lemma CommitKeepsRuns(s: State, e: nat)
    requires OwnersOk(s.own, s.frontier, s.pending) && RunsOk(s)
    ensures RunsOk(s.(ckpt := Committed, manifest := Manifest(s.frontier, e)))
  {
    hide OwnersOk, RunOwners, Apart;
    forall id, p | id in s.runs && p in s.frontier ensures Apart(s.runs[id], s.frontier[p]) {
      assert RunPlaced(s.a, s.own, s.runs[id]);
      RunMissesFrontier(s, id, p);
    }
  }

  lemma CommitKeepsInv(s: State, e: nat)
    requires Inv(s) && s.ckpt.Synced? && s.ckpt.endPage <= e
    ensures Inv(s.(ckpt := Committed, manifest := Manifest(s.frontier, e)))
  {
    hide Ok, Counted, OwnersOk, RunsOk, PendingOk, ViewsOk, HandlesOk, CopiesOk, CacheOk, Intact, AllDurable, Disjoint, Clean;
    FrontierDisjoint(s);
    CommitKeepsRuns(s, e);
    CheckpointIsScratch(s, s.(ckpt := Committed, manifest := Manifest(s.frontier, e)));
  }

  lemma PersistedShape(a: Alloc)
    ensures var b := Persisted(a);
      && b.live == a.live && b.head == a.head && b.next == a.next && b.pins == a.pins && b.pinGen == a.pinGen
      && b.endPage == a.endPage
  {
  }

  lemma DoneKeepsClients(s: State)
    requires Ok(s.a) && ViewsOk(s) && CacheOk(s) && HandlesOk(s)
    ensures var t := s.(ckpt := Idle, a := Persisted(s.a)); ViewsOk(t) && CacheOk(t) && HandlesOk(t)
  {
    hide ListsOk, HeadOk, Intact, Cached, Persisted, HandlesAt;
    PersistedShape(s.a);
    PersistedKeepsProtection(s.a);
  }

  lemma DoneKeepsManifest(s: State)
    requires Ok(s.a) && OwnOk(s.a, s.own, s.frontier, s.pending) && ManifestOk(s) && s.ckpt.Committed?
    ensures ManifestOk(s.(ckpt := Idle, a := Persisted(s.a)))
  {
    hide ListsOk, PinsOk, HeadOk, Counted, OwnersOk, Intact, Cached, Durable, Clean, Disjoint, Persisted;
    PersistedKeepsProtection(s.a);
    forall p | p in s.frontier ensures AllDurable(Persisted(s.a), s.frontier[p]) {
      FrontierIsGuarded(s, p, 0);
    }
  }

  lemma DoneKeepsRest(s: State)
    ensures var t := s.(ckpt := Idle, a := Persisted(s.a));
      && (RunsOk(s) ==> RunsOk(t))
      && (PendingOk(s) && FrontierOk(s) ==> PendingOk(t) && FrontierOk(t))
      && (CopiesOk(s) ==> CopiesOk(t))
      && (Counted(s.a, s.own) ==> Counted(t.a, s.own))
  {
    hide Intact, PendOk, Apart, RunOwners, OwnedIn, Persisted;
    PersistedShape(s.a);
  }

  lemma DoneKeepsInv(s: State)
    requires Inv(s) && s.ckpt.Committed?
    ensures Inv(s.(ckpt := Idle, a := Persisted(s.a)))
  {
    hide Ok, Counted, OwnersOk, RunsOk, PendingOk, FrontierOk, ViewsOk, HandlesOk, CopiesOk, ManifestOk, CacheOk, Persisted;
    PersistedKeepsOk(s.a);
    DoneKeepsClients(s);
    DoneKeepsManifest(s);
    DoneKeepsRest(s);
  }

  // ---------------------------------------------------------------------- crash

  lemma CrashKeepsFrontier(s: State, d: Disk)
    requires ManifestOk(s) && s.manifest.Manifest? && forall u :: u !in s.dirty ==> At(d, u) == At(s.disk, u)
    ensures forall p :: p in s.manifest.frontier ==> Intact(d, s.manifest.frontier[p])
  {
    hide Framed, AllDurable, Disjoint;
    forall p | p in s.manifest.frontier ensures Intact(d, s.manifest.frontier[p]) {
      assert Intact(s.disk, s.manifest.frontier[p]) && Clean(s.dirty, s.manifest.frontier[p]);
    }
  }

  lemma CrashOwners(f: Frontier)
    requires Disjoint(f)
    ensures OwnersOk(map u | u in FrontierUnits(f) :: FrontierOwner(f, u), f, map[])
  {
    var own := map u | u in FrontierUnits(f) :: FrontierOwner(f, u);
    forall p | p in f ensures OwnsAll(own, f[p], Slot(p)) {
      forall u: nat | Covers(f[p].ptr, u) ensures u in own && own[u] == Slot(p) {
        assert u in FrontierUnits(f);
      }
    }
  }

  lemma CrashCounts(f: Frontier, n: nat)
    requires forall p :: p in f ==> Framed(f[p]) && RegionOf(f[p].ptr.unit) < n
    ensures Counted(Reopened(RecountedLive(f, n)), map u | u in FrontierUnits(f) :: FrontierOwner(f, u))
    ensures forall p, u: nat :: p in f && Covers(f[p].ptr, u) ==> RegionOf(u) < n
  {
    hide FrontierOwner;
    var own := map u | u in FrontierUnits(f) :: FrontierOwner(f, u);
    assert own.Keys == FrontierUnits(f);
    forall p, u: nat | p in f && Covers(f[p].ptr, u) ensures RegionOf(u) < n {
      SameRegion(f[p], u);
    }
    assert OwnedIn(own.Keys, n) == {};
  }

  lemma CrashKeepsInv(s: State, d: Disk)
    requires Inv(s) && s.manifest.Manifest? && forall u :: u !in s.dirty ==> At(d, u) == At(s.disk, u)
    ensures Inv(DoCrash(s.manifest.frontier, s.manifest.endPage, d))
  {
    hide Counted, OwnersOk, RecountedLive, FrontierUnits, FrontierOwner, ListsOk, PinsOk, HeadOk, Disjoint, At;
    var f, n := s.manifest.frontier, DivCeil(s.manifest.endPage, REGION_PAGES);
    CrashKeepsFrontier(s, d);
    CrashOwners(f);
    CrashCounts(f, n);
    ReopenedOk(RecountedLive(f, n));
    var t := DoCrash(f, s.manifest.endPage, d);
    assert |RecountedLive(f, n)| == n by { RecountedLength(f, n); }
    CrashManifest(s, d);
    NoClients(t);
    hide RunsOk, PendingOk, ViewsOk, HandlesOk, CopiesOk, CacheOk, ManifestOk, RegionOf, DivCeil, Intact, Covers;
  }

  /** A freshly opened store has no readers and nothing in flight. */
  lemma NoClients(t: State)
    requires t.runs == map[] && t.pending == map[] && t.views == map[] && t.a.pins == map[] && t.handles == map[] && t.cache == map[] && !t.draining
    ensures RunsOk(t) && PendingOk(t) && ViewsOk(t) && HandlesOk(t) && CopiesOk(t) && CacheOk(t)
  {
  }

  lemma RecountedLength(f: Frontier, n: nat)
    ensures |RecountedLive(f, n)| == n
  {
  }

  lemma CrashManifest(s: State, d: Disk)
    requires ManifestOk(s) && s.manifest.Manifest?
    requires forall p :: p in s.manifest.frontier ==> Intact(d, s.manifest.frontier[p])
    requires forall p, u: nat :: p in s.manifest.frontier && Covers(s.manifest.frontier[p].ptr, u) ==>
      RegionOf(u) < DivCeil(s.manifest.endPage, REGION_PAGES)
    ensures ManifestOk(DoCrash(s.manifest.frontier, s.manifest.endPage, d))
  {
    hide RecountedLive, FrontierUnits, FrontierOwner, Disjoint, Intact;
    RecountedLength(s.manifest.frontier, DivCeil(s.manifest.endPage, REGION_PAGES));
  }

  // ----------------------------------------------------------------- every step

  lemma InitInv()
    ensures Inv(INIT)
  {
    assert Parked(EMPTY) == multiset{};
  }

  /** Every step any actor can take keeps the whole invariant. */
  lemma StepKeepsInv(s: State, step: Step)
    requires Inv(s) && Enabled(s, step)
    ensures Inv(Next(s, step))
  {
    hide Inv, Allocated, Freed, Unpinned, Persisted, Drained, Overwrite, AddOwners, AddPending, Disown, Rename, DoReserve,
      DoWrite, DoAttach, DoDetach, Swung, Dropped, DoPin, DoClone, DoUnpin, DoCollectRead, DoPrefetch, DoCrash, Tiles, At,
      ReadSlot, AllocUnit;
    match step
    case Reserve(run, units, recs, cover, data) => ReserveKeepsInv(s, run, units, recs, cover, data);
    case PWrite(id) => WriteKeepsInv(s, id);
    case Attach(path, v) => AttachKeepsInv(s, path, v);
    case Detach(path) => DetachKeepsInv(s, path);
    case Evacuate(path, v) => SwungKeepsInv(s, path, v);
    case Pin => PinKeepsInv(s);
    case Clone(h) => CloneKeepsInv(s, h);
    case Unpin(h) => UnpinKeepsInv(s, h);
    case CollectRead(h, path) => CollectReadKeepsInv(s, h, path);
    case CollectCheck(h) => CollectCheckKeepsInv(s, h);
    case CollectDrain(h) => CollectDrainKeepsInv(s, h);
    case CollectPlace(h, path, v) => PlaceKeepsInv(s, h, path, v);
    case Install(v) =>
      if StillCollected(s, v) {
        SwungKeepsInv(s, s.pending[v].use.path, v);
      } else {
        DroppedKeepsInv(s, v);
      }
    case PersistSync => SyncKeepsInv(s);
    case PersistCommit(e) => CommitKeepsInv(s, e);
    case PersistDone => DoneKeepsInv(s);
    case Prefetch(path) => PrefetchKeepsInv(s, path);
    case CacheClear =>
      EmptyCacheKeepsInv(s);
      DrainKeepsInv(s.(cache := map[]));
    case DrainCheck => DrainingKeepsInv(s, true);
    case DrainStaged => WriterDrainKeepsInv(s);
    case CrashOpen(d) => CrashKeepsInv(s, d);
  }

  lemma CollectCheckKeepsInv(s: State, h: nat)
    requires Inv(s) && h in s.handles && s.cache == map[]
    ensures Inv(s.(handles := s.handles[h := s.handles[h].(checked := true)]))
  {
    hide Ok, Counted, OwnersOk, RunsOk, PendingOk, FrontierOk, HandlesOk, ManifestOk, CacheOk, ViewsOk;
    ScratchKeepsInv(s, h, s.handles[h].(checked := true));
  }

  lemma WriterDrainKeepsInv(s: State)
    requires Inv(s) && s.draining
    ensures Inv(s.(draining := false, a := Drained(s.a)))
  {
    hide Ok, Counted, OwnersOk, RunsOk, PendingOk, FrontierOk, HandlesOk, ManifestOk, ViewsOk, CopiesOk, Intact, Drained;
    DrainKeepsInv(s);
    DrainingKeepsInv(s.(a := Drained(s.a)), false);
  }
}

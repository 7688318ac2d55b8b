/** What the storage engine promises in every run, whatever the interleaving of the
    writer, collectors, snapshot holders, prefetchers, checkpoints and crashes.
 */
module ReclaimSafety {
  import opened Regions
  import opened Reclaim
  import opened ReclaimSteps

  /** A finite run from the empty store. */
  ghost predicate IsRun(states: seq<State>, steps: seq<Step>) {
    && |states| == |steps| + 1 && states[0] == INIT
    && forall i :: 0 <= i < |steps| ==> Enabled(states[i], steps[i]) && states[i + 1] == Next(states[i], steps[i])
  }

  lemma {:induction false} RunInv(states: seq<State>, steps: seq<Step>, k: nat)
    requires IsRun(states, steps) && k < |states|
    ensures Inv(states[k])
  {
    hide Inv, Enabled, Next;
    if k == 0 {
      InitInv();
    } else {
      RunInv(states, steps, k - 1);
      StepKeepsInv(states[k - 1], steps[k - 1]);
    }
  }

  // ------------------------------------------------------------ writes hit nobody

  /** No positioned write touches a unit of a record that the frontier, a live
      snapshot, the last durable manifest or the read-ahead cache names. */
  lemma WriteHitsNobody(s: State, id: nat, u: nat)
    requires Inv(s) && id in s.runs && u in RunUnits(s.runs[id])
    ensures forall p :: p in s.frontier ==> !Covers(s.frontier[p].ptr, u)
    ensures forall g, p :: g in s.views && p in s.views[g] ==> !Covers(s.views[g][p].ptr, u)
    ensures s.manifest.Manifest? ==> forall p :: p in s.manifest.frontier ==> !Covers(s.manifest.frontier[p].ptr, u)
    ensures forall v :: v in s.cache ==> !Covers(s.cache[v].ptr, u)
  {
    hide Ok, Counted, PendingOk, FrontierOk, ViewsOk, HandlesOk, CopiesOk, ManifestOk, CacheOk;
    forall p | p in s.frontier ensures !Covers(s.frontier[p].ptr, u) {
      assert RunPlaced(s.a, s.own, s.runs[id]);
      RunMissesFrontier(s, id, p);
    }
  }

  // -------------------------------------------------------------------- snapshots

  lemma ViewsOnlyPinned(s: State, step: Step)
    requires Enabled(s, step) && !step.Pin? && !step.Unpin? && !step.CrashOpen?
    ensures Next(s, step).views == s.views
  {
    hide Enabled, StillCollected, Persisted, Drained, DoReserve, DoWrite, DoAttach, DoDetach, Swung, Dropped, DoClone, DoCollectRead, DoPrefetch,
      DoPin, DoUnpin, DoCrash;
  }

  /** A live generation's view never changes. */
  lemma ViewIsFrozen(s: State, step: Step, g: nat)
    requires Inv(s) && Enabled(s, step) && g in s.views && g in Next(s, step).views
    ensures Next(s, step).views[g] == s.views[g]
  {
    hide Ok, Counted, OwnersOk, RunsOk, PendingOk, FrontierOk, HandlesOk, CopiesOk, ManifestOk, CacheOk, ViewsOk, Enabled,
      Unpinned, Pinned, DoReserve, DoWrite, DoAttach, DoDetach, Swung, Dropped, DoClone, DoCollectRead, DoPrefetch;
    if step.Pin? {
      PinIsNew(s);
    } else if !step.Unpin? && !step.CrashOpen? {
      ViewsOnlyPinned(s, step);
    }
  }

  lemma SnapshotReads(s: State, g: nat, p: Path)
    requires Inv(s) && g in s.views && p in s.views[g]
    ensures ReadSlot(s.disk, s.views[g], p) == s.views[g][p].image
  {
    hide Ok, Counted, OwnersOk, RunsOk, PendingOk, FrontierOk, HandlesOk, CopiesOk, ManifestOk, CacheOk, Intact;
    IntactIsRead(s.disk, s.views[g][p]);
  }

  /** Snapshot isolation: while generation `g` stays pinned, every slot of its frozen
      frontier reads the same bytes at every point of the run, whichever other pins
      come and go. */
  lemma {:induction false} SnapshotIsolation(states: seq<State>, steps: seq<Step>, i: nat, j: nat, g: nat, p: Path)
    requires IsRun(states, steps) && i <= j < |states|
    requires forall k :: i <= k <= j ==> g in states[k].views
    requires p in states[i].views[g]
    ensures states[j].views[g] == states[i].views[g]
    ensures ReadSlot(states[j].disk, states[i].views[g], p) == ReadSlot(states[i].disk, states[i].views[g], p)
  {
    hide Inv, Enabled, Next, ReadSlot;
    RunInv(states, steps, i);
    SnapshotReads(states[i], g, p);
    if i < j {
      SnapshotIsolation(states, steps, i, j - 1, g, p);
      RunInv(states, steps, j - 1);
      RunInv(states, steps, j);
      assert states[j] == Next(states[j - 1], steps[j - 1]);
      ViewIsFrozen(states[j - 1], steps[j - 1], g);
      SnapshotReads(states[j], g, p);
    }
  }

  // ------------------------------------------------------------------ checkpoints

  lemma ManifestOnlyCommitted(s: State, step: Step)
    requires Inv(s) && Enabled(s, step) && !step.PersistCommit?
    ensures Next(s, step).manifest == s.manifest
  {
    hide Inv, Allocated, Freed, Unpinned, Persisted, Drained, Overwrite, AddOwners, AddPending, Disown, Rename, Tiles, At,
      ReadSlot, AllocUnit;
  }

  lemma CheckpointReads(s: State, p: Path)
    requires Inv(s) && s.manifest.Manifest? && p in s.manifest.frontier
    ensures ReadSlot(s.disk, s.manifest.frontier, p) == s.manifest.frontier[p].image
  {
    hide Ok, Counted, OwnersOk, RunsOk, PendingOk, FrontierOk, HandlesOk, CopiesOk, ViewsOk, CacheOk, Intact, AllDurable;
    IntactIsRead(s.disk, s.manifest.frontier[p]);
  }

  lemma FrontierReads(s: State, p: Path)
    requires Inv(s) && p in s.frontier
    ensures ReadSlot(s.disk, s.frontier, p) == s.frontier[p].image
  {
    hide Ok, Counted, OwnersOk, RunsOk, PendingOk, ManifestOk, HandlesOk, CopiesOk, ViewsOk, CacheOk, Intact;
    IntactIsRead(s.disk, s.frontier[p]);
  }

  lemma {:induction false} ManifestSurvives(states: seq<State>, steps: seq<Step>, i: nat, j: nat)
    requires IsRun(states, steps) && i <= j < |states|
    requires forall k :: i <= k < j ==> !steps[k].PersistCommit?
    ensures states[j].manifest == states[i].manifest
  {
    hide Inv, Enabled, Next;
    if i < j {
      ManifestSurvives(states, steps, i, j - 1);
      RunInv(states, steps, j - 1);
      assert states[j] == Next(states[j - 1], steps[j - 1]);
      ManifestOnlyCommitted(states[j - 1], steps[j - 1]);
    }
  }

  /** Crash safety: commit a checkpoint, let anything happen short of another commit,
      crash losing every unsynced write arbitrarily, and reopen: the frontier is the
      one committed and every slot reads the bytes it read at the commit. */
  lemma CrashRestoresCheckpoint(states: seq<State>, steps: seq<Step>, c: nat, x: nat, p: Path)
    requires IsRun(states, steps) && c < x < |steps|
    requires steps[c].PersistCommit? && steps[x].CrashOpen?
    requires forall k :: c < k < x ==> !steps[k].PersistCommit?
    ensures states[x + 1].frontier == states[c].frontier
    ensures p in states[c].frontier ==>
      ReadSlot(states[x + 1].disk, states[x + 1].frontier, p) == ReadSlot(states[c].disk, states[c].frontier, p)
  {
    hide Inv, Enabled, Next, ReadSlot;
    RunInv(states, steps, c);
    RunInv(states, steps, c + 1);
    RunInv(states, steps, x);
    RunInv(states, steps, x + 1);
    assert states[c + 1] == Next(states[c], steps[c]);
    CommitNamesFrontier(states[c], steps[c]);
    ManifestSurvives(states, steps, c + 1, x);
    assert states[x + 1] == Next(states[x], steps[x]);
    CrashFrontier(states[x], steps[x]);
    if p in states[c].frontier {
      FrontierReads(states[c], p);
      FrontierReads(states[x + 1], p);
    }
  }

  lemma CrashFrontier(s: State, step: Step)
    requires Enabled(s, step) && step.CrashOpen?
    ensures s.manifest.Manifest? && Next(s, step).frontier == s.manifest.frontier
  {
  }

  lemma CommitNamesFrontier(s: State, step: Step)
    requires Enabled(s, step) && step.PersistCommit?
    ensures Next(s, step).manifest == Manifest(s.frontier, step.endPage)
  {
  }

  // ---------------------------------------------------------------------- reads

  /** Steps that edit the trie rather than move its records. */
  predicate EditsSlot(step: Step, p: Path) {
    step.CrashOpen? || (step.Attach? && step.path == p) || (step.Detach? && step.path == p)
  }

  /** Relocation is invisible: no other step, garbage collection installs and
      evacuations included, changes what any slot reads. */
  lemma ReadsUnchanged(s: State, step: Step, p: Path)
    requires Inv(s) && Enabled(s, step) && !EditsSlot(step, p) && p in s.frontier
    ensures p in Next(s, step).frontier
    ensures ReadSlot(Next(s, step).disk, Next(s, step).frontier, p) == ReadSlot(s.disk, s.frontier, p)
  {
    hide Inv, ReadSlot;
    StepKeepsInv(s, step);
    ImageUnchanged(s, step, p);
    FrontierReads(s, p);
    FrontierReads(Next(s, step), p);
  }

  lemma ImageUnchanged(s: State, step: Step, p: Path)
    requires Inv(s) && Enabled(s, step) && !EditsSlot(step, p) && p in s.frontier
    ensures p in Next(s, step).frontier && Next(s, step).frontier[p].image == s.frontier[p].image
  {
    hide Ok, Counted, OwnersOk, RunsOk, PendingOk, ManifestOk, HandlesOk, CacheOk, AllGuarded, Intact, Allocated, Freed,
      Unpinned, Persisted, Drained, Overwrite, AddOwners, AddPending, Disown, Rename, Tiles, At, AllocUnit;
    if step.Evacuate? {
      IntactIsRead(s.disk, s.frontier[step.path]);
    }
    if step.Install? && StillCollected(s, step.unit) {
      InstallMatchesCollected(s, step.unit);
    }
  }

  /** A matching old pointer is always the collected record: its region was never
      reused while the batch held its pin. */
  lemma InstallMatchesCollected(s: State, v: nat)
    requires FrontierOk(s) && ViewsOk(s) && CopiesOk(s) && Enabled(s, Install(v)) && StillCollected(s, v)
    ensures s.frontier[s.pending[v].use.path] == s.views[s.handles[s.pending[v].use.handle].gen][s.pending[v].use.path]
    ensures s.pending[v].rec.image == s.frontier[s.pending[v].use.path].image
  {
    hide AllGuarded, Intact;
    var use := s.pending[v].use;
    assert CopyOf(s, s.pending[v]);
    IntactDeterminesImage(s.disk, s.frontier[use.path], s.views[s.handles[use.handle].gen][use.path]);
  }

  /** A read served by the read-ahead cache is the read the file would serve. */
  lemma CachedReadAgrees(s: State, p: Path)
    requires Inv(s) && p in s.frontier && s.frontier[p].ptr.unit in s.cache
    ensures s.cache[s.frontier[p].ptr.unit] == s.frontier[p]
    ensures s.cache[s.frontier[p].ptr.unit].image == ReadSlot(s.disk, s.frontier, p)
  {
    hide Ok, Counted, OwnersOk, RunsOk, PendingOk, ManifestOk, HandlesOk, CopiesOk, ViewsOk, AllCached, Intact;
    IntactDeterminesImage(s.disk, s.frontier[p], s.cache[s.frontier[p].ptr.unit]);
    IntactIsRead(s.disk, s.frontier[p]);
  }

  /** The same for every live snapshot: a cached read of a pinned generation is the read
      its frozen frontier was promised. */
  lemma CachedSnapshotRead(s: State, g: nat, p: Path)
    requires Inv(s) && g in s.views && p in s.views[g] && s.views[g][p].ptr.unit in s.cache
    ensures s.cache[s.views[g][p].ptr.unit] == s.views[g][p]
    ensures s.cache[s.views[g][p].ptr.unit].image == ReadSlot(s.disk, s.views[g], p)
  {
    hide Ok, Counted, OwnersOk, RunsOk, PendingOk, FrontierOk, ManifestOk, HandlesOk, CopiesOk, AllCached, AllGuarded, Intact;
    IntactDeterminesImage(s.disk, s.views[g][p], s.cache[s.views[g][p].ptr.unit]);
    IntactIsRead(s.disk, s.views[g][p]);
  }

  // --------------------------------------------------------------- conservation

  ghost predicate Share(p: Ptr, q: Ptr) {
    exists u: nat :: Covers(p, u) && Covers(q, u)
  }

  /** Each region's live count is the number of its units held by the frontier and by
      uninstalled copies, and no two of those share a unit. */
  lemma LiveIsConserved(s: State, r: nat)
    requires Inv(s) && r < |s.a.live|
    ensures s.a.live[r] == |set u | u in s.own && RegionOf(u) == r|
    ensures forall u :: u in s.own <==>
      (exists p :: p in s.frontier && Covers(s.frontier[p].ptr, u)) || (exists v :: v in s.pending && Covers(s.pending[v].rec.ptr, u))
    ensures Disjoint(s.frontier)
    ensures forall p, v :: p in s.frontier && v in s.pending ==> !Share(s.frontier[p].ptr, s.pending[v].rec.ptr)
    ensures forall v, w :: v in s.pending && w in s.pending && v != w ==> !Share(s.pending[v].rec.ptr, s.pending[w].rec.ptr)
  {
    hide Ok, RunsOk, PendingOk, FrontierOk, ViewsOk, HandlesOk, CopiesOk, ManifestOk, CacheOk, Disjoint;
    FrontierDisjoint(s);
    PendingApart(s);
    forall u | u in s.own
      ensures (exists p :: p in s.frontier && Covers(s.frontier[p].ptr, u)) || (exists v :: v in s.pending && Covers(s.pending[v].rec.ptr, u)) {
      assert Owns(s.frontier, s.pending, s.own[u], u);
    }
    forall p, u: nat | p in s.frontier && Covers(s.frontier[p].ptr, u) ensures u in s.own {
      assert OwnsAll(s.own, s.frontier[p], Slot(p));
    }
    forall v, u: nat | v in s.pending && Covers(s.pending[v].rec.ptr, u) ensures u in s.own {
      assert OwnsAll(s.own, s.pending[v].rec, Reserved(v));
    }
  }

  lemma PendingApart(s: State)
    requires OwnersOk(s.own, s.frontier, s.pending)
    ensures forall p, v :: p in s.frontier && v in s.pending ==> !Share(s.frontier[p].ptr, s.pending[v].rec.ptr)
    ensures forall v, w :: v in s.pending && w in s.pending && v != w ==> !Share(s.pending[v].rec.ptr, s.pending[w].rec.ptr)
  {
    hide Covers, Owns;
  }

  /** Dropping a copy that was not installed never saturates either. */
  lemma DropNeverSaturates(s: State, v: nat)
    requires Inv(s) && v in s.pending
    ensures var ptr := s.pending[v].rec.ptr;
      RegionOf(ptr.unit) < |s.a.live| && Units(ptr) <= s.a.live[RegionOf(ptr.unit)]
  {
    hide Ok, RunsOk, ViewsOk, HandlesOk, CopiesOk, ManifestOk, CacheOk, FrontierOk, Counted, OwnersOk;
    DropKeepsOwners(s, v);
    FreeCounts(s.a, s.own, s.pending[v].rec, Reserved(v));
  }

  /** Freeing never saturates: the freed record's units are all still counted. */
  lemma FreeNeverSaturates(s: State, p: Path)
    requires Inv(s) && p in s.frontier
    ensures var ptr := s.frontier[p].ptr;
      RegionOf(ptr.unit) < |s.a.live| && Units(ptr) <= s.a.live[RegionOf(ptr.unit)]
  {
    hide Ok, RunsOk, PendingOk, ViewsOk, HandlesOk, CopiesOk, ManifestOk, CacheOk, Counted, OwnersOk;
    DetachKeepsOwners(s, p);
    DetachOwned(s, p);
    FreeCounts(s.a, s.own, s.frontier[p], Slot(p));
  }

  // ---------------------------------------------------------------- live recount

  ghost function PrefixUnits(f: Frontier, order: seq<Path>): set<nat>
    requires forall p :: p in order ==> p in f
  {
    if order == [] then {}
    else PrefixUnits(f, order[..|order| - 1]) + Range(f[order[|order| - 1]].ptr.unit, Units(f[order[|order| - 1]].ptr))
  }

  lemma {:induction false} PrefixUnitsMember(f: Frontier, order: seq<Path>, u: nat)
    requires forall p :: p in order ==> p in f
    ensures u in PrefixUnits(f, order) <==> exists p :: p in order && Covers(f[p].ptr, u)
  {
    if order != [] {
      var n := |order| - 1;
      PrefixUnitsMember(f, order[..n], u);
      assert order == order[..n] + [order[n]];
    }
  }

  lemma RecountOne(f: Frontier, order: seq<Path>, i: nat, q: nat)
    requires i < |order| && Disjoint(f)
    requires forall p :: p in order ==> p in f && Framed(f[p])
    requires forall i, j :: 0 <= i < j < |order| ==> order[i] != order[j]
    ensures var ptr := f[order[i]].ptr;
      |OwnedIn(PrefixUnits(f, order[..i + 1]), q)| ==
      |OwnedIn(PrefixUnits(f, order[..i]), q)| + if q == RegionOf(ptr.unit) then Units(ptr) else 0
  {
    var ptr := f[order[i]].ptr;
    assert order[..i + 1][..i] == order[..i];
    forall u | u in PrefixUnits(f, order[..i]) ensures u !in Range(ptr.unit, Units(ptr)) {
      PrefixUnitsMember(f, order[..i], u);
      var p :| p in order[..i] && Covers(f[p].ptr, u);
      var k :| 0 <= k < i && order[k] == p;
      assert p != order[i];
    }
    OwnedAdd(PrefixUnits(f, order[..i]), ptr.unit, Units(ptr), q);
  }

  lemma RecountAll(f: Frontier, order: seq<Path>)
    requires forall p :: p in order <==> p in f
    ensures PrefixUnits(f, order) == FrontierUnits(f)
  {
    forall u: nat ensures u in PrefixUnits(f, order) <==> u in FrontierUnits(f) {
      PrefixUnitsMember(f, order, u);
    }
  }

  /** The reopening walk over the frontier's pointers, in any order that visits each
      slot once, counts the live units of every region. */
  method RecomputeLive(f: Frontier, order: seq<Path>, n: nat) returns (live: seq<nat>)
    requires forall p :: p in order <==> p in f
    requires forall i, j :: 0 <= i < j < |order| ==> order[i] != order[j]
    requires Disjoint(f) && forall p :: p in f ==> Framed(f[p])
    ensures live == RecountedLive(f, n)
  {
    live := seq(n, _ => 0);
    var i := 0;
    while i < |order|
      invariant 0 <= i <= |order| && |live| == n
      invariant forall r :: 0 <= r < n ==> live[r] == |OwnedIn(PrefixUnits(f, order[..i]), r)|
    {
      var ptr := f[order[i]].ptr;
      var r := RegionOf(ptr.unit);
      forall q | 0 <= q < n
        ensures |OwnedIn(PrefixUnits(f, order[..i + 1]), q)| == live[q] + if q == r then Units(ptr) else 0 {
        RecountOne(f, order, i, q);
      }
      if r < |live| {
        live := live[r := live[r] + Units(ptr)];
      }
      i := i + 1;
    }
    assert order[..i] == order;
    RecountAll(f, order);
  }
}

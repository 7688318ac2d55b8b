/** The storage engine as a state machine: one writer, background collectors, snapshot
    holders, a read-ahead cache and crashes, interleaved at the granularity of the
    locks and system calls of the source.

    A frontier is the finite map from frontier slots to disk records.  `Rec.image` is
    what the record at that pointer is meant to contain, one entry per 256-byte unit.
 */
module Reclaim {
  import opened Regions

  type Byte = x: int | 0 <= x < 256
  type Block = seq<Byte>
  type Path = seq<nat>

  predicate Covers(p: Ptr, u: nat) {
    p.unit <= u < p.unit + Units(p)
  }

  datatype Rec = Rec(ptr: Ptr, image: seq<Block>)

  function Le32(b: Block): nat
    requires |b| >= 4
  {
    (b[0] as nat) + 256 * (b[1] as nat) + 65536 * (b[2] as nat) + 16777216 * (b[3] as nat)
  }

  /** The image is a framed record of the pointer's length that fits one region. */
  predicate Framed(r: Rec) {
    && |r.image| == Units(r.ptr)
    && |r.image[0]| >= 4 && Le32(r.image[0]) == r.ptr.len
    && RegionOf(r.ptr.unit) == RegionOf(r.ptr.unit + Units(r.ptr) - 1)
  }

  type Frontier = map<Path, Rec>
  type Disk = map<nat, Block>

  function At(d: Disk, u: nat): Block {
    if u in d then d[u] else []
  }

  function ReadUnits(d: Disk, p: Ptr): (s: seq<Block>)
    ensures |s| == Units(p)
  {
    seq(Units(p), i requires 0 <= i => At(d, p.unit + i))
  }

  ghost predicate Intact(d: Disk, r: Rec) {
    Framed(r) && forall u: nat :: Covers(r.ptr, u) ==> At(d, u) == r.image[u - r.ptr.unit]
  }

  /** What a reader following slot `p` of frontier `f` gets from the file. */
  function ReadSlot(d: Disk, f: Frontier, p: Path): seq<Block>
    requires p in f
  {
    ReadUnits(d, f[p].ptr)
  }

  // --------------------------------------------------------------------- state

  /** Who a written but not yet installed record was written for. */
  datatype Use = Unclaimed | For(handle: nat, path: Path)
  datatype Pend = Pend(rec: Rec, run: nat, use: Use)

  /** A reserved run whose positioned write has not happened yet. */
  datatype Run = Run(base: nat, data: seq<Block>)

  datatype Owner = Slot(path: Path) | Reserved(unit: nat)

  /** A snapshot handle; a collector also carries the records it copied out and
      whether it has just seen the read-ahead cache empty. */
  datatype Handle = Handle(gen: nat, checked: bool, copies: map<Path, seq<Block>>)

  datatype Checkpoint = Idle | Synced(endPage: nat) | Committed
  datatype Manifest = NoManifest | Manifest(frontier: Frontier, endPage: nat)

  datatype State = State(
    a: Alloc,
    disk: Disk,
    dirty: set<nat>,               // units written since the last fsync
    frontier: Frontier,
    own: map<nat, Owner>,          // owner of every live unit
    pending: map<nat, Pend>,       // reserved records not installed yet, by first unit
    runs: map<nat, Run>,           // reserved runs not written yet
    nextRun: nat,
    views: map<nat, Frontier>,     // frozen frontier of every live generation
    handles: map<nat, Handle>,
    nextHandle: nat,
    manifest: Manifest,
    ckpt: Checkpoint,
    cache: map<nat, Rec>,          // read-ahead, by unit
    draining: bool                 // the writer saw the cache empty and will drain
  )

  const INIT: State :=
    State(EMPTY, map[], {}, map[], map[], map[], map[], 0, map[], map[], 0, NoManifest, Idle, map[], false)

  // --------------------------------------------------------------------- steps

  datatype Step =
    | Reserve(run: nat, units: nat, recs: map<nat, Rec>, cover: map<nat, nat>, data: seq<Block>)
    | PWrite(id: nat)
    | Attach(path: Path, unit: nat)
    | Detach(path: Path)
    | Evacuate(path: Path, unit: nat)
    | Pin
    | Clone(handle: nat)
    | Unpin(handle: nat)
    | CollectRead(handle: nat, path: Path)
    | CollectCheck(handle: nat)
    | CollectDrain(handle: nat)
    | CollectPlace(handle: nat, path: Path, unit: nat)
    | Install(unit: nat)
    | PersistSync
    | PersistCommit(endPage: nat)
    | PersistDone
    | Prefetch(path: Path)
    | CacheClear
    | DrainCheck
    | DrainStaged
    | CrashOpen(disk: Disk)

  /** The record's image is what writing the run will put at its units. */
  predicate InRun(run: Run, r: Rec) {
    && run.base <= r.ptr.unit && r.ptr.unit + Units(r.ptr) <= run.base + |run.data|
    && r.image == run.data[r.ptr.unit - run.base..r.ptr.unit - run.base + Units(r.ptr)]
  }

  /** The records tile the first `units` units of the run at `base`. */
  ghost predicate Tiles(base: nat, units: nat, recs: map<nat, Rec>, cover: map<nat, nat>, data: seq<Block>) {
    && units <= |data|
    && (forall u :: u in cover <==> base <= u < base + units)
    && (forall u :: u in cover ==> cover[u] in recs && Covers(recs[cover[u]].ptr, u))
    && (forall v :: v in recs ==>
      && recs[v].ptr.unit == v && Framed(recs[v])
      && base <= v && v + Units(recs[v].ptr) <= base + units
      && InRun(Run(base, data), recs[v])
      && (forall u: nat :: Covers(recs[v].ptr, u) ==> cover[u] == v))
  }

  ghost predicate Enabled(s: State, step: Step) {
    match step
    case Reserve(run, units, recs, cover, data) =>
      0 < units <= run <= REGION_UNITS && |data| == run && Ok(s.a) && Tiles(AllocUnit(s.a, run), units, recs, cover, data)
    case PWrite(id) => id in s.runs
    case Attach(path, v) => s.ckpt.Idle? && path !in s.frontier && Ready(s, v)
    case Detach(path) => s.ckpt.Idle? && path in s.frontier
    case Evacuate(path, v) =>
      && s.ckpt.Idle? && path in s.frontier && Ready(s, v)
      && s.pending[v].rec.ptr.len == s.frontier[path].ptr.len
      && s.pending[v].rec.image == ReadSlot(s.disk, s.frontier, path)
    case Pin => s.ckpt.Idle?
    case Clone(h) => h in s.handles
    case Unpin(h) => h in s.handles
    case CollectRead(h, path) => HasView(s, h) && path in s.views[s.handles[h].gen]
    case CollectCheck(h) => h in s.handles && s.cache == map[]
    case CollectDrain(h) => h in s.handles && s.handles[h].checked
    case CollectPlace(h, path, v) =>
      && HasView(s, h) && Ready(s, v)
      && path in s.views[s.handles[h].gen] && path in s.handles[h].copies
      && s.pending[v].rec.image == s.handles[h].copies[path]
      && s.pending[v].rec.ptr.len == s.views[s.handles[h].gen][path].ptr.len
    case Install(v) =>
      && s.ckpt.Idle? && v in s.pending && s.pending[v].use.For? && s.pending[v].run !in s.runs
      && HasView(s, s.pending[v].use.handle)
      && s.pending[v].use.path in s.views[s.handles[s.pending[v].use.handle].gen]
    case PersistSync => s.ckpt.Idle?
    case PersistCommit(e) => s.ckpt.Synced? && s.ckpt.endPage <= e <= s.a.endPage
    case PersistDone => s.ckpt.Committed?
    case Prefetch(path) => s.ckpt.Idle? && !s.draining && path in s.frontier
    case CacheClear => true
    case DrainCheck => s.cache == map[]
    case DrainStaged => s.draining
    case CrashOpen(d) => s.manifest.Manifest? && forall u :: u !in s.dirty ==> At(d, u) == At(s.disk, u)
  }

  /** A reserved record whose bytes are written and that nobody has claimed. */
  predicate Ready(s: State, v: nat) {
    v in s.pending && s.pending[v].use.Unclaimed? && s.pending[v].run !in s.runs
  }

  predicate HasView(s: State, h: nat) {
    h in s.handles && s.handles[h].gen in s.views
  }

  function Range(b: nat, n: nat): set<nat> {
    set u: nat | b <= u < b + n && Within(u, b, n)
  }

  function RunUnits(run: Run): set<nat> {
    Range(run.base, |run.data|)
  }

  function Overwrite(d: Disk, run: Run): (d': Disk)
    ensures forall u: nat :: At(d', u) == if u in RunUnits(run) then run.data[u - run.base] else At(d, u)
  {
    d + map u: nat | run.base <= u < run.base + |run.data| && Within(u, run.base, |run.data|) ::
          run.data[u - run.base]
  }

  function AddOwners(own: map<nat, Owner>, cover: map<nat, nat>): (own': map<nat, Owner>)
    ensures own'.Keys == own.Keys + cover.Keys
    ensures forall u :: u in own' ==> own'[u] == if u in cover then Reserved(cover[u]) else own[u]
  {
    own + map u | u in cover :: Reserved(cover[u])
  }

  function AddPending(pending: map<nat, Pend>, recs: map<nat, Rec>, run: nat): (pending': map<nat, Pend>)
    ensures pending'.Keys == pending.Keys + recs.Keys
    ensures forall v :: v in pending' ==>
      pending'[v] == if v in recs then Pend(recs[v], run, Unclaimed) else pending[v]
  {
    pending + map v | v in recs :: Pend(recs[v], run, Unclaimed)
  }

  function Disown(own: map<nat, Owner>, o: Owner): (own': map<nat, Owner>)
    ensures forall u :: u in own' <==> u in own && own[u] != o
    ensures forall u :: u in own' ==> own'[u] == own[u]
  {
    map u | u in own && own[u] != o :: own[u]
  }

  function Rename(own: map<nat, Owner>, o: Owner, o': Owner): (own': map<nat, Owner>)
    ensures own'.Keys == own.Keys
    ensures forall u :: u in own' ==> own'[u] == if own[u] == o then o' else own[u]
  {
    map u | u in own :: if own[u] == o then o' else own[u]
  }

  function DoReserve(s: State, run: nat, units: nat, recs: map<nat, Rec>, cover: map<nat, nat>, data: seq<Block>): (t: State)
    requires HeadIn(s.a)
    ensures t.views == s.views
  {
    s.(a := Allocated(s.a, run, units),
       own := AddOwners(s.own, cover),
       pending := AddPending(s.pending, recs, s.nextRun),
       runs := s.runs[s.nextRun := Run(AllocUnit(s.a, run), data)],
       nextRun := s.nextRun + 1)
  }

  function DoWrite(s: State, id: nat): (t: State)
    requires id in s.runs
    ensures t.views == s.views
  {
    s.(disk := Overwrite(s.disk, s.runs[id]), dirty := s.dirty + RunUnits(s.runs[id]), runs := s.runs - {id})
  }

  function DoAttach(s: State, path: Path, v: nat): (t: State)
    requires v in s.pending
    ensures t.views == s.views
  {
    s.(frontier := s.frontier[path := s.pending[v].rec],
       own := Rename(s.own, Reserved(v), Slot(path)),
       pending := s.pending - {v})
  }

  function DoDetach(s: State, path: Path): (t: State)
    requires path in s.frontier
    ensures t.views == s.views
  {
    var was := s.frontier[path].ptr;
    s.(a := Freed(s.a, was.unit, Units(was)),
       own := Disown(s.own, Slot(path)),
       frontier := s.frontier - {path})
  }

  /** Swing slot `path` to the reserved record `v` and free what it pointed at. */
  function Swung(s: State, path: Path, v: nat): (t: State)
    requires path in s.frontier && v in s.pending
    ensures t.views == s.views
  {
    DoAttach(DoDetach(s, path), path, v)
  }

  /** Drop a reserved record that nothing points at. */
  function Dropped(s: State, v: nat): (t: State)
    requires v in s.pending
    ensures t.views == s.views
  {
    var ptr := s.pending[v].rec.ptr;
    s.(a := Freed(s.a, ptr.unit, Units(ptr)),
       own := Disown(s.own, Reserved(v)),
       pending := s.pending - {v})
  }

  /** The re-verification a background install makes against the live frontier. */
  predicate StillCollected(s: State, v: nat)
    requires Enabled(s, Install(v))
  {
    var use := s.pending[v].use;
    use.path in s.frontier && s.frontier[use.path].ptr == s.views[s.handles[use.handle].gen][use.path].ptr
  }

  function OwnedIn(units: set<nat>, r: nat): set<nat> {
    set u | u in units && RegionOf(u) == r
  }

  ghost function FrontierUnits(f: Frontier): set<nat> {
    set p, u: nat | p in f && f[p].ptr.unit <= u < f[p].ptr.unit + Units(f[p].ptr) && Covers(f[p].ptr, u) :: u
  }

  ghost function FrontierOwner(f: Frontier, u: nat): Owner
    requires u in FrontierUnits(f)
  {
    var p :| p in f && Covers(f[p].ptr, u);
    Slot(p)
  }

  /** Live units per region, counted over the frontier of a checkpoint. */
  ghost function RecountedLive(f: Frontier, regions: nat): seq<nat> {
    seq(regions, r requires 0 <= r => |OwnedIn(FrontierUnits(f), r)|)
  }

  function DoPin(s: State): State {
    s.(a := Pinned(s.a),
       views := s.views[s.a.pinGen + 1 := s.frontier],
       handles := s.handles[s.nextHandle := Handle(s.a.pinGen + 1, false, map[])],
       nextHandle := s.nextHandle + 1)
  }

  function DoClone(s: State, h: nat): (t: State)
    requires h in s.handles
    ensures t.views == s.views
  {
    s.(a := PinnedAt(s.a, s.handles[h].gen),
       handles := s.handles[s.nextHandle := Handle(s.handles[h].gen, false, map[])],
       nextHandle := s.nextHandle + 1)
  }

  function DoUnpin(s: State, h: nat): State
    requires h in s.handles
  {
    var b := Unpinned(s.a, s.handles[h].gen);
    s.(a := b, handles := s.handles - {h}, views := s.views - (s.views.Keys - b.pins.Keys))
  }

  function DoCollectRead(s: State, h: nat, path: Path): (t: State)
    requires HasView(s, h) && path in s.views[s.handles[h].gen]
    ensures t.views == s.views
  {
    var c := s.handles[h];
    s.(handles := s.handles[h := c.(copies := c.copies[path := ReadSlot(s.disk, s.views[c.gen], path)])])
  }

  function DoPrefetch(s: State, path: Path): (t: State)
    requires path in s.frontier
    ensures t.views == s.views
  {
    var p := s.frontier[path].ptr;
    s.(cache := s.cache[p.unit := Rec(p, ReadUnits(s.disk, p))])
  }

  /** Reopen from the manifest on the disk `d` the crash left behind. */
  ghost function DoCrash(f: Frontier, endPage: nat, d: Disk): State {
    INIT.(a := Reopened(RecountedLive(f, DivCeil(endPage, REGION_PAGES))),
          disk := d, frontier := f, own := map u | u in FrontierUnits(f) :: FrontierOwner(f, u),
          manifest := Manifest(f, endPage))
  }

  ghost function Next(s: State, step: Step): State
    requires Enabled(s, step)
  {
    match step
    case Reserve(run, units, recs, cover, data) => DoReserve(s, run, units, recs, cover, data)
    case PWrite(id) => DoWrite(s, id)
    case Attach(path, v) => DoAttach(s, path, v)
    case Detach(path) => DoDetach(s, path)
    case Evacuate(path, v) => Swung(s, path, v)
    case Pin => DoPin(s)
    case Clone(h) => DoClone(s, h)
    case Unpin(h) => DoUnpin(s, h)
    case CollectRead(h, path) => DoCollectRead(s, h, path)
    case CollectCheck(h) => s.(handles := s.handles[h := s.handles[h].(checked := true)])
    case CollectDrain(h) => s.(a := Drained(s.a), handles := s.handles[h := s.handles[h].(checked := false)])
    case CollectPlace(h, path, v) => s.(pending := s.pending[v := s.pending[v].(use := For(h, path))])
    case Install(v) => if StillCollected(s, v) then Swung(s, s.pending[v].use.path, v) else Dropped(s, v)
    case PersistSync => s.(ckpt := Synced(s.a.endPage), dirty := {})
    case PersistCommit(e) => s.(ckpt := Committed, manifest := Manifest(s.frontier, e))
    case PersistDone => s.(ckpt := Idle, a := Persisted(s.a))
    case Prefetch(path) => DoPrefetch(s, path)
    case CacheClear => s.(cache := map[], a := Drained(s.a))
    case DrainCheck => s.(draining := true)
    case DrainStaged => s.(draining := false, a := Drained(s.a))
    case CrashOpen(d) => DoCrash(s.manifest.frontier, s.manifest.endPage, d)
  }

  // ----------------------------------------------------------------- invariant

  ghost predicate AllGuarded(a: Alloc, r: Rec, g: nat) {
    forall u: nat :: Covers(r.ptr, u) ==> Guarded(a, u, g)
  }

  ghost predicate AllCached(a: Alloc, r: Rec) {
    forall u: nat :: Covers(r.ptr, u) ==> Cached(a, u)
  }

  ghost predicate AllDurable(a: Alloc, r: Rec) {
    forall u: nat :: Covers(r.ptr, u) ==> Durable(a, u)
  }

  ghost predicate Clean(dirty: set<nat>, r: Rec) {
    forall u: nat :: Covers(r.ptr, u) ==> u !in dirty
  }

  predicate Apart(run: Run, r: Rec) {
    run.base + |run.data| <= r.ptr.unit || r.ptr.unit + Units(r.ptr) <= run.base
  }

  predicate Owns(frontier: Frontier, pending: map<nat, Pend>, o: Owner, u: nat) {
    match o
    case Slot(p) => p in frontier && Covers(frontier[p].ptr, u)
    case Reserved(v) => v in pending && Covers(pending[v].rec.ptr, u)
  }

  /** The live counts count exactly the owned units. */
  ghost predicate Counted(a: Alloc, own: map<nat, Owner>) {
    && (forall u :: u in own ==> Written(a, u))
    && (forall r :: 0 <= r < |a.live| ==> a.live[r] == |OwnedIn(own.Keys, r)|)
  }

  /** A unit is owned exactly by the slot or reserved record that covers it. */
  ghost predicate OwnersOk(own: map<nat, Owner>, frontier: Frontier, pending: map<nat, Pend>) {
    && (forall u :: u in own ==> Owns(frontier, pending, own[u], u))
    && (forall p :: p in frontier ==> OwnsAll(own, frontier[p], Slot(p)))
    && (forall v :: v in pending ==> pending[v].rec.ptr.unit == v && OwnsAll(own, pending[v].rec, Reserved(v)))
  }

  ghost predicate OwnsAll(own: map<nat, Owner>, r: Rec, o: Owner) {
    forall u: nat :: Covers(r.ptr, u) ==> u in own && own[u] == o
  }

  ghost predicate OwnOk(a: Alloc, own: map<nat, Owner>, frontier: Frontier, pending: map<nat, Pend>) {
    Counted(a, own) && OwnersOk(own, frontier, pending)
  }

  /** The run lies in one region, below the write position, and still owns its start. */
  ghost predicate RunPlaced(a: Alloc, own: map<nat, Owner>, run: Run) {
    && run.data != [] && run.base in own
    && (forall u :: u in RunUnits(run) ==> Written(a, u) && RegionOf(u) == RegionOf(run.base))
  }

  /** Only the run's own reserved records live in it. */
  ghost predicate RunOwners(runs: map<nat, Run>, own: map<nat, Owner>, pending: map<nat, Pend>) {
    forall id, u :: id in runs && u in RunUnits(runs[id]) && u in own ==> OwnedByRun(pending, own[u], id)
  }

  predicate OwnedByRun(pending: map<nat, Pend>, o: Owner, id: nat) {
    o.Reserved? && o.unit in pending && pending[o.unit].run == id
  }

  /** A run waiting to be written covers nothing anyone relies on. */
  ghost predicate RunsOk(s: State) {
    && (forall id :: id in s.runs ==> id < s.nextRun && RunPlaced(s.a, s.own, s.runs[id]))
    && RunOwners(s.runs, s.own, s.pending)
    && (forall id, g, p :: id in s.runs && g in s.views && p in s.views[g] ==> Apart(s.runs[id], s.views[g][p]))
    && (forall id, u :: id in s.runs && u in s.cache ==> Apart(s.runs[id], s.cache[u]))
    && (s.manifest.Manifest? ==> forall id, p :: id in s.runs && p in s.manifest.frontier ==>
          Apart(s.runs[id], s.manifest.frontier[p]))
  }

  ghost predicate PendOk(pend: Pend, runs: map<nat, Run>, nextRun: nat, disk: Disk) {
    && pend.run < nextRun && Framed(pend.rec)
    && (if pend.run in runs then InRun(runs[pend.run], pend.rec) else Intact(disk, pend.rec))
  }

  /** A reserved record is in its run until the run is written, then on disk. */
  ghost predicate PendingOk(s: State) {
    forall v :: v in s.pending ==> PendOk(s.pending[v], s.runs, s.nextRun, s.disk)
  }

  ghost predicate FrontierOk(s: State) {
    forall p :: p in s.frontier ==> Intact(s.disk, s.frontier[p])
  }

  /** Every record of every live snapshot is intact and guarded. */
  ghost predicate ViewsOk(s: State) {
    && s.views.Keys == s.a.pins.Keys
    && (forall g, p :: g in s.views && p in s.views[g] ==>
          Intact(s.disk, s.views[g][p]) && AllGuarded(s.a, s.views[g][p], g))
  }

  function HandlesAt(handles: map<nat, Handle>, g: nat): set<nat> {
    set h | h in handles && handles[h].gen == g
  }

  ghost predicate HandlesOk(s: State) {
    && (forall h :: h in s.handles ==> h < s.nextHandle && s.handles[h].gen in s.a.pins)
    && (forall g :: g in s.a.pins ==> s.a.pins[g] == |HandlesAt(s.handles, g)|)
  }

  ghost predicate CopiesOk(s: State) {
    && (forall h, p :: h in s.handles && p in s.handles[h].copies ==>
          HasView(s, h) && p in s.views[s.handles[h].gen] && s.handles[h].copies[p] == s.views[s.handles[h].gen][p].image)
    && (forall v :: v in s.pending && s.pending[v].use.For? ==> s.pending[v].use.handle < s.nextHandle)
    && (forall v :: v in s.pending && s.pending[v].use.For? && s.pending[v].use.handle in s.handles ==>
          CopyOf(s, s.pending[v]))
  }

  predicate CopyOf(s: State, pend: Pend)
    requires pend.use.For? && pend.use.handle in s.handles
  {
    && HasView(s, pend.use.handle)
    && var view := s.views[s.handles[pend.use.handle].gen];
       pend.use.path in view && pend.rec.image == view[pend.use.path].image
       && pend.rec.ptr.len == view[pend.use.path].ptr.len
  }

  ghost predicate Disjoint(f: Frontier) {
    forall p, q, u: nat :: p in f && q in f && Covers(f[p].ptr, u) && Covers(f[q].ptr, u) ==> p == q
  }

  /** Every record the last durable manifest names is intact, synced and unreachable
      for writes. */
  ghost predicate ManifestOk(s: State) {
    && (s.manifest.Manifest? ==> forall p :: p in s.manifest.frontier ==>
          var r := s.manifest.frontier[p];
          && Intact(s.disk, r) && Clean(s.dirty, r)
          && RegionOf(r.ptr.unit) < DivCeil(s.manifest.endPage, REGION_PAGES)
          && (!s.ckpt.Committed? ==> AllDurable(s.a, r)))
    && (s.ckpt.Committed? ==> s.manifest.Manifest? && s.manifest.frontier == s.frontier)
    && (s.ckpt.Synced? ==> s.ckpt.endPage <= s.a.endPage && forall p :: p in s.frontier ==>
          Clean(s.dirty, s.frontier[p])
          && RegionOf(s.frontier[p].ptr.unit) < DivCeil(s.ckpt.endPage, REGION_PAGES))
    && (s.manifest.Manifest? ==> Disjoint(s.manifest.frontier))
  }

  /** What a collector that saw the cache empty relies on until it drains. */
  ghost predicate Unaliased(a: Alloc, r: nat, g: nat) {
    r !in a.staged && forall h :: h in a.hold && h.region == r ==> g <= h.tag
  }

  /** Every read-ahead entry equals the file at its unit. */
  ghost predicate CacheOk(s: State) {
    && (forall u :: u in s.cache ==>
          s.cache[u].ptr.unit == u && Intact(s.disk, s.cache[u]) && AllCached(s.a, s.cache[u]))
    && (forall u, h :: u in s.cache && h in s.handles && s.handles[h].checked ==>
          Unaliased(s.a, RegionOf(u), s.handles[h].gen))
    && (s.draining ==> s.cache == map[])
  }

  ghost predicate Inv(s: State) {
    && Ok(s.a)
    && OwnOk(s.a, s.own, s.frontier, s.pending)
    && RunsOk(s) && PendingOk(s) && FrontierOk(s)
    && ViewsOk(s) && HandlesOk(s) && CopiesOk(s) && ManifestOk(s) && CacheOk(s)
  }

  // ------------------------------------------------------------- set arithmetic

  lemma {:induction false} RangeSize(b: nat, n: nat)
    ensures |Range(b, n)| == n
  {
    if n > 0 {
      RangeSize(b, n - 1);
      assert Range(b, n) == Range(b, n - 1) + {b + n - 1};
    }
  }

  /** Crediting a run of units inside one region raises exactly that region's count. */
  lemma OwnedAdd(units: set<nat>, b: nat, n: nat, r: nat)
    requires n > 0 && RegionOf(b) == RegionOf(b + n - 1)
    requires units !! Range(b, n)
    ensures |OwnedIn(units + Range(b, n), r)| == |OwnedIn(units, r)| + if r == RegionOf(b) then n else 0
  {
    RangeSize(b, n);
    if r == RegionOf(b) {
      assert OwnedIn(units + Range(b, n), r) == OwnedIn(units, r) + Range(b, n);
    } else {
      assert OwnedIn(units + Range(b, n), r) == OwnedIn(units, r);
    }
  }
}

/** The log-structured region allocator of the flat file.

    `Alloc` is the value of all its fields and each operation is a function on it;
    the class `RegionAlloc` holds the same fields, updates them in place and is
    proved to compute exactly those functions.  A dead region must pass the
    snapshot hold, the checkpoint quarantine and the read-ahead stage before it is
    written again: `Guarded`, `Durable` and `Cached` say what each stage protects,
    and the lemmas below say which operations keep that protection.
 */
module Regions {

  const REGION_PAGES: nat := 8
  const UNITS_PER_PAGE: nat := 64
  const REGION_UNITS: nat := 512

  function DivCeil(a: nat, b: nat): nat
    requires b > 0
  {
    (a + b - 1) / b
  }

  function RegionOf(unit: nat): nat {
    unit / REGION_UNITS
  }

  // -------------------------------------------------------------------- addresses

  const ADDR_UNIT: nat := 256
  const RECORD_HDR: nat := 4
  const REGION_BYTES: nat := 131072

  /** Where a record starts, in units, and the length of its payload in bytes. */
  datatype Ptr = Ptr(unit: nat, len: nat)

  function UnitsFor(bytes: nat): (u: nat)
    ensures bytes <= u * ADDR_UNIT < bytes + ADDR_UNIT
    ensures 0 < bytes <= REGION_BYTES ==> 0 < u <= REGION_UNITS
  {
    DivCeil(bytes, ADDR_UNIT)
  }

  /** The units a record occupies, header included. */
  function Units(p: Ptr): (n: nat)
    ensures n > 0
  {
    UnitsFor(RECORD_HDR + p.len)
  }

  predicate Within(x: int, from: nat, n: nat) {
    from <= x < from + n
  }

  // -------------------------------------------------------------------- allocator

  /** A dead region parked until no pin of generation `tag` or older is live. */
  datatype Held = Held(region: nat, tag: nat)

  datatype Alloc = Alloc(
    live: seq<nat>,          // live units per region
    head: nat,               // region being appended to
    next: nat,               // next free unit of the head
    free: seq<nat>,          // dead regions ready to be reopened
    young: seq<bool>,        // opened for writing since the last checkpoint
    quarantine: seq<nat>,    // dead, but the last checkpoint may name them
    staged: seq<nat>,        // dead, but a read-ahead entry may alias them
    hold: seq<Held>,         // dead, but a live snapshot may read them
    pinGen: nat,             // last pin generation handed out
    pins: map<nat, nat>,     // live pins by generation
    endPage: nat             // high-water mark of the file, in pages
  )

  const EMPTY: Alloc := Alloc([], 0, 0, [], [], [], [], [], 0, map[], 0)

  function Padded<T>(s: seq<T>, n: nat, v: T): (r: seq<T>)
    ensures |r| >= n && |r| >= |s| && r[..|s|] == s
    ensures forall i :: |s| <= i < |r| ==> r[i] == v
    ensures |s| < n ==> |r| == n
  {
    if |s| >= n then s else s + seq(n - |s|, _ => v)
  }

  // ---------------------------------------------------------------- operations

  function NewHeadRegion(a: Alloc): nat {
    if a.free == [] then DivCeil(a.endPage, REGION_PAGES) else a.free[|a.free| - 1]
  }

  function OpenNewHead(a: Alloc): Alloc {
    var r := NewHeadRegion(a);
    var rest := if a.free == [] then [] else a.free[..|a.free| - 1];
    a.(free := rest, head := r, next := r * REGION_UNITS,
       live := Padded(a.live, r + 1, 0), young := Padded(a.young, r + 1, false)[r := true])
  }

  predicate NeedsNewHead(a: Alloc, run: nat) {
    a.live == [] || a.next + run > a.head * REGION_UNITS + REGION_UNITS
  }

  function HeadFor(a: Alloc, run: nat): Alloc {
    if NeedsNewHead(a, run) then OpenNewHead(a) else a
  }

  function Max(a: nat, b: nat): nat {
    if a < b then b else a
  }

  predicate HeadIn(a: Alloc) {
    a.live != [] ==> a.head < |a.live|
  }

  /** Reserve `run` units at the head, of which `units` are credited as live. */
  function Allocated(a: Alloc, run: nat, units: nat): Alloc
    requires HeadIn(a)
  {
    Credited(HeadFor(a, run), run, units)
  }

  function AllocUnit(a: Alloc, run: nat): nat {
    HeadFor(a, run).next
  }

  predicate IsFresh(a: Alloc, r: nat) {
    r < |a.young| && a.young[r]
  }

  /** Where a region goes at the moment its last live unit dies. */
  function Park(a: Alloc, r: nat): Alloc {
    if a.pins != map[] then a.(hold := a.hold + [Held(r, a.pinGen)])
    else if IsFresh(a, r) then a.(staged := a.staged + [r])
    else a.(quarantine := a.quarantine + [r])
  }

  function Freed(a: Alloc, unit: nat, units: nat): Alloc {
    var r := RegionOf(unit);
    if r >= |a.live| then a
    else
      var was := a.live[r];
      var now := if was >= units then was - units else 0;
      var b := a.(live := a.live[r := now]);
      if was > 0 && now == 0 && r != a.head then Park(b, r) else b
  }

  function Tagged(regions: seq<nat>, tag: nat): seq<Held> {
    seq(|regions|, i requires 0 <= i < |regions| => Held(regions[i], tag))
  }

  /** After a checkpoint became durable. */
  function Persisted(a: Alloc): Alloc {
    var b := if a.pins != map[]
             then a.(hold := a.hold + Tagged(a.quarantine, a.pinGen), quarantine := [])
             else a.(staged := a.staged + a.quarantine, quarantine := []);
    b.(young := seq(|a.young|, _ => false))
  }

  /** Some live pin is as old as `tag`. */
  predicate Blocked(pins: map<nat, nat>, tag: nat) {
    exists g :: g in pins && g <= tag
  }

  datatype Routed = Routed(kept: seq<Held>, staged: seq<nat>, quarantine: seq<nat>)

  function Route(hold: seq<Held>, pins: map<nat, nat>, young: seq<bool>): Routed {
    if hold == [] then Routed([], [], [])
    else
      var h := hold[|hold| - 1];
      var rest := Route(hold[..|hold| - 1], pins, young);
      if Blocked(pins, h.tag) then rest.(kept := rest.kept + [h])
      else if h.region < |young| && young[h.region] then rest.(staged := rest.staged + [h.region])
      else rest.(quarantine := rest.quarantine + [h.region])
  }

  function Released(a: Alloc): Alloc {
    var to := Route(a.hold, a.pins, a.young);
    a.(hold := to.kept, staged := a.staged + to.staged, quarantine := a.quarantine + to.quarantine)
  }

  function PinCount(pins: map<nat, nat>, g: nat): nat {
    if g in pins then pins[g] else 0
  }

  function PinnedAt(a: Alloc, g: nat): Alloc {
    a.(pins := a.pins[g := PinCount(a.pins, g) + 1])
  }

  function Pinned(a: Alloc): Alloc {
    PinnedAt(a.(pinGen := a.pinGen + 1), a.pinGen + 1)
  }

  function Unpinned(a: Alloc, g: nat): Alloc {
    Released(DropPin(a, g))
  }

  function Drained(a: Alloc): Alloc {
    a.(free := a.free + a.staged, staged := [])
  }

  /** The allocator `open` builds from a checkpoint with the given live counts. */
  function Reopened(live: seq<nat>): Alloc {
    var n := |live|;
    EMPTY.(live := live + [0], young := seq(n + 1, _ => false), head := n,
           next := n * REGION_UNITS, endPage := n * REGION_PAGES)
  }

  // ----------------------------------------------------------------- invariant

  function HeldRegions(hold: seq<Held>): seq<nat> {
    seq(|hold|, i requires 0 <= i < |hold| => hold[i].region)
  }

  /** All regions on some list, with multiplicity. */
  function Parked(a: Alloc): multiset<nat> {
    multiset(a.free) + multiset(a.staged) + multiset(a.quarantine) + multiset(HeldRegions(a.hold))
  }

  /** The four lists are duplicate-free and pairwise disjoint, and hold only dead
      regions other than the head. */
  ghost predicate ListsOk(a: Alloc) {
    && (forall r :: r in Parked(a) ==> Parked(a)[r] == 1)
    && (forall r :: r in Parked(a) ==> Dead(a, r))
  }

  predicate Dead(a: Alloc, r: nat) {
    r < |a.live| && a.live[r] == 0 && r != a.head
  }

  ghost predicate PinsOk(a: Alloc) {
    && (forall g :: g in a.pins ==> 0 < a.pins[g] && g <= a.pinGen)
    && (forall h :: h in a.hold ==> h.tag <= a.pinGen)
  }

  function FileRegions(a: Alloc): nat {
    DivCeil(a.endPage, REGION_PAGES)
  }

  /** The head is a region of its own and everything beyond the file end is unused. */
  predicate HeadOk(a: Alloc) {
    && |a.young| == |a.live|
    && (a.live == [] ==> a.head == 0 && a.next == 0 && a.endPage == 0)
    && (a.live != [] ==>
      && a.head < |a.live|
      && a.head * REGION_UNITS <= a.next <= a.head * REGION_UNITS + REGION_UNITS
      && (a.next > a.head * REGION_UNITS ==> |a.live| <= FileRegions(a) && a.next <= a.endPage * UNITS_PER_PAGE)
      && (a.next == a.head * REGION_UNITS ==> |a.live| == FileRegions(a) + 1 && a.head == FileRegions(a)))
  }

  ghost predicate Ok(a: Alloc) {
    HeadIn(a) && ListsOk(a) && PinsOk(a) && HeadOk(a)
  }

  // ------------------------------------------------------ what the lists protect

  /** Below the write position: no reservation the allocator can make right now
      without reopening a region covers `u`. */
  predicate Written(a: Alloc, u: nat) {
    RegionOf(u) < |a.live| && (RegionOf(u) == a.head ==> u < a.next)
  }

  /** No reservation made before the next drain can cover `u`. */
  ghost predicate Cached(a: Alloc, u: nat) {
    Written(a, u) && RegionOf(u) !in a.free
  }

  /** Snapshots of generation `g` may rely on `u`. */
  ghost predicate Guarded(a: Alloc, u: nat, g: nat) {
    && Cached(a, u)
    && RegionOf(u) !in a.staged
    && (forall h :: h in a.hold && h.region == RegionOf(u) ==> g <= h.tag)
  }

  /** The last checkpoint may rely on `u`. */
  ghost predicate Durable(a: Alloc, u: nat) {
    Cached(a, u) && RegionOf(u) !in a.staged && !IsFresh(a, RegionOf(u))
  }

  // -------------------------------------------------------------------- lemmas

  lemma ParkedIffListed(a: Alloc, r: nat)
    ensures Parked(a)[r] > 0 <==>
      r in a.free || r in a.staged || r in a.quarantine || (exists h :: h in a.hold && h.region == r)
  {
    var hs := HeldRegions(a.hold);
    assert r in multiset(hs) <==> r in hs;
    if r in hs {
      var i :| 0 <= i < |hs| && hs[i] == r;
      assert a.hold[i] in a.hold;
    }
    if exists h :: h in a.hold && h.region == r {
      var h :| h in a.hold && h.region == r;
      var i :| 0 <= i < |a.hold| && a.hold[i] == h;
      assert hs[i] == r;
    }
    assert r in multiset(a.free) <==> r in a.free;
    assert r in multiset(a.staged) <==> r in a.staged;
    assert r in multiset(a.quarantine) <==> r in a.quarantine;
  }

  /** A region with a live unit is on no list, so its units are safe for everyone. */
  lemma LiveIsGuarded(a: Alloc, u: nat, g: nat)
    requires Ok(a) && Written(a, u) && a.live[RegionOf(u)] > 0
    ensures Guarded(a, u, g) && RegionOf(u) !in a.quarantine
  {
    ParkedIffListed(a, RegionOf(u));
  }

  lemma HeldRegionsSnoc(hold: seq<Held>, h: Held)
    ensures HeldRegions(hold + [h]) == HeldRegions(hold) + [h.region]
  {
  }

  /** Routing the held regions loses none and duplicates none. */
  lemma {:induction false} RouteKeepsRegions(hold: seq<Held>, pins: map<nat, nat>, young: seq<bool>)
    ensures var to := Route(hold, pins, young);
      multiset(HeldRegions(hold)) == multiset(HeldRegions(to.kept)) + multiset(to.staged) + multiset(to.quarantine)
  {
    if hold != [] {
      var n := |hold| - 1;
      RouteKeepsRegions(hold[..n], pins, young);
      assert hold == hold[..n] + [hold[n]];
      HeldRegionsSnoc(hold[..n], hold[n]);
      var rest := Route(hold[..n], pins, young);
      HeldRegionsSnoc(rest.kept, hold[n]);
      SumPlusOne(multiset(HeldRegions(rest.kept)), multiset(rest.staged), multiset(rest.quarantine), hold[n].region);
    }
  }

  lemma SumPlusOne(k: multiset<nat>, s: multiset<nat>, q: multiset<nat>, r: nat)
    ensures k + s + q + multiset{r} == (k + multiset{r}) + s + q
    ensures k + s + q + multiset{r} == k + (s + multiset{r}) + q
    ensures k + s + q + multiset{r} == k + s + (q + multiset{r})
  {
  }

  /** The region is held, and no live pin needs it any more. */
  ghost predicate Loose(hold: seq<Held>, pins: map<nat, nat>, r: nat) {
    exists h :: h in hold && h.region == r && !Blocked(pins, h.tag)
  }

  /** Routing keeps exactly the blocked regions and sends exactly the others on, by
      freshness. */
  lemma {:induction false} RouteIsExact(hold: seq<Held>, pins: map<nat, nat>, young: seq<bool>)
    ensures forall h :: h in Route(hold, pins, young).kept <==> h in hold && Blocked(pins, h.tag)
    ensures forall r: nat :: r in Route(hold, pins, young).staged <==> r < |young| && young[r] && Loose(hold, pins, r)
    ensures forall r: nat :: r in Route(hold, pins, young).quarantine <==> !(r < |young| && young[r]) && Loose(hold, pins, r)
  {
    if hold != [] {
      var n := |hold| - 1;
      RouteIsExact(hold[..n], pins, young);
      LooseSnoc(hold, pins);
      hide Blocked, Loose;
    }
  }

  lemma LooseSnoc(hold: seq<Held>, pins: map<nat, nat>)
    requires hold != []
    ensures var n := |hold| - 1;
      && (forall h :: h in hold <==> h in hold[..n] || h == hold[n])
      && forall r :: Loose(hold, pins, r) <==> Loose(hold[..n], pins, r) || (hold[n].region == r && !Blocked(pins, hold[n].tag))
  {
    hide Blocked;
    var n := |hold| - 1;
    assert hold == hold[..n] + [hold[n]];
  }

  lemma ReleasedKeepsOk(a: Alloc)
    requires Ok(a)
    ensures Ok(Released(a)) && Parked(Released(a)) == Parked(a)
  {
    RouteKeepsRegions(a.hold, a.pins, a.young);
    RouteIsExact(a.hold, a.pins, a.young);
    ListsTransfer(a, Released(a));
  }

  /** Moving regions between lists, without reviving one, keeps the lists sound. */
  lemma ListsTransfer(a: Alloc, b: Alloc)
    requires ListsOk(a) && Parked(b) == Parked(a)
    requires forall r :: r in Parked(a) && Dead(a, r) ==> Dead(b, r)
    ensures ListsOk(b)
  {
  }

  lemma OpenedOk(a: Alloc)
    requires Ok(a) && (a.live == [] || a.next > a.head * REGION_UNITS)
    ensures var b := OpenNewHead(a);
      && PinsOk(b) && b.head < |b.live| == |b.young| && b.live[b.head] == 0
      && (forall u :: Cached(a, u) ==> RegionOf(u) != b.head)
      && b.head <= FileRegions(a) && |b.live| <= FileRegions(a) + 1
      && (|b.live| == FileRegions(a) + 1 ==> b.head == FileRegions(a))
  {
    if a.free != [] {
      var n := |a.free| - 1;
      assert a.free[n] in a.free;
      ParkedIffListed(a, a.free[n]);
    }
  }

  lemma OpenedListsOk(a: Alloc)
    requires Ok(a) && (a.live == [] || a.next > a.head * REGION_UNITS)
    ensures ListsOk(OpenNewHead(a))
  {
    var b := OpenNewHead(a);
    if a.free == [] {
      assert Parked(b) == Parked(a);
    } else {
      var n := |a.free| - 1;
      assert a.free == a.free[..n] + [a.free[n]];
      assert Parked(a) == Parked(b) + multiset{b.head};
      assert b.head in Parked(a);
    }
    forall r | r in Parked(b) ensures Parked(b)[r] == 1 && Dead(b, r) {
      assert r in Parked(a) && Dead(a, r);
    }
  }

  /** The head has room for a run of that many units. */
  predicate HeadRoom(b: Alloc, run: nat) {
    && b.head < |b.live| == |b.young|
    && b.head * REGION_UNITS <= b.next && b.next + run <= b.head * REGION_UNITS + REGION_UNITS
    && b.head <= FileRegions(b) && |b.live| <= FileRegions(b) + 1
    && (|b.live| == FileRegions(b) + 1 ==> b.head == FileRegions(b))
  }

  lemma HeadForHasRoom(a: Alloc, run: nat)
    requires Ok(a) && 0 < run <= REGION_UNITS
    ensures HeadRoom(HeadFor(a, run), run)
  {
    if NeedsNewHead(a, run) {
      OpenedOk(a);
    }
  }

  lemma HeadForKeepsLists(a: Alloc, run: nat)
    requires Ok(a) && 0 < run <= REGION_UNITS
    ensures ListsOk(HeadFor(a, run)) && PinsOk(HeadFor(a, run))
  {
    if NeedsNewHead(a, run) {
      OpenedListsOk(a);
    }
  }

  function Credited(b: Alloc, run: nat, units: nat): Alloc
    requires b.head < |b.live|
  {
    b.(next := b.next + run,
       live := b.live[b.head := b.live[b.head] + units],
       endPage := Max(b.endPage, DivCeil(b.next + run, UNITS_PER_PAGE)))
  }

  lemma CreditedKeepsOk(b: Alloc, run: nat, units: nat)
    requires ListsOk(b) && PinsOk(b) && 0 < run && HeadRoom(b, run)
    ensures Ok(Credited(b, run, units))
  {
    ListsTransfer(b, Credited(b, run, units));
  }

  lemma AllocatedKeepsOk(a: Alloc, run: nat, units: nat)
    requires Ok(a) && 0 < units <= run <= REGION_UNITS
    ensures Ok(Allocated(a, run, units))
  {
    HeadForHasRoom(a, run);
    HeadForKeepsLists(a, run);
    CreditedKeepsOk(HeadFor(a, run), run, units);
  }

  /** The heart of reclamation safety: a reservation lies inside one region, above
      every unit anyone may rely on, and takes no protection away. */
  lemma AllocatedIsUnused(a: Alloc, run: nat, units: nat)
    requires Ok(a) && 0 < units <= run <= REGION_UNITS
    ensures var base, b := AllocUnit(a, run), Allocated(a, run, units);
      && RegionOf(base) == RegionOf(base + run - 1) == b.head
      && base + run == b.next
      && (forall u :: base <= u < base + run ==> !Cached(a, u) && Written(b, u))
      && (forall u :: Cached(a, u) ==> Cached(b, u) && IsFresh(b, RegionOf(u)) == IsFresh(a, RegionOf(u)))
      && b.staged == a.staged && b.hold == a.hold && b.quarantine == a.quarantine
  {
    if NeedsNewHead(a, run) {
      OpenedOk(a);
      var b := OpenNewHead(a);
      forall u | Cached(a, u) ensures Cached(Allocated(a, run, units), u) {
        assert RegionOf(u) != b.head;
      }
    }
  }

  lemma ParkAddsRegion(a: Alloc, r: nat)
    ensures Parked(Park(a, r)) == Parked(a) + multiset{r}
  {
    HeldRegionsSnoc(a.hold, Held(r, a.pinGen));
  }

  lemma LoweredKeepsOk(a: Alloc, r: nat, now: nat)
    requires Ok(a) && r < |a.live| && (a.live[r] == 0 ==> now == 0)
    ensures Ok(a.(live := a.live[r := now]))
    ensures a.live[r] > 0 ==> r !in Parked(a.(live := a.live[r := now]))
  {
    var b := a.(live := a.live[r := now]);
    assert Parked(b) == Parked(a);
    ListsTransfer(a, b);
  }

  lemma FreedKeepsOk(a: Alloc, unit: nat, units: nat)
    requires Ok(a)
    ensures Ok(Freed(a, unit, units))
  {
    var r := RegionOf(unit);
    if r < |a.live| {
      var now := if a.live[r] >= units then a.live[r] - units else 0;
      LoweredKeepsOk(a, r, now);
      if a.live[r] > 0 && now == 0 && r != a.head {
        ParkKeepsOk(a.(live := a.live[r := now]), r);
      }
    }
  }

  lemma ParkKeepsLists(b: Alloc, r: nat)
    requires ListsOk(b) && Dead(b, r) && r !in Parked(b)
    ensures ListsOk(Park(b, r))
  {
    ParkAddsRegion(b, r);
    var c := Park(b, r);
    assert Parked(c)[r] == 1;
    forall q | q in Parked(c) ensures Parked(c)[q] == 1 && Dead(c, q) {
      if q != r {
        assert q in Parked(b);
      }
    }
  }

  lemma ParkKeepsOk(b: Alloc, r: nat)
    requires Ok(b) && Dead(b, r) && r !in Parked(b)
    ensures Ok(Park(b, r))
  {
    ParkKeepsLists(b, r);
    assert PinsOk(Park(b, r));
  }

  /** Freeing keeps every protection: a region that dies under a live pin is held
      for it, and one the checkpoint names is quarantined. */
  lemma FreedKeepsProtection(a: Alloc, unit: nat, units: nat)
    requires Ok(a)
    ensures var b := Freed(a, unit, units);
      && (forall u :: Cached(a, u) ==> Cached(b, u))
      && (forall u :: Durable(a, u) ==> Durable(b, u))
      && (forall u, g :: g in a.pins && Guarded(a, u, g) ==> Guarded(b, u, g))
      && b.free == a.free && b.pins == a.pins
      && (forall r :: r in b.staged && r !in a.staged ==> a.pins == map[])
      && (forall h :: h in b.hold && h !in a.hold ==> h.tag == a.pinGen)
  {
  }

  lemma TaggedRegions(regions: seq<nat>, tag: nat)
    ensures HeldRegions(Tagged(regions, tag)) == regions
    ensures forall h :: h in Tagged(regions, tag) ==> h.tag == tag && h.region in regions
  {
  }

  lemma HeldRegionsConcat(x: seq<Held>, y: seq<Held>)
    ensures HeldRegions(x + y) == HeldRegions(x) + HeldRegions(y)
  {
  }

  lemma PersistedKeepsOk(a: Alloc)
    requires Ok(a)
    ensures Ok(Persisted(a)) && Parked(Persisted(a)) == Parked(a)
  {
    TaggedRegions(a.quarantine, a.pinGen);
    HeldRegionsConcat(a.hold, Tagged(a.quarantine, a.pinGen));
    ListsTransfer(a, Persisted(a));
  }

  /** A checkpoint keeps what snapshots and read-ahead rely on, and everything live
      becomes durable. */
  lemma PersistedKeepsProtection(a: Alloc)
    requires Ok(a)
    ensures var b := Persisted(a);
      && (forall u :: Cached(a, u) ==> Cached(b, u))
      && (forall u, g :: g in a.pins && Guarded(a, u, g) ==> Guarded(b, u, g))
      && (forall u :: Written(a, u) && a.live[RegionOf(u)] > 0 ==> Durable(b, u))
      && (forall r :: r in b.staged && r !in a.staged ==> a.pins == map[])
      && (forall h :: h in b.hold && h !in a.hold ==> h.tag == a.pinGen)
  {
    TaggedRegions(a.quarantine, a.pinGen);
    PersistedKeepsOk(a);
    forall u | Written(a, u) && a.live[RegionOf(u)] > 0 ensures Durable(Persisted(a), u) {
      LiveIsGuarded(Persisted(a), u, 0);
    }
  }

  function DropPin(a: Alloc, g: nat): Alloc {
    if g !in a.pins then a
    else if a.pins[g] <= 1 then a.(pins := a.pins - {g})
    else a.(pins := a.pins[g := a.pins[g] - 1])
  }

  lemma DropPinKeepsOk(a: Alloc, g: nat)
    requires Ok(a)
    ensures Ok(DropPin(a, g))
  {
    ListsTransfer(a, DropPin(a, g));
  }

  lemma UnpinnedKeepsOk(a: Alloc, g: nat)
    requires Ok(a)
    ensures Ok(Unpinned(a, g))
  {
    DropPinKeepsOk(a, g);
    ReleasedKeepsOk(DropPin(a, g));
  }

  /** Dropping one pin keeps what every remaining pin relies on, whatever the order
      in which pins come and go. */
  lemma UnpinnedKeepsProtection(a: Alloc, g0: nat)
    ensures var b := Unpinned(a, g0);
      && (forall u :: Cached(a, u) ==> Cached(b, u))
      && (forall u :: Durable(a, u) ==> Durable(b, u))
      && (forall u, g :: g in b.pins && Guarded(a, u, g) ==> Guarded(b, u, g))
      && (forall r :: r in b.staged && r !in a.staged ==>
            exists h :: h in a.hold && h.region == r && !Blocked(b.pins, h.tag))
      && (forall h :: h in b.hold ==> h in a.hold)
  {
    var c := DropPin(a, g0);
    RouteIsExact(c.hold, c.pins, c.young);
    var to := Route(c.hold, c.pins, c.young);
    var b := Unpinned(a, g0);
    assert b.staged == a.staged + to.staged;
  }

  lemma PinnedKeepsOk(a: Alloc)
    requires Ok(a)
    ensures Ok(Pinned(a)) && Pinned(a).pins == a.pins[a.pinGen + 1 := 1]
  {
    ListsTransfer(a, Pinned(a));
  }

  lemma PinnedAtKeepsOk(a: Alloc, g: nat)
    requires Ok(a) && g in a.pins
    ensures Ok(PinnedAt(a, g))
  {
    ListsTransfer(a, PinnedAt(a, g));
  }

  lemma DrainedKeepsProtection(a: Alloc)
    requires Ok(a)
    ensures var b := Drained(a);
      && Ok(b) && Parked(b) == Parked(a)
      && (forall u :: Cached(a, u) && RegionOf(u) !in a.staged ==> Cached(b, u))
      && (forall u :: Durable(a, u) ==> Durable(b, u))
      && (forall u, g :: Guarded(a, u, g) ==> Guarded(b, u, g))
  {
    assert Parked(Drained(a)) == Parked(a);
  }

  lemma ReopenedOk(live: seq<nat>)
    ensures Ok(Reopened(live))
  {
    var b := Reopened(live);
    assert Parked(b) == multiset{};
    assert FileRegions(b) == |live|;
  }

  // ---------------------------------------------------------------- the object

  class RegionAlloc {
    var live: seq<nat>
    var headRegion: nat
    var nextUnit: nat
    var freeRegions: seq<nat>
    var young: seq<bool>
    var quarantine: seq<nat>
    var stagedFree: seq<nat>
    var snapHold: seq<Held>
    var pinGen: nat
    var livePins: map<nat, nat>
    var endPage: nat

    ghost function View(): Alloc
      reads this
    {
      Alloc(live, headRegion, nextUnit, freeRegions, young, quarantine, stagedFree, snapHold,
            pinGen, livePins, endPage)
    }

    constructor ()
      ensures View() == EMPTY && Ok(View())
    {
      live, headRegion, nextUnit, freeRegions, young := [], 0, 0, [], [];
      quarantine, stagedFree, snapHold, pinGen, livePins, endPage := [], [], [], 0, map[], 0;
      new;
      assert Parked(View()) == multiset{};
    }

    method EnsureRegion(r: nat)
      modifies this`live, this`young
      ensures live == Padded(old(live), r + 1, 0) && young == Padded(old(young), r + 1, false)
    {
      if r >= |young| {
        young := young + seq(r + 1 - |young|, _ => false);
      }
      if r >= |live| {
        live := live + seq(r + 1 - |live|, _ => 0);
      }
    }

    method OpenHead()
      modifies this
      ensures View() == OpenNewHead(old(View()))
      ensures if old(freeRegions) == [] then freeRegions == [] && headRegion == DivCeil(endPage, REGION_PAGES)
              else old(freeRegions) == freeRegions + [headRegion]
      ensures nextUnit == headRegion * REGION_UNITS && headRegion < |young| && young[headRegion]
    {
      var r;
      if freeRegions == [] {
        r := DivCeil(endPage, REGION_PAGES);
      } else {
        r := freeRegions[|freeRegions| - 1];
        freeRegions := freeRegions[..|freeRegions| - 1];
      }
      headRegion := r;
      nextUnit := r * REGION_UNITS;
      EnsureRegion(r);
      young := young[r := true];
    }

    method Reserve(run: nat, units: nat) returns (unit: nat)
      requires HeadIn(View()) && run <= REGION_UNITS
      modifies this
      ensures unit == AllocUnit(old(View()), run)
      ensures View() == Allocated(old(View()), run, units)
    {
      if live == [] || nextUnit + run > headRegion * REGION_UNITS + REGION_UNITS {
        OpenHead();
      }
      unit := Credit(run, units);
    }

    method Credit(run: nat, units: nat) returns (unit: nat)
      requires headRegion < |live|
      modifies this`nextUnit, this`live, this`endPage
      ensures unit == old(nextUnit) && View() == Credited(old(View()), run, units)
    {
      unit := nextUnit;
      nextUnit := nextUnit + run;
      live := live[headRegion := live[headRegion] + units];
      var page := DivCeil(nextUnit, UNITS_PER_PAGE);
      if endPage < page {
        endPage := page;
      }
    }

    method Free(unit: nat, units: nat)
      modifies this
      ensures View() == Freed(old(View()), unit, units)
      ensures freeRegions == old(freeRegions) && livePins == old(livePins) && young == old(young)
      ensures var r := RegionOf(unit);
        if r < |live| && 0 < old(live)[r] <= units && r != headRegion then
          && live == old(live)[r := 0]
          && snapHold == old(snapHold) + (if livePins != map[] then [Held(r, pinGen)] else [])
          && stagedFree == old(stagedFree) + (if livePins == map[] && r < |young| && young[r] then [r] else [])
          && quarantine == old(quarantine) + (if livePins == map[] && !(r < |young| && young[r]) then [r] else [])
        else
          snapHold == old(snapHold) && stagedFree == old(stagedFree) && quarantine == old(quarantine)
    {
      var r := RegionOf(unit);
      if r >= |live| {
        return;
      }
      var was := live[r];
      live := live[r := if was >= units then was - units else 0];
      if was > 0 && live[r] == 0 && r != headRegion {
        if livePins != map[] {
          snapHold := snapHold + [Held(r, pinGen)];
        } else if r < |young| && young[r] {
          stagedFree := stagedFree + [r];
        } else {
          quarantine := quarantine + [r];
        }
      }
    }

    method OnPersisted()
      modifies this
      ensures View() == Persisted(old(View()))
      ensures quarantine == [] && |young| == |old(young)| && forall r :: 0 <= r < |young| ==> !young[r]
      ensures livePins == map[] ==> stagedFree == old(stagedFree) + old(quarantine) && snapHold == old(snapHold)
      ensures livePins != map[] ==>
        && stagedFree == old(stagedFree) && |snapHold| == |old(snapHold)| + |old(quarantine)| && old(snapHold) <= snapHold
        && forall i :: 0 <= i < |old(quarantine)| ==> snapHold[|old(snapHold)| + i] == Held(old(quarantine)[i], pinGen)
    {
      if livePins != map[] {
        var tag := pinGen;
        snapHold := snapHold + Tagged(quarantine, tag);
      } else {
        stagedFree := stagedFree + quarantine;
      }
      quarantine := [];
      young := seq(|young|, _ => false);
    }

    /** The smallest live generation, if any. */
    method OldestPin() returns (found: bool, oldest: nat)
      ensures found <==> livePins != map[]
      ensures found ==> oldest in livePins && forall g :: g in livePins ==> oldest <= g
    {
      var todo := livePins.Keys;
      found, oldest := false, 0;
      while todo != {}
        invariant todo <= livePins.Keys
        invariant found <==> todo != livePins.Keys
        invariant found ==> oldest in livePins
        invariant forall g :: g in livePins && g !in todo ==> found && oldest <= g
        decreases |todo|
      {
        var g :| g in todo;
        if !found || g < oldest {
          found, oldest := true, g;
        }
        todo := todo - {g};
      }
      if !found {
        assert livePins.Keys == {};
      }
    }

    method ReleaseSnapHold()
      modifies this
      ensures View() == Released(old(View()))
    {
      var found, oldest := OldestPin();
      var taken := snapHold;
      var kept := [];
      var i := 0;
      while i < |taken|
        modifies this`stagedFree, this`quarantine
        invariant 0 <= i <= |taken|
        invariant var to := Route(taken[..i], livePins, young);
          && kept == to.kept && stagedFree == old(stagedFree) + to.staged
          && quarantine == old(quarantine) + to.quarantine
      {
        assert taken[..i + 1][..i] == taken[..i];
        var h := taken[i];
        assert Blocked(livePins, h.tag) <==> found && oldest <= h.tag;
        if found && oldest <= h.tag {
          kept := kept + [h];
        } else if h.region < |young| && young[h.region] {
          stagedFree := stagedFree + [h.region];
        } else {
          quarantine := quarantine + [h.region];
        }
        i := i + 1;
      }
      assert taken[..i] == taken;
      snapHold := kept;
    }

    method Pin() returns (g: nat)
      modifies this
      ensures View() == Pinned(old(View())) && g == pinGen
    {
      pinGen := pinGen + 1;
      livePins := livePins[pinGen := PinCount(livePins, pinGen) + 1];
      g := pinGen;
    }

    method PinAt(g: nat)
      modifies this
      ensures View() == PinnedAt(old(View()), g)
    {
      livePins := livePins[g := PinCount(livePins, g) + 1];
    }

    method Unpin(g: nat)
      modifies this
      ensures View() == Unpinned(old(View()), g)
    {
      if g in livePins {
        if livePins[g] <= 1 {
          livePins := livePins - {g};
        } else {
          livePins := livePins[g := livePins[g] - 1];
        }
      }
      ReleaseSnapHold();
    }

    method DrainStaged()
      modifies this
      ensures View() == Drained(old(View()))
      ensures freeRegions == old(freeRegions) + old(stagedFree) && stagedFree == []
    {
      freeRegions := freeRegions + stagedFree;
      stagedFree := [];
    }
  }
}

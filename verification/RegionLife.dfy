/** The way of a dead region: it is parked once when it dies, no list loses it, no hold
    outlasts the pins it waits for, and when the last pin is gone one checkpoint and one drain
    make every parked region free again.
 */
module RegionLife {
  import opened Regions

  /** Everything but the live counts and the four lists. */
  predicate SameRest(a: Alloc, b: Alloc) {
    b.head == a.head && b.next == a.next && b.young == a.young && b.pinGen == a.pinGen && b.pins == a.pins && b.endPage == a.endPage
  }

  predicate SameLists(a: Alloc, b: Alloc) {
    b.free == a.free && b.staged == a.staged && b.quarantine == a.quarantine && b.hold == a.hold
  }

  /** A free that takes the last live unit of a region that is not the head. */
  predicate Dies(a: Alloc, unit: nat, units: nat) {
    var r := RegionOf(unit);
    r < |a.live| && 0 < a.live[r] <= units && r != a.head
  }

  /** A region that dies was on no list and is then on exactly one, chosen by who may still
      need it; any other free leaves the lists alone. */
  lemma FreedIsExact(a: Alloc, unit: nat, units: nat)
    requires Ok(a)
    ensures var b, r := Freed(a, unit, units), RegionOf(unit);
      && SameRest(a, b) && b.free == a.free && |b.live| == |a.live|
      && (forall q :: 0 <= q < |a.live| && q != r ==> b.live[q] == a.live[q])
      && (r < |a.live| ==> b.live[r] == if a.live[r] < units then 0 else a.live[r] - units)
    ensures var b, r := Freed(a, unit, units), RegionOf(unit);
      if Dies(a, unit, units) then
        && r !in Parked(a) && Parked(b) == Parked(a) + multiset{r}
        && (a.pins != map[] ==> b.hold == a.hold + [Held(r, a.pinGen)])
        && (a.pins == map[] && IsFresh(a, r) ==> b.staged == a.staged + [r])
        && (a.pins == map[] && !IsFresh(a, r) ==> b.quarantine == a.quarantine + [r])
      else SameLists(a, b)
  {
    var r := RegionOf(unit);
    if Dies(a, unit, units) {
      var c := a.(live := a.live[r := 0]);
      assert Parked(c) == Parked(a);
      ParkAddsRegion(c, r);
    }
  }

  /** A reservation credits exactly its units to the head, and touches no other region. */
  lemma ReservedCounts(a: Alloc, run: nat, units: nat)
    requires Ok(a) && 0 < units <= run <= REGION_UNITS
    ensures var b := Allocated(a, run, units);
      && b.head < |b.live| && b.next == AllocUnit(a, run) + run
      && b.live[b.head] == (if b.head < |a.live| then a.live[b.head] else 0) + units
      && (forall q :: 0 <= q < |b.live| && q != b.head ==> b.live[q] == if q < |a.live| then a.live[q] else 0)
      && (forall q: nat :: q != b.head ==> IsFresh(b, q) == IsFresh(a, q))
  {
    hide ListsOk, PinsOk, DivCeil;
  }

  /** A reservation stays on the head while it fits, reopens a free region when there is one,
      and grows the file only when there is none. */
  lemma ReservedIsExact(a: Alloc, run: nat, units: nat)
    requires Ok(a) && 0 < units <= run <= REGION_UNITS
    ensures var b := Allocated(a, run, units);
      if a.live != [] && a.next + run <= a.head * REGION_UNITS + REGION_UNITS then
        b.head == a.head && AllocUnit(a, run) == a.next && SameLists(a, b) && b.young == a.young
      else
        && AllocUnit(a, run) == b.head * REGION_UNITS && IsFresh(b, b.head)
        && (a.free != [] ==> a.free == b.free + [b.head] && FileRegions(b) == FileRegions(a))
        && (a.free == [] ==> b.head == FileRegions(a) && SameLists(a, b) && FileRegions(b) == FileRegions(a) + 1)
  {
    var b := Allocated(a, run, units);
    FileGrows(a.endPage, b.head, run);
    if a.live != [] && a.next > a.head * REGION_UNITS {
      HeadAtEnd(a);
    }
    if a.free != [] {
      LastFree(a);
    }
    hide ListsOk, PinsOk, HeadOk, DivCeil;
  }

  lemma HeadAtEnd(a: Alloc)
    requires HeadOk(a) && a.live != [] && a.next > a.head * REGION_UNITS
    ensures |a.live| <= FileRegions(a)
  {
  }

  /** Writing into region `r` grows a file of `pages` to the end of that region at most. */
  lemma FileGrows(pages: nat, r: nat, run: nat)
    requires 0 < run <= REGION_UNITS
    ensures var after := Max(pages, DivCeil(r * REGION_UNITS + run, UNITS_PER_PAGE));
      DivCeil(after, REGION_PAGES) == Max(DivCeil(pages, REGION_PAGES), r + 1)
  {
  }

  lemma LastFree(a: Alloc)
    requires Ok(a) && a.free != []
    ensures a.free[|a.free| - 1] < |a.live|
  {
    hide PinsOk, HeadOk, Parked;
    var r := a.free[|a.free| - 1];
    assert r in a.free;
    ParkedIffListed(a, r);
    assert Dead(a, r);
  }

  // ------------------------------------------------------------- nothing is held long

  /** Every held region waits for a pin that is still live. */
  ghost predicate HoldNeeded(a: Alloc) {
    forall h :: h in a.hold ==> Blocked(a.pins, h.tag)
  }

  lemma NewestBlocks(a: Alloc)
    requires PinsOk(a) && a.pins != map[]
    ensures Blocked(a.pins, a.pinGen)
  {
    assert a.pins.Keys != {};
    var g :| g in a.pins;
  }

  lemma MorePinsBlock(pins: map<nat, nat>, pins': map<nat, nat>, tag: nat)
    requires Blocked(pins, tag) && pins.Keys <= pins'.Keys
    ensures Blocked(pins', tag)
  {
    var g :| g in pins && g <= tag;
    assert g in pins';
  }

  /** What is newly held waits for a live pin. */
  lemma ParkingHoldsNeeded(a: Alloc, unit: nat, units: nat)
    requires Ok(a) && HoldNeeded(a)
    ensures HoldNeeded(Freed(a, unit, units)) && HoldNeeded(Persisted(a)) && HoldNeeded(Drained(a))
  {
    hide Blocked, ListsOk, HeadOk;
    if a.pins != map[] {
      NewestBlocks(a);
    }
    TaggedRegions(a.quarantine, a.pinGen);
    hide PinsOk;
  }

  lemma PinningHoldsNeeded(a: Alloc, g: nat)
    requires HoldNeeded(a)
    ensures HoldNeeded(Pinned(a)) && HoldNeeded(PinnedAt(a, g))
  {
    hide Blocked;
    forall h | h in a.hold ensures Blocked(Pinned(a).pins, h.tag) && Blocked(PinnedAt(a, g).pins, h.tag) {
      MorePinsBlock(a.pins, Pinned(a).pins, h.tag);
      MorePinsBlock(a.pins, PinnedAt(a, g).pins, h.tag);
    }
  }

  /** An unpin lets go of exactly what waits for no pin any more. */
  lemma UnpinningHoldsNeeded(a: Alloc, g: nat)
    ensures HoldNeeded(Unpinned(a, g))
  {
    hide Blocked, Route, Loose;
    var c := DropPin(a, g);
    RouteIsExact(c.hold, c.pins, c.young);
  }

  lemma ReservingHoldsNeeded(a: Alloc, run: nat, units: nat)
    requires HeadIn(a) && HoldNeeded(a)
    ensures HoldNeeded(Allocated(a, run, units))
  {
    hide Blocked;
  }

  /** With no pin live, one checkpoint and one drain make every parked region free. */
  lemma EveryParkedRegionComesBack(a: Alloc)
    requires Ok(a) && HoldNeeded(a) && a.pins == map[]
    ensures var b := Drained(Persisted(a));
      && b.staged == [] && b.quarantine == [] && b.hold == []
      && multiset(b.free) == Parked(a) && a.free <= b.free
  {
    assert forall i :: 0 <= i < |a.hold| ==> a.hold[i] in a.hold;
    assert a.hold == [];
    var b := Drained(Persisted(a));
    assert b.free == a.free + (a.staged + a.quarantine);
    assert HeldRegions(a.hold) == [];
  }

  /** A fresh region that dies unpinned needs only the drain. */
  lemma FreshRegionComesBack(a: Alloc, unit: nat, units: nat)
    requires Ok(a) && a.pins == map[] && Dies(a, unit, units) && IsFresh(a, RegionOf(unit))
    ensures RegionOf(unit) in Drained(Freed(a, unit, units)).free
  {
    var b := Freed(a, unit, units);
    FreedIsExact(a, unit, units);
    assert RegionOf(unit) in b.staged;
  }

  /** What a checkpoint does to the lists. */
  lemma PersistedIsExact(a: Alloc)
    ensures var b := Persisted(a);
      && b.free == a.free && b.quarantine == [] && b.live == a.live && b.pins == a.pins && b.head == a.head && b.next == a.next
      && (forall r: nat :: !IsFresh(b, r))
      && (a.pins == map[] ==> b.staged == a.staged + a.quarantine && b.hold == a.hold)
      && (a.pins != map[] ==>
        && b.staged == a.staged && a.hold <= b.hold && HeldRegions(b.hold) == HeldRegions(a.hold) + a.quarantine
        && forall i :: |a.hold| <= i < |b.hold| ==> b.hold[i].tag == a.pinGen)
  {
  }
}

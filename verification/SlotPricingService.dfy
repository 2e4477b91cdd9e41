/**
 * The two ways slot prices are brought to the price list, as the service writes them
 * (src/pricing/slot-pricing.service.ts).
 */
module SlotPricingService {
  import opened Base
  import opened ClubData
  import opened Pricing
  import opened Tables

  /** A future slot in scope whose price is not what it should be. */
  predicate NeedsChange(db: Db, clubId: ClubId, courtId: Option<CourtId>, now: Instant, s: SlotId)
    requires s < |db.slots|
  {
    InScope(db, db.slots[s], clubId, courtId, now) && TargetPrice(db, s).Some?
    && TargetPrice(db, s).value != db.slots[s].priceCents
  }

  /** The slots below `n` that need a change, in order. */
  function ChangesTo(db: Db, clubId: ClubId, courtId: Option<CourtId>, now: Instant, n: nat): (ids: seq<SlotId>)
    requires n <= |db.slots|
    ensures forall s: SlotId :: s in ids <==> s < n && NeedsChange(db, clubId, courtId, now, s)
  {
    if n == 0 then []
    else ChangesTo(db, clubId, courtId, now, n - 1) +
         (if NeedsChange(db, clubId, courtId, now, n - 1) then [n - 1] else [])
  }

  /** How many of the first `n` slots differ between two tables. */
  function Differing(before: seq<Slot>, after: seq<Slot>, n: nat): nat
    requires n <= |before| && n <= |after|
  {
    if n == 0 then 0 else Differing(before, after, n - 1) + (if before[n - 1] != after[n - 1] then 1 else 0)
  }

  /** The change list counts exactly the slots the repricing changes. */
  lemma {:induction false} ChangesCount(db: Db, clubId: ClubId, courtId: Option<CourtId>, now: Instant, n: nat)
    requires n <= |db.slots|
    ensures |ChangesTo(db, clubId, courtId, now, n)| ==
            Differing(db.slots, RepriceFutureSlots(db, clubId, courtId, now).slots, n)
  {
    if n > 0 {
      ChangesCount(db, clubId, courtId, now, n - 1);
      var after := RepriceFutureSlots(db, clubId, courtId, now).slots;
      assert after[n - 1] == if InScope(db, db.slots[n - 1], clubId, courtId, now) then Repriced(db, n - 1)
                             else db.slots[n - 1];
      hide TargetPrice, InScope;
    }
  }

  class SlotPricingService {
    const prisma: Database

    constructor (prisma: Database)
      ensures this.prisma == prisma
    {
      this.prisma := prisma;
    }

    /** Returns how many slots changed. */
    method RepriceFuture(clubId: ClubId, courtId: Option<CourtId>, now: Instant) returns (changed: nat)
      modifies prisma`slots
      ensures prisma.Rows() == RepriceFutureSlots(old(prisma.Rows()), clubId, courtId, now)
      ensures changed == Differing(old(prisma.slots), prisma.slots, |old(prisma.slots)|)
    {
      hide TargetPrice, InScope, Differing;
      var db := prisma.Rows();
      var changes: seq<SlotId> := [];
      for s := 0 to |prisma.slots|
        invariant changes == ChangesTo(db, clubId, courtId, now, s)
      {
        if InScope(db, prisma.slots[s], clubId, courtId, now) {
          var priceCents := TargetPrice(db, s);
          if priceCents.Some? && priceCents.value != prisma.slots[s].priceCents {
            changes := changes + [s];
          }
        }
      }
      for k := 0 to |changes|
        invariant |prisma.slots| == |db.slots|
        invariant forall s :: 0 <= s < |db.slots| ==>
          prisma.slots[s] == if s in changes[..k] then Repriced(db, s) else db.slots[s]
      {
        var s := changes[k];
        assert s in changes;
        assert changes[..k + 1] == changes[..k] + [s];
        prisma.slots := prisma.slots[s := prisma.slots[s].(priceCents := TargetPrice(db, s).value)];
      }
      assert changes[..|changes|] == changes;
      assert prisma.slots == RepriceFutureSlots(db, clubId, courtId, now).slots;
      ChangesCount(db, clubId, courtId, now, |db.slots|);
      return |changes|;
    }

    /** The price the slot ends up with; None when it is gone. */
    method RepriceOne(s: SlotId, clubId: Option<ClubId>) returns (priceCents: Option<nat>)
      modifies prisma`slots
      ensures (prisma.Rows(), priceCents) == RepriceSlot(old(prisma.Rows()), s, clubId)
    {
      hide TargetPrice;
      var db := prisma.Rows();
      if !(s < |prisma.slots| && (clubId.None? || prisma.slots[s].clubId == clubId.value)) {
        return None;
      }
      var target := TargetPrice(db, s);
      if target.None? {
        assert prisma.slots[s := prisma.slots[s]] == prisma.slots;
        return Some(prisma.slots[s].priceCents);
      }
      if target.value != prisma.slots[s].priceCents {
        prisma.slots := prisma.slots[s := prisma.slots[s].(priceCents := target.value)];
      } else {
        assert prisma.slots[s := prisma.slots[s]] == prisma.slots;
      }
      return target;
    }
  }
}

/**
 * Slot price snapshots against the price list (src/pricing/slot-pricing.service.ts): what a slot
 * should cost today, and the two ways the service brings slots there.
 */
module Pricing {
  import opened Base
  import opened ClubData
  import opened RowMoves

  /** Money already changed hands, or a live transfer quote is out. */
  predicate IsSold(b: Booking) {
    b.status.PendingPayment?
    || b.transferAmountCents.Some?
    || b.creditAppliedCents > 0
    || b.localPaymentCents > 0
    || b.playerPayments > 0
  }

  function ActiveOn(db: Db, s: SlotId): (ids: seq<BookingId>)
    ensures forall k :: 0 <= k < |ids| ==> ids[k] < |db.bookings| && HoldsSlot(db.bookings[ids[k]], s)
    ensures forall i: nat :: i < |db.bookings| && HoldsSlot(db.bookings[i], s) ==> i in ids
    ensures forall j, k :: 0 <= j < k < |ids| ==> ids[j] < ids[k]
  {
    Where(db.bookings, b => HoldsSlot(b, s))
  }

  /** A fijo whose row was removed no longer sets a price: its bookings lose the link. */
  predicate IsFijo(db: Db, b: Booking) {
    b.fijoId.Some? && b.fijoId.value in db.fijoPrices
  }

  function FirstFijoPrice(db: Db, ids: seq<BookingId>): Option<nat>
    requires forall k :: 0 <= k < |ids| ==> ids[k] < |db.bookings|
  {
    if ids == [] then None
    else if IsFijo(db, db.bookings[ids[0]]) then Some(db.fijoPrices[db.bookings[ids[0]].fijoId.value])
    else FirstFijoPrice(db, ids[1..])
  }

  function ListPrice(db: Db, slot: Slot): nat {
    if slot.courtId in db.courts then db.courts[slot.courtId].listPrice(slot.startsAt) else slot.priceCents
  }

  /** None when the slot was sold at its current price and must keep it. */
  function TargetPrice(db: Db, s: SlotId): Option<nat>
    requires s < |db.slots|
  {
    var active := ActiveOn(db, s);
    if exists k :: 0 <= k < |active| && IsSold(db.bookings[active[k]]) then None
    else
      var fijo := FirstFijoPrice(db, active);
      if fijo.Some? then fijo else Some(ListPrice(db, db.slots[s]))
  }

  function Repriced(db: Db, s: SlotId): Slot
    requires s < |db.slots|
  {
    var target := TargetPrice(db, s);
    if target.Some? then db.slots[s].(priceCents := target.value) else db.slots[s]
  }

  /** One slot, scoped to a club when one is given; also the price it ends up with. */
  function RepriceSlot(db: Db, s: SlotId, clubId: Option<ClubId>): (Db, Option<nat>) {
    if s < |db.slots| && (clubId.None? || db.slots[s].clubId == clubId.value) then
      var slot := Repriced(db, s);
      (db.(slots := db.slots[s := slot]), Some(slot.priceCents))
    else (db, None)
  }

  predicate InScope(db: Db, slot: Slot, clubId: ClubId, courtId: Option<CourtId>, now: Instant) {
    && slot.clubId == clubId
    && slot.courtId in db.courts
    && db.courts[slot.courtId].clubId == clubId
    && (courtId.Some? ==> slot.courtId == courtId.value)
    && now < slot.startsAt
  }

  function RepriceFutureSlots(db: Db, clubId: ClubId, courtId: Option<CourtId>, now: Instant): Db {
    db.(slots := seq(|db.slots|, s requires 0 <= s < |db.slots| =>
                       if InScope(db, db.slots[s], clubId, courtId, now) then Repriced(db, s) else db.slots[s]))
  }

  // ── What a price can still move ─────────────────────────────────────────────

  ghost predicate SoldOn(db: Db, s: SlotId) {
    exists i :: 0 <= i < |db.bookings| && HoldsSlot(db.bookings[i], s) && IsSold(db.bookings[i])
  }

  lemma OnlyActive(db: Db, s: SlotId, i: BookingId)
    requires OneLivePerSlot(db.bookings) && i < |db.bookings| && HoldsSlot(db.bookings[i], s)
    ensures ActiveOn(db, s) == [i]
  {
    var active := ActiveOn(db, s);
    hide ActiveOn;
    assert i in active;
    assert forall j :: 0 <= j < |active| ==> active[j] == i;
    var first, last := active[0], active[|active| - 1];
    assert |active| > 1 ==> first < last;
  }

  /** The one live booking of a slot decides: sold keeps the price, a fijo sets its own, else the list does. */
  lemma TargetPriceMeaning(db: Db, s: SlotId)
    requires OneLivePerSlot(db.bookings) && s < |db.slots|
    ensures TargetPrice(db, s).None? <==> SoldOn(db, s)
    ensures forall i :: 0 <= i < |db.bookings| && HoldsSlot(db.bookings[i], s) && !IsSold(db.bookings[i]) ==>
              TargetPrice(db, s) == Some(if IsFijo(db, db.bookings[i]) then db.fijoPrices[db.bookings[i].fijoId.value]
                                         else ListPrice(db, db.slots[s]))
    ensures !IsHeld(db.bookings, s) ==> TargetPrice(db, s) == Some(ListPrice(db, db.slots[s]))
  {
    if i: nat :| i < |db.bookings| && HoldsSlot(db.bookings[i], s) {
      OnlyActive(db, s, i);
      hide ActiveOn, HoldsSlot, ListPrice;
      assert [i][1..] == [];
      assert FirstFijoPrice(db, [i]) == if IsFijo(db, db.bookings[i])
                                        then Some(db.fijoPrices[db.bookings[i].fijoId.value]) else None;
      forall j | 0 <= j < |db.bookings| && HoldsSlot(db.bookings[j], s)
        ensures j == i
      {
        OnlyActive(db, s, j);
        assert [j][0] == [i][0];
      }
    } else {
      NobodyActive(db, s);
    }
  }

  lemma NobodyActive(db: Db, s: SlotId)
    ensures !IsHeld(db.bookings, s) ==> ActiveOn(db, s) == []
  {
    if ActiveOn(db, s) != [] {
      var i := ActiveOn(db, s)[0];
      assert HoldsSlot(db.bookings[i], s);
    }
  }

  /** Money on a slot, or not, never depends on what the slot costs. */
  lemma {:induction false} PriceBlind(db: Db, slots: seq<Slot>, s: SlotId)
    requires |slots| == |db.slots| && s < |slots|
    requires slots[s] == db.slots[s].(priceCents := slots[s].priceCents)
    requires db.slots[s].courtId in db.courts
    ensures TargetPrice(db.(slots := slots), s) == TargetPrice(db, s)
  {
    var c := db.(slots := slots);
    assert ActiveOn(c, s) == ActiveOn(db, s);
    FijoPriceBlind(db, c, ActiveOn(db, s));
  }

  lemma {:induction false} FijoPriceBlind(db: Db, c: Db, ids: seq<BookingId>)
    requires forall k :: 0 <= k < |ids| ==> ids[k] < |db.bookings|
    requires c.bookings == db.bookings && c.fijoPrices == db.fijoPrices
    ensures FirstFijoPrice(c, ids) == FirstFijoPrice(db, ids)
  {
    if ids != [] {
      FijoPriceBlind(db, c, ids[1..]);
    }
  }

  /**
   * After a repricing every future slot in scope costs its target, sold ones and everything else
   * keep their price, and nothing but prices moved.
   */
  lemma RepriceFutureSlotsSettles(db: Db, clubId: ClubId, courtId: Option<CourtId>, now: Instant)
    requires Inv(db)
    ensures var c := RepriceFutureSlots(db, clubId, courtId, now);
      && Inv(c) && Evolves(db, c) && (forall p :: Balance(c, p) == Balance(db, p))
      && (forall s :: 0 <= s < |db.slots| ==> c.slots[s] == db.slots[s].(priceCents := c.slots[s].priceCents))
      && (forall s :: 0 <= s < |db.slots| && InScope(db, db.slots[s], clubId, courtId, now) ==>
            (SoldOn(db, s) ==> c.slots[s].priceCents == db.slots[s].priceCents)
            && (!SoldOn(db, s) ==> TargetPrice(db, s) == Some(c.slots[s].priceCents)))
      && (forall s :: 0 <= s < |db.slots| && !InScope(db, db.slots[s], clubId, courtId, now) ==>
            c.slots[s] == db.slots[s])
  {
    var c := RepriceFutureSlots(db, clubId, courtId, now);
    forall s | 0 <= s < |db.slots|
      ensures SoundSlot(c.slots[s])
      ensures SoldOn(db, s) <==> TargetPrice(db, s).None?
    {
      assert SoundSlot(db.slots[s]);
      TargetPriceMeaning(db, s);
    }
    UniqueSame(db.slots, c.slots);
    SlotsOnlyKeeps(db, c.slots);
  }

  /** Running it again changes nothing. */
  lemma RepriceFutureSlotsTwice(db: Db, clubId: ClubId, courtId: Option<CourtId>, now: Instant)
    ensures var c := RepriceFutureSlots(db, clubId, courtId, now);
            RepriceFutureSlots(c, clubId, courtId, now) == c
  {
    var c := RepriceFutureSlots(db, clubId, courtId, now);
    var d := RepriceFutureSlots(c, clubId, courtId, now);
    forall s | 0 <= s < |db.slots|
      ensures d.slots[s] == c.slots[s]
    {
      if InScope(db, db.slots[s], clubId, courtId, now) {
        PriceBlind(db, c.slots, s);
      }
    }
    assert d.slots == c.slots;
  }

  /** The one-slot repricing does to a future slot of the club exactly what the sweep does to it. */
  lemma RepriceSlotAgrees(db: Db, s: SlotId, clubId: ClubId, now: Instant)
    requires s < |db.slots| && InScope(db, db.slots[s], clubId, None, now)
    ensures RepriceSlot(db, s, Some(clubId)).0.slots[s] == RepriceFutureSlots(db, clubId, None, now).slots[s]
    ensures forall t :: 0 <= t < |db.slots| && t != s ==> RepriceSlot(db, s, Some(clubId)).0.slots[t] == db.slots[t]
  {
  }

  lemma PriceChangeKeeps(db: Db, s: SlotId, priceCents: nat)
    requires Inv(db) && s < |db.slots|
    ensures var c := db.(slots := db.slots[s := db.slots[s].(priceCents := priceCents)]);
            Inv(c) && Evolves(db, c) && (forall p :: Balance(c, p) == Balance(db, p))
  {
    var slots := db.slots[s := db.slots[s].(priceCents := priceCents)];
    assert SoundSlot(db.slots[s]);
    UniqueSame(db.slots, slots);
    SlotsOnlyKeeps(db, slots);
  }

  lemma RepriceSlotKeeps(db: Db, s: SlotId, clubId: Option<ClubId>)
    requires Inv(db)
    ensures var c := RepriceSlot(db, s, clubId).0;
            Inv(c) && Evolves(db, c) && (forall p :: Balance(c, p) == Balance(db, p)) && c.bookings == db.bookings
  {
    if s < |db.slots| {
      PriceChangeKeeps(db, s, Repriced(db, s).priceCents);
    }
    hide Inv, Balance, TargetPrice;
  }
}

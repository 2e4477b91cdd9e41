/**
 * What letting go of a booking leaves behind: its court back on sale at today's price, its credit
 * returned, and nothing else moved, for one booking and for a whole expiry sweep
 * (src/bookings/bookings.service.ts, cancel, releasePendingSlot and findAndCancelExpiredPending).
 */
module ReleasedCourts {
  import opened Base
  import opened ClubData
  import opened RowMoves
  import opened Pricing
  import opened BookingRules
  import opened BookingLaws

  /** The slot back on sale, quoted from the price list. */
  function OnSale(db: Db, s: SlotId): Slot
    requires s < |db.slots|
  {
    db.slots[s].(status := Available, priceCents := ListPrice(db, db.slots[s]))
  }

  lemma SoleHolder(db: Db, i: BookingId)
    requires Inv(db) && i < |db.bookings| && Live(db.bookings[i])
    ensures db.bookings[i].slotId < |db.slots|
    ensures forall b: Booking :: !Live(b) ==>
              !IsHeld(db.bookings[i := b], db.bookings[i].slotId) && OneLivePerSlot(db.bookings[i := b])
  {
    hide SoundMoney, RefsSingleUse, BookedIsHeld, UniqueStarts, SoundSlots;
  }

  /** A closed booking's slot is free, and repricing it quotes the list price. */
  lemma ClosedThenRepriced(db: Db, i: BookingId, outcome: Option<DepositOutcome>, refund: Cents, clubId: Option<ClubId>)
    requires Inv(db) && i < |db.bookings| && Live(db.bookings[i])
    requires clubId.Some? ==> clubId.value == db.bookings[i].clubId
    ensures db.bookings[i].slotId < |db.slots|
    ensures var s := db.bookings[i].slotId;
            var c := RepriceSlot(Close(db, i, outcome, refund), s, clubId).0;
            && c.slots == db.slots[s := OnSale(db, s)]
            && c.bookings == db.bookings[i := Closed(db.bookings[i], outcome)]
            && c.courts == db.courts
  {
    SoleHolder(db, i);
    SlotOfItsClub(db, i);
    hide Inv, OneLivePerSlot, TargetPrice;
    var s := db.bookings[i].slotId;
    var closed := Close(db, i, outcome, refund);
    TargetPriceMeaning(closed, s);
  }

  lemma SlotOfItsClub(db: Db, i: BookingId)
    requires Inv(db) && i < |db.bookings|
    ensures db.bookings[i].slotId < |db.slots| && db.slots[db.bookings[i].slotId].clubId == db.bookings[i].clubId
  {
    hide SoundMoney, RefsSingleUse, BookedIsHeld, UniqueStarts, SoundSlots, OneLivePerSlot, LiveHoldsBooked;
  }

  /**
   * A cancellation is accepted exactly for a listed booking that is not cancelled yet. It closes that
   * booking alone, puts its court back on sale at the list price and leaves every other court alone.
   */
  lemma CancelExactly(db: Db, clubId: ClubId, i: BookingId, now: Instant)
    requires Inv(db)
    ensures var c := Cancel(db, clubId, i, now);
            && (c.result.Ok? <==> i < |db.bookings| && db.bookings[i].clubId == clubId && !db.bookings[i].deleted
                                  && Live(db.bookings[i]))
            && (c.result.Err? ==> c.db == db)
            && (c.result.Ok? ==>
                  && db.bookings[i].slotId < |db.slots|
                  && c.db.slots == db.slots[db.bookings[i].slotId := OnSale(db, db.bookings[i].slotId)]
                  && c.db.bookings == db.bookings[i := Closed(db.bookings[i],
                                                              CancellationOutcome(db, db.bookings[i], now).0)])
  {
    if Visible(db, clubId, i) && Live(db.bookings[i]) {
      var (outcome, refund) := CancellationOutcome(db, db.bookings[i], now);
      ClosedThenRepriced(db, i, outcome, refund, Some(clubId));
      hide Inv, RepriceSlot, Close, OnSale;
    }
  }

  // ── The sweep ───────────────────────────────────────────────────────────────

  ghost predicate LetsGo(db: Db, ids: seq<BookingId>, s: SlotId) {
    exists i :: i in ids && i < |db.bookings| && db.bookings[i].slotId == s
  }

  /** `c` is `db` with the bookings `ids` cancelled and their courts back on sale. */
  ghost predicate Released(db: Db, c: Db, ids: seq<BookingId>) {
    && |c.bookings| == |db.bookings| && |c.slots| == |db.slots| && c.courts == db.courts
    && (forall i :: 0 <= i < |db.bookings| ==>
          c.bookings[i] == if i in ids then db.bookings[i].(status := Cancelled) else db.bookings[i])
    && (forall s :: 0 <= s < |db.slots| ==> c.slots[s] == if LetsGo(db, ids, s) then OnSale(db, s) else db.slots[s])
  }

  ghost predicate AllPending(db: Db, ids: seq<BookingId>) {
    forall i :: i in ids ==> IsPending(db, i)
  }

  lemma OneSlotEach(db: Db, ids: seq<BookingId>, i: BookingId)
    requires Inv(db) && AllPending(db, ids) && IsPending(db, i) && i !in ids
    ensures !LetsGo(db, ids, db.bookings[i].slotId)
  {
    hide SoundMoney, RefsSingleUse, BookedIsHeld, UniqueStarts, SoundSlots, LiveHoldsBooked;
  }

  lemma ReleasedOne(db: Db, before: Db, ids: seq<BookingId>, i: BookingId)
    requires Inv(db) && Inv(before) && AllPending(db, ids) && IsPending(db, i) && i !in ids
    requires Released(db, before, ids)
    ensures Released(db, ReleasePending(before, i).0, ids + [i])
  {
    hide Inv, RepriceSlot, Close, ListPrice;
    var b := db.bookings[i];
    OneSlotEach(db, ids, i);
    ClosedThenRepriced(before, i, b.depositOutcome, b.creditAppliedCents, None);
    var c := ReleasePending(before, i).0;
    assert c.bookings == before.bookings[i := b.(status := Cancelled)];
    SameListPrice(db, before, b.slotId);
    forall s | 0 <= s < |db.slots|
      ensures LetsGo(db, ids + [i], s) <==> LetsGo(db, ids, s) || s == b.slotId
    {
      assert s == b.slotId ==> i in ids + [i];
      assert forall j :: j in ids ==> j in ids + [i];
    }
  }

  lemma SameListPrice(db: Db, other: Db, s: SlotId)
    requires s < |db.slots| && s < |other.slots| && other.courts == db.courts && other.slots[s] == db.slots[s]
    ensures OnSale(other, s) == OnSale(db, s)
  {
  }

  lemma {:induction false} ReleaseAllReleases(db: Db, ids: seq<BookingId>)
    requires Inv(db) && AllPending(db, ids) && NoRepeats(ids)
    ensures Released(db, ReleaseAll(db, ids), ids)
  {
    hide Inv, ReleasePending, Released, Keeps;
    if ids == [] {
      NothingReleased(db);
    } else {
      var n := |ids| - 1;
      var front, last := ids[..n], ids[n];
      assert ids == front + [last];
      ReleaseAllReleases(db, front);
      FrontKeepsInv(db, front);
      assert last !in front;
      ReleasedOne(db, ReleaseAll(db, front), front, last);
    }
  }

  lemma NothingReleased(db: Db)
    ensures Released(db, db, [])
  {
  }

  lemma FrontKeepsInv(db: Db, ids: seq<BookingId>)
    requires Inv(db)
    ensures Inv(ReleaseAll(db, ids))
  {
    hide Inv;
    ReleaseAllKeeps(db, ids);
  }

  /**
   * The sweep cancels exactly the bookings whose payment window is over with no receipt on file, puts
   * exactly their courts back on sale at the list price, and touches no other booking and no other court.
   */
  lemma SweepExactly(db: Db, now: Instant)
    requires Inv(db)
    ensures var c := SweepExpired(db, now);
            && |c.bookings| == |db.bookings| && |c.slots| == |db.slots|
            && (forall i :: 0 <= i < |db.bookings| ==>
                  c.bookings[i] == if IsExpired(db.bookings[i], now) then db.bookings[i].(status := Cancelled)
                                   else db.bookings[i])
            && (forall s :: 0 <= s < |db.slots| ==>
                  c.slots[s] == if ExpiredOn(db, now, s) then OnSale(db, s) else db.slots[s])
  {
    hide Inv, OnSale;
    var ids := Expired(db, now);
    ExpiredAre(db, now);
    ReleaseAllReleases(db, ids);
    forall s | 0 <= s < |db.slots|
      ensures LetsGo(db, ids, s) <==> ExpiredOn(db, now, s)
    {
    }
  }

  ghost predicate ExpiredOn(db: Db, now: Instant, s: SlotId) {
    exists i :: 0 <= i < |db.bookings| && db.bookings[i].slotId == s && IsExpired(db.bookings[i], now)
  }

  lemma ExpiredAre(db: Db, now: Instant)
    ensures AllPending(db, Expired(db, now)) && NoRepeats(Expired(db, now))
    ensures forall i: BookingId :: i in Expired(db, now) <==> i < |db.bookings| && IsExpired(db.bookings[i], now)
  {
  }
}

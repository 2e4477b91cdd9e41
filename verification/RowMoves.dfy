/**
 * The handful of row changes every service call is made of, each with the invariants it keeps and
 * what it does to the credit ledger. The service rules compose these.
 */
module RowMoves {
  import opened Base
  import opened ClubData

  // ── The moves ───────────────────────────────────────────────────────────────

  /** Flips an AVAILABLE slot to BOOKED and creates the booking that holds it. */
  function TakeSlot(db: Db, s: SlotId, b: Booking): Db
    requires s < |db.slots|
  {
    db.(slots := db.slots[s := db.slots[s].(status := Booked)],
        bookings := db.bookings + [b.(slotId := s)])
  }

  /** Materializes a BOOKED slot and creates the booking that holds it. */
  function TakeNewSlot(db: Db, slot: Slot, b: Booking): Db {
    db.(slots := db.slots + [slot.(status := Booked, eventId := None)],
        bookings := db.bookings + [b.(slotId := |db.slots|)])
  }

  function AddCredit(players: map<PlayerKey, Player>, p: PlayerKey, cents: Cents): map<PlayerKey, Player> {
    if p in players then players[p := players[p].(creditCents := players[p].creditCents + cents)] else players
  }

  function FreeSlot(slots: seq<Slot>, s: SlotId): seq<Slot> {
    if s < |slots| then slots[s := slots[s].(status := Available)] else slots
  }

  /** Cancels a booking, frees its slot and hands `refund` to its player, when it has one. */
  function Close(db: Db, i: BookingId, outcome: Option<DepositOutcome>, refund: Cents): Db
    requires i < |db.bookings|
  {
    var b := db.bookings[i];
    db.(bookings := db.bookings[i := b.(status := Cancelled, depositOutcome := outcome)],
        slots := FreeSlot(db.slots, b.slotId),
        players := if refund > 0 && b.playerId.Some? then AddCredit(db.players, b.playerId.value, refund)
                   else db.players)
  }

  /** Rewrites one booking row. */
  function Edit(db: Db, i: BookingId, b: Booking): Db
    requires i < |db.bookings|
  {
    db.(bookings := db.bookings[i := b])
  }

  /** Gives a booking's slot back and puts the booking on another one. */
  function MoveTo(db: Db, i: BookingId, s: SlotId, b: Booking): Db
    requires i < |db.bookings| && db.bookings[i].slotId < |db.slots| && s < |db.slots|
  {
    var from := db.bookings[i].slotId;
    var freed := db.slots[from := db.slots[from].(status := Available)];
    db.(slots := freed[s := freed[s].(status := Booked)],
        bookings := db.bookings[i := b.(slotId := s)])
  }

  /** The revive path's writes: slot re-taken, booking pending again, then confirmed. */
  function Reopen(db: Db, i: BookingId, b: Booking): Db
    requires i < |db.bookings| && db.bookings[i].slotId < |db.slots|
  {
    var s := db.bookings[i].slotId;
    db.(slots := db.slots[s := db.slots[s].(status := Booked)],
        bookings := db.bookings[i := b])
  }

  // ── What they keep ──────────────────────────────────────────────────────────

  /** A change to slots alone that respects who holds a court. */
  ghost predicate SlotsOnly(a: seq<Slot>, b: seq<Slot>) {
    && |a| <= |b|
    && (forall s :: 0 <= s < |a| ==> SameBand(a[s], b[s]) && (a[s].status.Booked? <==> b[s].status.Booked?))
    && (forall s :: |a| <= s < |b| ==> !b[s].status.Booked?)
    && UniqueStarts(b)
    && SoundSlots(b)
  }

  /** The booking columns no edit may touch. */
  predicate SameClaim(b: Booking, c: Booking) {
    && c.slotId == b.slotId
    && c.depositOutcome == b.depositOutcome
    && (Live(c) <==> Live(b))
    && (Live(c) && c.deleted ==> b.deleted)
    && (c.status.PendingPayment? ==> c.mpPaymentId == b.mpPaymentId)
    && BookingEvolves(b, c)
  }

  /** A reference that may go on booking i: unused, or already there. */
  ghost predicate FreshRef(bookings: seq<Booking>, i: nat, b: Booking) {
    forall ref, j :: 0 <= j < |bookings| && j != i && ref != "" && UsesRef(b, ref) ==> !UsesRef(bookings[j], ref)
  }

  ghost predicate NewClaim(db: Db, b: Booking) {
    && Live(b)
    && SoundMoney(b, db.players)
    && b.mpPaymentId.None?
    && !b.deleted
  }

  lemma TakeOccupancy(slots: seq<Slot>, bookings: seq<Booking>, s: SlotId, b: Booking)
    requires Occupancy(slots, bookings) && s < |slots| && slots[s].status.Available?
    requires Live(b) && b.slotId == s && b.clubId == slots[s].clubId
    ensures Occupancy(slots[s := slots[s].(status := Booked)], bookings + [b])
  {
    var slots', bookings' := slots[s := slots[s].(status := Booked)], bookings + [b];
    assert SoundSlot(slots[s]);
    forall t | 0 <= t < |slots'| && slots'[t].status.Booked?
      ensures IsHeld(bookings', t)
    {
      if t == s {
        assert HoldsSlot(bookings'[|bookings|], t);
      } else {
        assert slots[t].status.Booked? && IsHeld(bookings, t);
        var i :| 0 <= i < |bookings| && HoldsSlot(bookings[i], t);
        assert HoldsSlot(bookings'[i], t);
      }
    }
    forall i | 0 <= i < |bookings| && Live(bookings[i])
      ensures bookings[i].slotId != s
    {
      assert slots[bookings[i].slotId].status.Booked?;
    }
  }

  /** Which slot a booking takes, and what the slots are, weighs nothing. */
  lemma ClaimWeighs(db: Db, slots: seq<Slot>, b: Booking, s: SlotId, p: PlayerKey)
    ensures Balance(db.(slots := slots, bookings := db.bookings + [b.(slotId := s)]), p) == Balance(db, p) +
            Weight(b, p)
  {
    hide Balance, Weight;
    BalanceAppend(db, b.(slotId := s), p);
    SlotsWeighNothing(db.(bookings := db.bookings + [b.(slotId := s)]), slots, p);
    SlotWeighsNothing(b, s, p);
  }

  lemma SlotsWeighNothing(db: Db, slots: seq<Slot>, p: PlayerKey)
    ensures Balance(db.(slots := slots), p) == Balance(db, p)
  {
    hide Total;
  }

  lemma SlotWeighsNothing(b: Booking, s: SlotId, p: PlayerKey)
    ensures Weight(b.(slotId := s), p) == Weight(b, p)
  {
  }

  lemma TakeSlotKeeps(db: Db, s: SlotId, b: Booking)
    requires Inv(db) && s < |db.slots| && db.slots[s].status.Available? && NewClaim(db, b)
    requires db.slots[s].clubId == b.clubId
    ensures Inv(TakeSlot(db, s, b)) && Evolves(db, TakeSlot(db, s, b))
    ensures forall p :: Balance(TakeSlot(db, s, b), p) == Balance(db, p) + Weight(b, p)
  {
    hide Occupancy, Balance, Weight;
    TakeOccupancy(db.slots, db.bookings, s, b.(slotId := s));
    forall p
      ensures Balance(TakeSlot(db, s, b), p) == Balance(db, p) + Weight(b, p)
    {
      ClaimWeighs(db, TakeSlot(db, s, b).slots, b, s, p);
    }
  }

  lemma TakeNewOccupancy(slots: seq<Slot>, bookings: seq<Booking>, slot: Slot, b: Booking)
    requires Occupancy(slots, bookings) && !StartTaken(slots, slot) && SoundSlot(slot) && slot.status.Booked?
    requires Live(b) && b.slotId == |slots| && b.clubId == slot.clubId
    ensures Occupancy(slots + [slot], bookings + [b])
  {
    var slots', bookings' := slots + [slot], bookings + [b];
    forall t | 0 <= t < |slots'| && slots'[t].status.Booked?
      ensures IsHeld(bookings', t)
    {
      if t == |slots| {
        assert HoldsSlot(bookings'[|bookings|], t);
      } else {
        assert slots[t].status.Booked? && IsHeld(bookings, t);
        var i :| 0 <= i < |bookings| && HoldsSlot(bookings[i], t);
        assert HoldsSlot(bookings'[i], t);
      }
    }
  }

  lemma TakeNewSlotKeeps(db: Db, slot: Slot, b: Booking)
    requires Inv(db) && !StartTaken(db.slots, slot) && slot.startsAt < slot.endsAt && NewClaim(db, b)
    requires slot.clubId == b.clubId
    ensures Inv(TakeNewSlot(db, slot, b)) && Evolves(db, TakeNewSlot(db, slot, b))
    ensures forall p :: Balance(TakeNewSlot(db, slot, b), p) == Balance(db, p) + Weight(b, p)
  {
    hide Occupancy, Balance, Weight;
    TakeNewOccupancy(db.slots, db.bookings, slot.(status := Booked, eventId := None), b.(slotId := |db.slots|));
    forall p
      ensures Balance(TakeNewSlot(db, slot, b), p) == Balance(db, p) + Weight(b, p)
    {
      ClaimWeighs(db, TakeNewSlot(db, slot, b).slots, b, |db.slots|, p);
    }
  }

  /** Freeing a court: nothing else held it, so nothing live is left on it. */
  lemma CloseOccupancy(slots: seq<Slot>, bookings: seq<Booking>, i: BookingId, b: Booking)
    requires Occupancy(slots, bookings) && i < |bookings| && Live(bookings[i])
    requires !Live(b) && b.slotId == bookings[i].slotId && b.clubId == bookings[i].clubId
    ensures Occupancy(FreeSlot(slots, b.slotId), bookings[i := b])
  {
    var s := b.slotId;
    var slots', bookings' := FreeSlot(slots, s), bookings[i := b];
    assert SoundSlot(slots[s]);
    forall t | 0 <= t < |slots'| && slots'[t].status.Booked?
      ensures IsHeld(bookings', t)
    {
      assert slots[t].status.Booked? && IsHeld(bookings, t);
      var j :| 0 <= j < |bookings| && HoldsSlot(bookings[j], t);
      assert j != i && HoldsSlot(bookings'[j], t);
    }
  }

  function Closed(b: Booking, outcome: Option<DepositOutcome>): Booking {
    b.(status := Cancelled, depositOutcome := outcome)
  }

  /** A closing that loses no money silently and gives the player back exactly what it takes off the booking. */
  ghost predicate FairClosing(b: Booking, outcome: Option<DepositOutcome>, refund: Cents) {
    && 0 <= refund
    && (b.status.Confirmed? && b.transferAmountCents.Some? ==> outcome.Some?)
    && (forall p :: Weight(Closed(b, outcome), p) + (if b.playerId == Some(p) then refund else 0) == Weight(b, p))
  }

  lemma CloseBalance(db: Db, i: BookingId, outcome: Option<DepositOutcome>, refund: Cents, p: PlayerKey)
    requires i < |db.bookings| && FairClosing(db.bookings[i], outcome, refund)
    requires db.bookings[i].playerId.Some? ==> db.bookings[i].playerId.value in db.players
    ensures Balance(Close(db, i, outcome, refund), p) == Balance(db, p)
  {
    var b := db.bookings[i];
    BalanceUpdate(db, i, Closed(b, outcome), p);
    var c := Close(db, i, outcome, refund);
    assert CreditOf(c, p) == CreditOf(db, p) + (if b.playerId == Some(p) then refund else 0);
  }

  lemma CloseKeeps(db: Db, i: BookingId, outcome: Option<DepositOutcome>, refund: Cents)
    requires Inv(db) && i < |db.bookings| && Live(db.bookings[i]) && FairClosing(db.bookings[i], outcome, refund)
    ensures Inv(Close(db, i, outcome, refund)) && Evolves(db, Close(db, i, outcome, refund))
    ensures forall p :: Balance(Close(db, i, outcome, refund), p) == Balance(db, p)
  {
    var b := db.bookings[i];
    assert SoundMoney(b, db.players);
    var c := Close(db, i, outcome, refund);
    forall p
      ensures Balance(c, p) == Balance(db, p)
    {
      CloseBalance(db, i, outcome, refund, p);
    }
    hide Balance, Weight;
    CloseOccupancy(db.slots, db.bookings, i, Closed(b, outcome));
    SameRefIsFresh(db.bookings, i, Closed(b, outcome));
    RefsAfterRewrite(db.bookings, i, Closed(b, outcome));
    hide Occupancy, RefsSingleUse;
    forall j | 0 <= j < |c.bookings|
      ensures SoundMoney(c.bookings[j], c.players)
    {
      assert SoundMoney(db.bookings[j], db.players);
    }
  }

  lemma EditOccupancy(slots: seq<Slot>, bookings: seq<Booking>, i: BookingId, b: Booking)
    requires Occupancy(slots, bookings) && i < |bookings| && SameClaim(bookings[i], b)
    ensures Occupancy(slots, bookings[i := b])
  {
    var bookings' := bookings[i := b];
    forall t | 0 <= t < |slots| && slots[t].status.Booked?
      ensures IsHeld(bookings', t)
    {
      assert IsHeld(bookings, t);
      var j :| 0 <= j < |bookings| && HoldsSlot(bookings[j], t);
      assert HoldsSlot(bookings'[j], t);
    }
  }

  lemma EditKeeps(db: Db, i: BookingId, b: Booking)
    requires Inv(db) && i < |db.bookings| && SameClaim(db.bookings[i], b) && FreshRef(db.bookings, i, b)
    ensures Inv(Edit(db, i, b)) && Evolves(db, Edit(db, i, b))
    ensures forall p :: Balance(Edit(db, i, b), p) == Balance(db, p)
  {
    var c := Edit(db, i, b);
    assert SoundMoney(db.bookings[i], db.players);
    EditOccupancy(db.slots, db.bookings, i, b);
    RefsAfterRewrite(db.bookings, i, b);
    hide Occupancy;
    forall p
      ensures Balance(c, p) == Balance(db, p)
    {
      BalanceUpdate(db, i, b, p);
    }
  }

  lemma SameRefIsFresh(bookings: seq<Booking>, i: BookingId, b: Booking)
    requires RefsSingleUse(bookings) && i < |bookings| && b.mpPaymentId == bookings[i].mpPaymentId
    ensures FreshRef(bookings, i, b)
  {
    forall ref, j | 0 <= j < |bookings| && j != i && ref != "" && UsesRef(b, ref)
      ensures !UsesRef(bookings[j], ref)
    {
      assert UsesRef(bookings[i], ref);
    }
  }

  lemma RefsAfterRewrite(bookings: seq<Booking>, i: BookingId, b: Booking)
    requires RefsSingleUse(bookings) && i < |bookings| && FreshRef(bookings, i, b)
    ensures RefsSingleUse(bookings[i := b])
  {
    var after := bookings[i := b];
    forall j, k, ref | 0 <= j < k < |after| && ref != ""
      ensures !(UsesRef(after[j], ref) && UsesRef(after[k], ref))
    {
      assert !(UsesRef(bookings[j], ref) && UsesRef(bookings[k], ref));
    }
  }

  lemma MoveOccupancy(slots: seq<Slot>, bookings: seq<Booking>, i: BookingId, s: SlotId, b: Booking)
    requires Occupancy(slots, bookings) && i < |bookings| && Live(bookings[i]) && Live(b) && b.slotId == s
    requires s < |slots| && slots[s].status.Available? && slots[s].clubId == b.clubId
    ensures var from := bookings[i].slotId;
            var freed := slots[from := slots[from].(status := Available)];
            Occupancy(freed[s := freed[s].(status := Booked)], bookings[i := b])
  {
    var from := bookings[i].slotId;
    var freed := slots[from := slots[from].(status := Available)];
    var slots', bookings' := freed[s := freed[s].(status := Booked)], bookings[i := b];
    assert SoundSlot(slots[from]) && SoundSlot(slots[s]) && slots[from].status.Booked?;
    forall j | 0 <= j < |bookings| && Live(bookings[j])
      ensures bookings[j].slotId != s && (j != i ==> bookings[j].slotId != from)
    {
      assert slots[bookings[j].slotId].status.Booked?;
    }
    forall t | 0 <= t < |slots'| && slots'[t].status.Booked?
      ensures IsHeld(bookings', t)
    {
      if t == s {
        assert HoldsSlot(bookings'[i], t);
      } else {
        assert slots[t].status.Booked? && IsHeld(bookings, t);
        var j :| 0 <= j < |bookings| && HoldsSlot(bookings[j], t);
        assert HoldsSlot(bookings'[j], t);
      }
    }
  }

  lemma MoveToBalances(db: Db, i: BookingId, s: SlotId, b: Booking)
    requires i < |db.bookings| && db.bookings[i].slotId < |db.slots| && s < |db.slots|
    requires SameClaim(db.bookings[i], b)
    ensures forall p :: Balance(MoveTo(db, i, s, b), p) == Balance(db, p)
  {
    var c := MoveTo(db, i, s, b);
    forall p
      ensures Balance(c, p) == Balance(db, p)
    {
      BalanceUpdate(db, i, b.(slotId := s), p);
    }
  }

  lemma MoveToKeeps(db: Db, i: BookingId, s: SlotId, b: Booking)
    requires Inv(db) && i < |db.bookings| && Live(db.bookings[i])
    requires s < |db.slots| && db.slots[s].status.Available? && db.slots[s].clubId == b.clubId
    requires SameClaim(db.bookings[i], b) && b.mpPaymentId == db.bookings[i].mpPaymentId
    ensures Inv(MoveTo(db, i, s, b)) && Evolves(db, MoveTo(db, i, s, b))
    ensures forall p :: Balance(MoveTo(db, i, s, b), p) == Balance(db, p)
  {
    hide RefsSingleUse, FreshRef, Balance;
    assert SoundMoney(db.bookings[i], db.players);
    MoveOccupancy(db.slots, db.bookings, i, s, b.(slotId := s));
    SameRefIsFresh(db.bookings, i, b.(slotId := s));
    RefsAfterRewrite(db.bookings, i, b.(slotId := s));
    MoveToBalances(db, i, s, b);
    hide Occupancy;
  }

  lemma ReopenOccupancy(slots: seq<Slot>, bookings: seq<Booking>, i: BookingId, b: Booking)
    requires Occupancy(slots, bookings) && i < |bookings| && !Live(bookings[i])
    requires slots[bookings[i].slotId].status.Available? && Live(b) && b.slotId == bookings[i].slotId
    requires b.clubId == bookings[i].clubId
    ensures Occupancy(slots[b.slotId := slots[b.slotId].(status := Booked)], bookings[i := b])
  {
    var s := b.slotId;
    var slots', bookings' := slots[s := slots[s].(status := Booked)], bookings[i := b];
    assert SoundSlot(slots[s]);
    forall j | 0 <= j < |bookings| && Live(bookings[j])
      ensures bookings[j].slotId != s
    {
      assert slots[bookings[j].slotId].status.Booked?;
    }
    forall t | 0 <= t < |slots'| && slots'[t].status.Booked?
      ensures IsHeld(bookings', t)
    {
      if t == s {
        assert HoldsSlot(bookings'[i], t);
      } else {
        assert slots[t].status.Booked? && IsHeld(bookings, t);
        var j :| 0 <= j < |bookings| && HoldsSlot(bookings[j], t);
        assert HoldsSlot(bookings'[j], t);
      }
    }
  }

  /** Re-taking a slot for a cancelled booking re-attaches credit the cancellation already returned. */
  lemma ReopenKeeps(db: Db, i: BookingId, b: Booking)
    requires Inv(db) && i < |db.bookings| && !Live(db.bookings[i]) && !Settled(db.bookings[i])
    requires db.slots[db.bookings[i].slotId].status.Available?
    requires b.status.Confirmed? && b.slotId == db.bookings[i].slotId && b.depositOutcome.None?
    requires BookingEvolves(db.bookings[i], b) && FreshRef(db.bookings, i, b)
    ensures Inv(Reopen(db, i, b)) && Evolves(db, Reopen(db, i, b))
    ensures forall p :: Balance(Reopen(db, i, b), p) ==
                        Balance(db, p) + (if b.playerId == Some(p) then b.creditAppliedCents else 0)
  {
    var c := Reopen(db, i, b);
    assert SoundMoney(db.bookings[i], db.players);
    ReopenOccupancy(db.slots, db.bookings, i, b);
    hide Occupancy;
    RefsAfterRewrite(db.bookings, i, b);
    forall p
      ensures Balance(c, p) == Balance(db, p) + (if b.playerId == Some(p) then b.creditAppliedCents else 0)
    {
      BalanceUpdate(db, i, b, p);
    }
  }

  lemma UniqueSame(slots: seq<Slot>, same: seq<Slot>)
    requires UniqueStarts(slots) && |same| == |slots|
    requires forall s :: 0 <= s < |slots| ==> SameBand(slots[s], same[s])
    ensures UniqueStarts(same)
  {
    forall s, t | 0 <= s < t < |same|
      ensures !SameStart(same[s], same[t])
    {
      assert !SameStart(slots[s], slots[t]);
    }
  }

  lemma SlotsOnlyKeeps(db: Db, slots: seq<Slot>)
    requires Inv(db) && SlotsOnly(db.slots, slots)
    ensures Inv(db.(slots := slots)) && Evolves(db, db.(slots := slots))
    ensures forall p :: Balance(db.(slots := slots), p) == Balance(db, p)
  {
    forall s | 0 <= s < |slots| && slots[s].status.Booked?
      ensures IsHeld(db.bookings, s)
    {
      assert s < |db.slots| && db.slots[s].status.Booked?;
    }
  }

  /** Player rows may be added or re-credited without touching any court. */
  lemma PlayersOnlyKeeps(db: Db, players: map<PlayerKey, Player>)
    requires Inv(db) && CreditNonNegative(players) && forall p :: p in db.players ==> p in players
    ensures Inv(db.(players := players)) && Evolves(db, db.(players := players))
    ensures forall p :: Balance(db.(players := players), p) ==
                        Balance(db, p) - CreditOf(db, p) + CreditOf(db.(players := players), p)
  {
    var c := db.(players := players);
    forall i | 0 <= i < |c.bookings|
      ensures SoundMoney(c.bookings[i], c.players)
    {
      assert SoundMoney(db.bookings[i], db.players);
    }
  }
}

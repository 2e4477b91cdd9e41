/** The shared tables as the services write them, row by row. */
module Tables {
  import opened ClubData

  class Database {
    var slots: seq<Slot>
    var bookings: seq<Booking>
    var players: map<PlayerKey, Player>
    var clubs: map<ClubId, Club>
    var courts: map<CourtId, Court>
    var fijoPrices: map<FijoId, nat>

    constructor (db: Db)
      ensures Rows() == db
    {
      slots, bookings, players := db.slots, db.bookings, db.players;
      clubs, courts, fijoPrices := db.clubs, db.courts, db.fijoPrices;
    }

    /** All rows, as one value. */
    function Rows(): (db: Db)
      reads this
    {
      Db(slots, bookings, players, clubs, courts, fijoPrices)
    }

    /** Undoes what a transaction wrote. */
    method Rollback(before: Db)
      modifies this
      ensures Rows() == before
    {
      slots, bookings, players := before.slots, before.bookings, before.players;
      clubs, courts, fijoPrices := before.clubs, before.courts, before.fijoPrices;
    }
  }
}

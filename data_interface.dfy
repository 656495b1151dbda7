/** The two collaborators the processor is given. No implementation of
    either is among the source files modelled; these classes are the least
    that the processor's code relies on. */
module DataInterface {
  import opened Domain

  /** `IDeskRepository`: answers which desks are free on a date. The answer
      for each date is fixed when the repository is built; `queries` records
      the dates it was asked about, in order. */
  class DeskRepository {
    const available: Date -> seq<Desk>
    ghost var queries: seq<Date>

    constructor (available: Date -> seq<Desk>)
      ensures this.available == available && queries == []
    {
      this.available := available;
      queries := [];
    }

    method GetAvailableDesks(date: Date) returns (desks: seq<Desk>)
      modifies this
      ensures desks == available(date)
      ensures queries == old(queries) + [date]
    {
      desks := available(date);
      queries := queries + [date];
    }
  }

  /** `IDeskBookingRepository`: an append-only log of the bookings saved. */
  class DeskBookingRepository {
    var saved: seq<DeskBooking>

    constructor ()
      ensures saved == []
    {
      saved := [];
    }

    method Save(deskBooking: DeskBooking)
      modifies this
      ensures saved == old(saved) + [deskBooking]
    {
      saved := saved + [deskBooking];
    }
  }
}

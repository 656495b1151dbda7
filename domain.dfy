/** The records the booking processor reads and builds. */
module Domain {

  /** A `DateTime`, as a tick count. The processor only passes it on and
      copies it, and the model only ever compares dates for equality. */
  datatype Date = Date(ticks: int)

  /** A desk offered by the desk repository. */
  datatype Desk = Desk(id: int)

  /** The four fields every booking record inherits from `DeskBookingBase`. */
  datatype DeskBookingBase = DeskBookingBase(firstName: string, lastName: string, email: string, date: Date)

  datatype DeskBookingRequest = DeskBookingRequest(firstName: string, lastName: string, email: string, date: Date)
  {
    function Base(): (b: DeskBookingBase) { DeskBookingBase(firstName, lastName, email, date) }
  }

  /** A desk assigned to a requester on a date, as handed to the booking store. */
  datatype DeskBooking = DeskBooking(firstName: string, lastName: string, email: string, date: Date, deskId: int)
  {
    function Base(): (b: DeskBookingBase) { DeskBookingBase(firstName, lastName, email, date) }
  }

  /** What `BookDesk` returns. The result code of the C# class is not here:
      `BookDesk` never assigns it. */
  datatype DeskBookingResult = DeskBookingResult(firstName: string, lastName: string, email: string, date: Date)
  {
    function Base(): (b: DeskBookingBase) { DeskBookingBase(firstName, lastName, email, date) }
  }

  /** `ArgumentNullException`, with the name of the missing parameter. */
  datatype ArgumentNullException = ArgumentNullException(paramName: string)
}

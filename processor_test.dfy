/** The unit-test scenarios of the processor, stated as client methods: one
    desk (id 7) is offered on the request's date, nothing on any other date.
    The clock reading the tests take the date from is the parameter `now`. */
module ProcessorTest {
  import opened Wrappers
  import opened Domain
  import opened DataInterface
  import opened Processor

  function TestRequest(now: Date): (request: DeskBookingRequest)
  {
    DeskBookingRequest("Edward", "Aleonope", "eddytonia@cardiff.co.uk", now)
  }

  /** A non-null request gets back its own name, email and date. */
  method ShouldReturnDeskBookingResultWithRequestValues(now: Date) returns (result: Result<DeskBookingResult, ArgumentNullException>)
    ensures result.Success?
    ensures result.value.firstName == "Edward" && result.value.lastName == "Aleonope"
    ensures result.value.email == "eddytonia@cardiff.co.uk" && result.value.date == now
  {
    var request := TestRequest(now);
    var desks := new DeskRepository(d => if d == now then [Desk(7)] else []);
    var store := new DeskBookingRepository();
    var processor := new DeskBookingRequestProcessor(store, desks);
    result := processor.BookDesk(Some(request));
  }

  /** A null request throws, naming "request", and nothing is saved or queried. */
  method ShouldThrowExceptionIfRequestIsNull(now: Date) returns (result: Result<DeskBookingResult, ArgumentNullException>, saved: seq<DeskBooking>)
    ensures result == Failure(ArgumentNullException("request"))
    ensures saved == []
  {
    var desks := new DeskRepository(d => if d == now then [Desk(7)] else []);
    var store := new DeskBookingRepository();
    var processor := new DeskBookingRequestProcessor(store, desks);
    result := processor.BookDesk(None);
    assert desks.queries == [];
    saved := store.saved;
  }

  /** With desk 7 free, exactly one booking is saved: the request's fields on desk 7. */
  method ShouldSaveDeskBooking(now: Date) returns (saved: seq<DeskBooking>)
    ensures saved == [DeskBooking("Edward", "Aleonope", "eddytonia@cardiff.co.uk", now, 7)]
  {
    var request := TestRequest(now);
    var desks := new DeskRepository(d => if d == now then [Desk(7)] else []);
    var store := new DeskBookingRepository();
    var processor := new DeskBookingRequestProcessor(store, desks);
    var _ := processor.BookDesk(Some(request));
    saved := store.saved;
  }

  /** With no desk free, nothing is saved, and the result still copies the request. */
  method ShouldNotSaveDeskBookingIfNoDeskIsAvailable(now: Date) returns (result: Result<DeskBookingResult, ArgumentNullException>, saved: seq<DeskBooking>)
    ensures saved == []
    ensures result == Success(DeskBookingResult("Edward", "Aleonope", "eddytonia@cardiff.co.uk", now))
  {
    var request := TestRequest(now);
    var desks := new DeskRepository(d => []);
    var store := new DeskBookingRepository();
    var processor := new DeskBookingRequestProcessor(store, desks);
    result := processor.BookDesk(Some(request));
    saved := store.saved;
  }

  /** One more call of `BookDesk` on `requests[i]` extends logs that hold
      the calls for `requests[..i]` to logs that hold those for `requests[..i + 1]`. */
  lemma ServeStep(available: Date -> seq<Desk>, requests: seq<DeskBookingRequest>, i: nat,
                  queries: seq<Date>, saved: seq<DeskBooking>, queries': seq<Date>, saved': seq<DeskBooking>,
                  queries0: seq<Date>, saved0: seq<DeskBooking>)
    requires i < |requests|
    requires queries == queries0 + Serve(available, requests[..i]).queried
    requires saved == saved0 + Serve(available, requests[..i]).saved
    requires queries' == queries + BookDeskSpec(available, Some(requests[i])).calls.queried
    requires saved' == saved + BookDeskSpec(available, Some(requests[i])).calls.saved
    ensures queries' == queries0 + Serve(available, requests[..i + 1]).queried
    ensures saved' == saved0 + Serve(available, requests[..i + 1]).saved
  {
    assert requests[..i + 1] == requests[..i] + [requests[i]];
    ServeLast(available, requests[..i + 1], requests[..i], requests[i]);
  }

  /** A caller that hands `requests` to one processor, one after another.
      Both collaborator logs grow by exactly what `Serve` says: each call
      behaves as if it were the only one. */
  method ServeAll(processor: DeskBookingRequestProcessor, requests: seq<DeskBookingRequest>)
    modifies processor.deskBookingRepository, processor.deskRepository
    ensures processor.deskRepository.queries ==
              old(processor.deskRepository.queries) + Serve(processor.deskRepository.available, requests).queried
    ensures processor.deskBookingRepository.saved ==
              old(processor.deskBookingRepository.saved) + Serve(processor.deskRepository.available, requests).saved
  {
    var available := processor.deskRepository.available;
    var i := 0;
    while i < |requests|
      invariant 0 <= i <= |requests|
      invariant processor.deskRepository.queries ==
                  old(processor.deskRepository.queries) + Serve(available, requests[..i]).queried
      invariant processor.deskBookingRepository.saved ==
                  old(processor.deskBookingRepository.saved) + Serve(available, requests[..i]).saved
    {
      ghost var queries, saved := processor.deskRepository.queries, processor.deskBookingRepository.saved;
      var _ := processor.BookDesk(Some(requests[i]));
      ServeStep(available, requests, i, queries, saved,
                processor.deskRepository.queries, processor.deskBookingRepository.saved,
                old(processor.deskRepository.queries), old(processor.deskBookingRepository.saved));
      i := i + 1;
    }
    assert requests[..i] == requests;
  }
}

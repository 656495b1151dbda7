/** `DeskBookingRequestProcessor`: the one booking decision of the system. */
module Processor {
  import opened Wrappers
  import opened Domain
  import opened DataInterface

  /** `default(int)`: the desk id a freshly created booking carries until it
      is overwritten. */
  const DefaultDeskId: int := 0

  /** `Create<DeskBooking>`: a booking holding the request's four base fields;
      its desk id is left at the default. */
  function CreateDeskBooking(request: DeskBookingRequest): (b: DeskBooking)
    ensures b.Base() == request.Base()
    ensures b.deskId == DefaultDeskId
  {
    DeskBooking(request.firstName, request.lastName, request.email, request.date, DefaultDeskId)
  }

  /** `Create<DeskBookingResult>`: a result holding the request's four base fields. */
  function CreateDeskBookingResult(request: DeskBookingRequest): (r: DeskBookingResult)
    ensures r.Base() == request.Base()
  {
    DeskBookingResult(request.firstName, request.lastName, request.email, request.date)
  }

  /** The collaborator calls one or more `BookDesk` calls make: the dates the
      desk repository is asked about and the bookings handed to `Save`, in order. */
  datatype Calls = Calls(queried: seq<Date>, saved: seq<DeskBooking>)

  /** What `BookDesk` returns (or throws) and the calls it makes. */
  datatype Outcome = Outcome(result: Result<DeskBookingResult, ArgumentNullException>, calls: Calls)

  /** The bookings saved for `request` when the repository offers `desks`:
      none when it offers none, otherwise one, on the first desk offered. */
  function BookingsFor(request: DeskBookingRequest, desks: seq<Desk>): (bookings: seq<DeskBooking>)
    ensures |bookings| <= 1
    ensures bookings == [] <==> desks == []
    ensures bookings != [] ==> bookings[0].Base() == request.Base() && bookings[0].deskId == desks[0].id
  {
    if desks == [] then [] else [CreateDeskBooking(request).(deskId := desks[0].id)]
  }

  /** The meaning of one `BookDesk` call when the desk repository answers
      `available`. A null request throws before either collaborator is used;
      any other request is answered with a result copying its base fields,
      after one query for its date and at most one save. */
  function BookDeskSpec(available: Date -> seq<Desk>, request: Option<DeskBookingRequest>): (o: Outcome)
    ensures request.None? ==> o == Outcome(Failure(ArgumentNullException("request")), Calls([], []))
    ensures request.Some? ==> o.result.Success? && o.result.value.Base() == request.value.Base()
    ensures request.Some? ==> o.calls.queried == [request.value.date]
    ensures |o.calls.saved| <= 1
    ensures o.calls.saved != [] <==> request.Some? && available(request.value.date) != []
    ensures o.calls.saved != [] ==>
              o.calls.saved[0].Base() == request.value.Base() &&
              o.calls.saved[0].deskId == available(request.value.date)[0].id
  {
    match request
    case None => Outcome(Failure(ArgumentNullException("request")), Calls([], []))
    case Some(req) =>
      Outcome(Success(CreateDeskBookingResult(req)), Calls([req.date], BookingsFor(req, available(req.date))))
  }

  /** A booking the processor may have saved: it carries the base fields of
      one of `requests`, and the desk is the first one offered on its date. */
  ghost predicate SavedFor(available: Date -> seq<Desk>, requests: seq<DeskBookingRequest>, b: DeskBooking)
  {
    exists req :: req in requests && b.Base() == req.Base() &&
      available(req.date) != [] && b.deskId == available(req.date)[0].id
  }

  /** `request` found a desk and its booking, on the first desk offered, is in `saved`. */
  ghost predicate BookedIn(available: Date -> seq<Desk>, saved: seq<DeskBooking>, request: DeskBookingRequest)
  {
    available(request.date) != [] &&
    exists b :: b in saved && b.Base() == request.Base() && b.deskId == available(request.date)[0].id
  }

  /** The number of `requests` for which the repository offers some desk. */
  function CountBookable(available: Date -> seq<Desk>, requests: seq<DeskBookingRequest>): nat
  {
    if requests == [] then 0
    else CountBookable(available, requests[..|requests| - 1]) +
         (if available(requests[|requests| - 1].date) != [] then 1 else 0)
  }

  /** A booking saved for one of `requests` is saved for any wider list of requests. */
  lemma SavedForWider(available: Date -> seq<Desk>, requests: seq<DeskBookingRequest>,
                      wider: seq<DeskBookingRequest>, saved: seq<DeskBooking>)
    requires forall r :: r in requests ==> r in wider
    requires forall b :: b in saved ==> SavedFor(available, requests, b)
    ensures forall b :: b in saved ==> SavedFor(available, wider, b)
  {
    forall b | b in saved ensures SavedFor(available, wider, b) {
      var req :| req in requests && b.Base() == req.Base() &&
        available(req.date) != [] && b.deskId == available(req.date)[0].id;
    }
  }

  /** Appending the last request's bookings to the earlier requests' keeps
      every request that found a desk booked. */
  lemma BookedInJoin(available: Date -> seq<Desk>, prefix: seq<DeskBookingRequest>, last: DeskBookingRequest,
                     requests: seq<DeskBookingRequest>, before: seq<DeskBooking>, now: seq<DeskBooking>)
    requires forall r :: r in requests ==> r in prefix || r == last
    requires forall r :: r in prefix && available(r.date) != [] ==> BookedIn(available, before, r)
    requires now == BookingsFor(last, available(last.date))
    ensures forall r :: r in requests && available(r.date) != [] ==> BookedIn(available, before + now, r)
  {
    forall r | r in requests && available(r.date) != [] ensures BookedIn(available, before + now, r) {
      if r in prefix {
        var b :| b in before && b.Base() == r.Base() && b.deskId == available(r.date)[0].id;
        assert b in before + now;
      } else {
        assert now[0] in before + now;
      }
    }
  }

  /** The calls made when one processor serves `requests` one after another.
      The processor keeps no state between calls, so each request is handled
      exactly as if it were the only one: one query per request, one saved
      booking per request that found a desk and none for the others. */
  function Serve(available: Date -> seq<Desk>, requests: seq<DeskBookingRequest>): (c: Calls)
    ensures |c.queried| == |requests|
    ensures forall i :: 0 <= i < |requests| ==> c.queried[i] == requests[i].date
    ensures |c.saved| == CountBookable(available, requests)
  {
    if requests == [] then Calls([], [])
    else
      var prefix := requests[..|requests| - 1];
      var last := requests[|requests| - 1];
      var before := Serve(available, prefix);
      var now := BookDeskSpec(available, Some(last)).calls;
      Calls(before.queried + now.queried, before.saved + now.saved)
  }

  /** The contract of `BookingsFor` leaves no freedom: any sequence meeting it
      is the one `BookingsFor` returns. */
  lemma BookingsForDetermined(request: DeskBookingRequest, desks: seq<Desk>, bookings: seq<DeskBooking>)
    requires |bookings| <= 1
    requires bookings == [] <==> desks == []
    requires bookings != [] ==> bookings[0].Base() == request.Base() && bookings[0].deskId == desks[0].id
    ensures bookings == BookingsFor(request, desks)
  {
  }

  /** Serving a non-empty list is serving all but its last request, then the last one. */
  lemma ServeLast(available: Date -> seq<Desk>, requests: seq<DeskBookingRequest>, init: seq<DeskBookingRequest>, last: DeskBookingRequest)
    requires requests == init + [last]
    ensures Serve(available, requests).queried == Serve(available, init).queried + [last.date]
    ensures Serve(available, requests).saved ==
              Serve(available, init).saved + BookingsFor(last, available(last.date))
  {
    assert requests[..|requests| - 1] == init;
  }

  /** Serving two batches of requests in turn makes the calls of the first
      batch followed by those of the second: no call depends on an earlier one. */
  lemma {:induction false} ServeAppend(available: Date -> seq<Desk>, xs: seq<DeskBookingRequest>, ys: seq<DeskBookingRequest>)
    ensures Serve(available, xs + ys).queried == Serve(available, xs).queried + Serve(available, ys).queried
    ensures Serve(available, xs + ys).saved == Serve(available, xs).saved + Serve(available, ys).saved
    decreases |ys|
  {
    if ys == [] {
      assert xs + ys == xs;
    } else {
      var ys' := ys[..|ys| - 1];
      var y := ys[|ys| - 1];
      assert ys == ys' + [y];
      assert xs + ys == (xs + ys') + [y];
      ServeAppend(available, xs, ys');
      ServeLast(available, xs + ys, xs + ys', y);
      ServeLast(available, ys, ys', y);
    }
  }

  /** Every booking saved while serving `requests` belongs to one of them
      and is on the first desk offered on its date. */
  lemma {:induction false} ServeSavesOnlyRequested(available: Date -> seq<Desk>, requests: seq<DeskBookingRequest>)
    ensures forall b :: b in Serve(available, requests).saved ==> SavedFor(available, requests, b)
  {
    if requests != [] {
      var init := requests[..|requests| - 1];
      var last := requests[|requests| - 1];
      assert requests == init + [last];
      ServeSavesOnlyRequested(available, init);
      ServeLast(available, requests, init, last);
      SavedForWider(available, init, requests, Serve(available, init).saved);
      SavedForWider(available, [last], requests, BookingsFor(last, available(last.date)));
    }
  }

  /** Every one of `requests` that finds a desk has its booking saved, on the
      first desk offered on its date. */
  lemma {:induction false} ServeBooksEveryRequest(available: Date -> seq<Desk>, requests: seq<DeskBookingRequest>)
    ensures forall r :: r in requests && available(r.date) != [] ==> BookedIn(available, Serve(available, requests).saved, r)
  {
    if requests != [] {
      var init := requests[..|requests| - 1];
      var last := requests[|requests| - 1];
      assert requests == init + [last];
      ServeBooksEveryRequest(available, init);
      ServeLast(available, requests, init, last);
      BookedInJoin(available, init, last, requests, Serve(available, init).saved, BookingsFor(last, available(last.date)));
    }
  }

  /** Serving one request makes exactly the calls of a single `BookDesk` call. */
  lemma ServeSingle(available: Date -> seq<Desk>, request: DeskBookingRequest)
    ensures Serve(available, [request]) == BookDeskSpec(available, Some(request)).calls
  {
  }

  class DeskBookingRequestProcessor {
    const deskBookingRepository: DeskBookingRepository
    const deskRepository: DeskRepository

    constructor (deskBookingRepository: DeskBookingRepository, deskRepository: DeskRepository)
      ensures this.deskBookingRepository == deskBookingRepository
      ensures this.deskRepository == deskRepository
    {
      this.deskBookingRepository := deskBookingRepository;
      this.deskRepository := deskRepository;
    }

    /** `BookDesk`: answers as `BookDeskSpec` says, and the collaborators'
        logs grow by exactly the calls it names. */
    method BookDesk(request: Option<DeskBookingRequest>) returns (r: Result<DeskBookingResult, ArgumentNullException>)
      modifies deskBookingRepository, deskRepository
      ensures var o := BookDeskSpec(deskRepository.available, request);
        r == o.result &&
        deskRepository.queries == old(deskRepository.queries) + o.calls.queried &&
        deskBookingRepository.saved == old(deskBookingRepository.saved) + o.calls.saved
      ensures request.None? ==> unchanged(deskBookingRepository, deskRepository)
      ensures |deskBookingRepository.saved| <= |old(deskBookingRepository.saved)| + 1
    {
      if request.None? {
        return Failure(ArgumentNullException("request"));
      }
      var req := request.value;
      var availableDesks := deskRepository.GetAvailableDesks(req.date);
      if availableDesks != [] {
        var availableDesk := availableDesks[0];
        var deskBooking := CreateDeskBooking(req);
        deskBooking := deskBooking.(deskId := availableDesk.id);
        deskBookingRepository.Save(deskBooking);
      }
      // The result code is never assigned here, so the result carries none.
      return Success(CreateDeskBookingResult(req));
    }
  }
}

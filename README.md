# DeskBooker booking processor, in Dafny

DeskBooker assigns a free desk to a booking request. Its one decision is
`DeskBookingRequestProcessor.BookDesk`. It receives a request (first name,
last name, email, date). It asks the desk repository which desks are free on
that date. If at least one is free, it builds a booking for the first desk
offered and hands it to the booking repository's `Save`, once. Whatever the
availability, it returns a result that copies the request's name, email and
date. A null request throws `ArgumentNullException` for the parameter
`"request"` before either repository is used.

Modules:

- `Wrappers` (`wrappers.dfy`): `Option` for a possibly-null reference, `Result` for a return or a throw.
- `Domain` (`domain.dfy`): the records `Desk`, `DeskBookingRequest`, `DeskBooking` and `DeskBookingResult`. `DeskBookingBase` is their four shared fields, and `Base()` projects each record onto it. A `Date` is only ever compared for equality.
- `DataInterface` (`data_interface.dfy`): the two collaborators as classes. `DeskRepository` answers from a fixed function of the date. It keeps a ghost log of the dates it was asked about. `DeskBookingRepository` is an append-only log of the bookings saved.
- `Processor` (`processor.dfy`): the two `Create<T>` instances. `BookDeskSpec` is the meaning of one call, as a function. The class `DeskBookingRequestProcessor` holds the two collaborators in `const` (readonly) fields. Its method `BookDesk` does the source's steps in order and is proved equal to `BookDeskSpec`. `Serve` gives the calls made when one processor serves requests one after another. It is built from `BookDeskSpec`, and a looping caller of the class method is proved to make exactly these calls.
- `ProcessorTest` (`processor_test.dfy`): the unit-test scenarios as client methods, and `ServeAll`, a caller that passes a list of requests to one processor in turn. They are proved from `BookDesk`'s contract alone.

## Model

| member | source | states |
|---|---|---|
| `Processor.CreateDeskBooking` | DeskBooker.Core/Processor/DeskBookingRequestProcessor.cs:34-43 | the booking carries the request's first name, last name, email and date; its desk id is still `default(int)` |
| `Processor.CreateDeskBookingResult` | DeskBooker.Core/Processor/DeskBookingRequestProcessor.cs:34-43 | the result carries the request's first name, last name, email and date |
| `Processor.BookingsFor` | DeskBooker.Core/Processor/DeskBookingRequestProcessor.cs:22-27 | at most one booking is built. One is built exactly when some desk is offered. It copies the request's base fields and takes the id of the first desk offered |
| `Processor.BookingsForDetermined` | DeskBooker.Core/Processor/DeskBookingRequestProcessor.cs:23-26 | the properties above pin the booking down: there is no other choice of desk or field values |
| `Processor.BookDeskSpec` | DeskBooker.Core/Processor/DeskBookingRequestProcessor.cs:18-32 | a null request fails with `ArgumentNullException("request")` and makes no collaborator call. Otherwise the result copies the request's base fields, whether or not a desk was free. The desk repository is queried once, with exactly the request's date. At most one booking is saved. One is saved iff a desk is offered on that date. The saved booking carries the request's base fields and the id of the first desk offered |
| `Processor.DeskBookingRequestProcessor.BookDesk` | DeskBooker.Core/Processor/DeskBookingRequestProcessor.cs:18-32 | the result is `BookDeskSpec`'s. The query log grows by exactly the queries `BookDeskSpec` names (one for a non-null request, none for null), and the save log by exactly its bookings. A null request leaves both repositories unchanged. The store grows by at most one booking |
| `Processor.DeskBookingRequestProcessor.constructor` | DeskBooker.Core/Processor/DeskBookingRequestProcessor.cs:9-16 | the processor keeps the two repositories it is given, in readonly fields |
| `Processor.Serve` | DeskBooker.Core/Processor/DeskBookingRequestProcessor.cs:9-32 | the calls made for a list of requests, composed from `BookDeskSpec`: one query per request, in order, each with that request's date; as many saved bookings as there are requests that find a free desk |
| `Processor.ServeSavesOnlyRequested` | DeskBooker.Core/Processor/DeskBookingRequestProcessor.cs:23-27 | every booking saved for a list of requests copies the base fields of one of them, which found a desk, and takes the first desk offered on its date |
| `Processor.ServeBooksEveryRequest` | DeskBooker.Core/Processor/DeskBookingRequestProcessor.cs:23-27 | every request in the list that finds a desk has a booking saved with its base fields on the first desk offered on its date |
| `Processor.ServeLast` | DeskBooker.Core/Processor/DeskBookingRequestProcessor.cs:22-27 | serving a list ending in `last` makes the calls for the rest of the list, then one query for `last`'s date and `last`'s booking if a desk is offered |
| `Processor.ServeAppend` | DeskBooker.Core/Processor/DeskBookingRequestProcessor.cs:9-16 | `Serve` composes: the calls for two batches served in turn are those of each batch, one after the other. Together with `ServeAll` this shows the processor carries nothing from one call to the next |
| `Processor.ServeSingle` | DeskBooker.Core/Processor/DeskBookingRequestProcessor.cs:18-32 | serving one request makes exactly the calls of one `BookDesk` call |
| `DataInterface.DeskRepository.constructor` | DeskBooker.Core.Test/Processor/DeskBookingRequestProcessorTest.cs:29-31 | a desk repository answering from the given availability, not yet queried |
| `DataInterface.DeskRepository.GetAvailableDesks` | DeskBooker.Core/DataInterface/IDeskRepository.cs:7 | returns the desks offered for the date and records the query |
| `DataInterface.DeskBookingRepository.constructor` | DeskBooker.Core.Test/Processor/DeskBookingRequestProcessorTest.cs:27 | a booking store with nothing saved |
| `DataInterface.DeskBookingRepository.Save` | DeskBooker.Core/Processor/DeskBookingRequestProcessor.cs:27 | appends the booking to the store and changes nothing else |
| `ProcessorTest.ShouldReturnDeskBookingResultWithRequestValues` | DeskBooker.Core.Test/Processor/DeskBookingRequestProcessorTest.cs:37-52 | with desk 7 free, the call returns without throwing, and its result carries "Edward", "Aleonope", "eddytonia@cardiff.co.uk" and the clock's date |
| `ProcessorTest.ShouldThrowExceptionIfRequestIsNull` | DeskBooker.Core.Test/Processor/DeskBookingRequestProcessorTest.cs:55-61 | a null request fails with an argument error naming "request", and nothing is saved |
| `ProcessorTest.ShouldSaveDeskBooking` | DeskBooker.Core.Test/Processor/DeskBookingRequestProcessorTest.cs:63-86 | with desk 7 free, exactly one booking is saved: the request's fields on desk 7 |
| `ProcessorTest.ShouldNotSaveDeskBookingIfNoDeskIsAvailable` | DeskBooker.Core.Test/Processor/DeskBookingRequestProcessorTest.cs:87-94 | with no desk free, nothing is saved and the result still copies the request |
| `ProcessorTest.ServeAll` | DeskBooker.Core/Processor/DeskBookingRequestProcessor.cs:9-32 | calling `BookDesk` on one processor for each request in turn grows the query log and the store by exactly the calls `Serve` gives for the whole list |
| `ProcessorTest.ServeStep` | DeskBooker.Core/Processor/DeskBookingRequestProcessor.cs:18-32 | one more `BookDesk` call extends logs holding the calls for the first `i` requests to logs holding those for the first `i + 1` |

## Left out

- The result code. The test `ShouldReturnExpectedResultCode` (DeskBooker.Core.Test/Processor/DeskBookingRequestProcessorTest.cs:95-108) expects `Success` when a desk was free and `NoDeskAvailable` otherwise. `BookDesk` never assigns `Code` (DeskBooker.Core/Processor/DeskBookingRequestProcessor.cs:31), so the returned code is whatever `DeskBookingResult`'s construction leaves it at, on every path. The declarations of `DeskBookingResult` and `DeskBookingResultCode` are not part of this model, so that value is unknown. `DeskBookingResult` therefore has no code field, and no contract speaks of one.
- The record classes `DeskBookingRequest`, `DeskBooking`, `DeskBookingResult`, `DeskBookingBase`, `Desk` and the interface `IDeskBookingRepository` are not part of this model. Their fields are taken from their use in the processor. `DeskId` and `Desk.Id` are taken to be `int`, so an unset `DeskId` is 0. `Desk` is taken to be a class, as the test at DeskBooker.Core.Test/Processor/DeskBookingRequestProcessorTest.cs:88-94 requires: only then does `FirstOrDefault() is Desk` at DeskBooker.Core/Processor/DeskBookingRequestProcessor.cs:23 fail on an empty sequence, which the model writes as `desks != []`.
- Real persistence and inventory. No implementation of either repository is among the source files modelled. The desk source is a fixed function from date to desks, like the test's mock. In particular, the model does not shrink availability after a save.
- `IEnumerable`'s lazy evaluation and `FirstOrDefault`. The desks are a plain sequence of non-null desks, and the first one is `desks[0]`. So two cases cannot be expressed. If the first element is null, `is Desk` fails at DeskBooker.Core/Processor/DeskBookingRequestProcessor.cs:23 and nothing is saved, even if later desks exist. If the repository returns a null enumerable, `FirstOrDefault` throws `ArgumentNullException` for `source`.
- Null collaborators. The constructor (DeskBooker.Core/Processor/DeskBookingRequestProcessor.cs:12-16) accepts null repositories. A null request still throws `ArgumentNullException` first, at DeskBooker.Core/Processor/DeskBookingRequestProcessor.cs:20. A null desk repository makes every non-null request throw `NullReferenceException` at :22. A null booking repository throws at :27 only when a desk is found; otherwise `BookDesk` returns normally. The model's fields are non-null references, so none of these cases is expressed.
- `DateTime` and the clock `DateTime.Now`. A date is only ever compared for equality, and the test scenarios take the clock reading as a parameter.
- `Success` in the model's `Result` means only that `BookDesk` returned without throwing. It is not `DeskBookingResultCode.Success`.
- The Moq setup and verification machinery. The repositories' logs (`queries`, `saved`) stand in for `Verify(..., Times.Once)` and `Times.Never`.
- Exceptions raised by either repository. The processor does not catch them, and modelling "no catch" adds nothing.
- Concurrency, and a double booking between the availability check and the save. The processor does nothing about either.
- `Create<T>`'s generic `new()` constraint. It is modelled as two explicit functions.

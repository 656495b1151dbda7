/** Option stands for a reference that may be null; Result for a call that
    either returns a value or throws. `Success` means only "returned without
    throwing"; it is not the booking result code of the same name. */
module Wrappers {

  datatype Option<+T> = None | Some(value: T)

  datatype Result<+R, +E> = Success(value: R) | Failure(error: E)
}

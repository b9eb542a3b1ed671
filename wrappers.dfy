/** Option and Result, the two failure-carrying shapes the model uses for the
    JavaScript values `undefined`/`null` and for thrown errors. */
module Wrappers {

  datatype Option<+T> = None | Some(value: T)

  /** Why a store call was abandoned: the SDK call itself threw, the response
      carried no `Items`, or an update was refused. */
  datatype Error = ScanFailed | NoItemsFound | CouldNotUpdate

  datatype Result<+T> = Success(value: T) | Failure(error: Error)
}

/** Value types shared by the three components: optional values, results of
    throwing calls, and the fixed-width integers of the source. */
module Common {

  /** Swift's `T?`. */
  datatype Option<+T> = None | Some(value: T) {
    /** Swift's `??` operator. */
    function GetOr(default: T): T {
      match this
      case Some(v) => v
      case None => default
    }
  }

  /** A call that either returns a value or throws an error. */
  datatype Result<+T, +E> = Success(value: T) | Failure(error: E)

  /** A throwing call that returns nothing (`throws -> Void`). */
  datatype Outcome<+E> = Pass | Fail(error: E)

  newtype uint8 = x: int | 0 <= x < 0x100
  newtype int32 = x: int | -0x8000_0000 <= x < 0x8000_0000
  newtype uint32 = x: int | 0 <= x < 0x1_0000_0000
  newtype uint64 = x: int | 0 <= x < 0x1_0000_0000_0000_0000

  /** Foundation's `Data`. */
  type Bytes = seq<uint8>

  /** An error thrown by code outside this model; it is only ever passed on. */
  datatype ThrownError = ThrownError(description: string)
}

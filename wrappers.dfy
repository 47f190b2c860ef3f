/** Option stands for a Java reference that may be null; Result for a call that may throw. */
module Wrappers {

  datatype Option<+T> = None | Some(value: T) {

    /** The value, or the given default when the reference is null. */
    function GetOr(default: T): T {
      match this
      case Some(v) => v
      case None => default
    }
  }

  /** An exception that ends an operation: RequestControlServiceException, raised for an
      expected condition with a message for the client, or a runtime exception (a null
      dereference, a duplicate map key, an illegal argument). */
  datatype Fault = ServiceFault(message: string) | RuntimeFault(message: string)

  /** The value an operation returns, or the exception it throws. */
  datatype Result<T> = Success(value: T) | Failure(fault: Fault)
}

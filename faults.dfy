/** The exceptions the library throws, and the two shapes in which an operation reports them. */
module Faults {
  /** One constructor per exception type the modelled code throws (or lets through). */
  datatype Fault =
    | InvalidArgument      // ArgumentException: a GPIO_NONE pin was given
    | ArgumentNull         // ArgumentNullException
    | PinInUse             // Exception: the pin already has a live handle
    | ObjectDisposed       // ObjectDisposedException
    | LibraryInit          // the static constructor of GPIOMem failed (bcm2835_init returned false)
    | SysfsFailure         // an I/O exception from the sysfs files
    | NoBackend            // Exception: no backend could open the pin (release build)
    | NullReference        // NullReferenceException
    | IndexOutOfRange      // IndexOutOfRangeException
    | Format               // FormatException from Char.Parse
    | KeyNotFound          // KeyNotFoundException from a dictionary lookup

  /** The end of a void operation: it returned, or it threw. */
  datatype Outcome = Ok | Throws(fault: Fault)

  /** The end of an operation with a value. */
  datatype Result<T> = Success(value: T) | Failure(fault: Fault)
}

/** Values shared by the address-book model: the contact record, the ranges
    of Java's `long` and `int`, the selector of the backing store, and the
    outcome of a call into the database (a value or a thrown exception). */
module Contacts {

  /** Java `long`: 64-bit two's complement. */
  type Long = x: int | -0x8000_0000_0000_0000 <= x <= 0x7FFF_FFFF_FFFF_FFFF

  /** Java `int`: 32-bit two's complement. */
  type Int = x: int | -0x8000_0000 <= x <= 0x7FFF_FFFF

  /** A `java.time.LocalDate`, kept as its three components. */
  datatype Date = Date(year: int, month: int, day: int)

  /** One person in the address book. Equality is structural: two contacts
      are equal exactly when every field is. */
  datatype Contact = Contact(
    firstName: string,
    lastName: string,
    address: string,
    city: string,
    state: string,
    zip: Long,
    phoneNumber: Long,
    email: string,
    date: Date,
    addId: Int)

  /** Which store a call is aimed at. */
  datatype IOService = ConsoleIO | FileIO | DbIO | RestIO

  /** The exceptions the service can raise or let through. */
  datatype Exception = DatabaseException | SQLException | IndexOutOfBoundsException

  /** What a call returned, or the exception it threw. */
  datatype Result<T> = Ok(value: T) | Throws(error: Exception)

  /** How a `void` call ended. */
  datatype Status = Completed | Threw(error: Exception)

  /** A reference that may be `null`. */
  datatype Option<T> = None | Some(value: T)
}

# Fitness class booking service — Dafny model

This project models the state machine of a small fitness-class booking service (`app.py`).
The service has two pieces of state:

- the **class catalog**: three seeded class sessions, each with a total and an available slot count;
- the **booking ledger**: an append-only list of bookings.

Three request handlers act on that state. They list the classes, book a slot in a class, and list
the bookings made with one email address.

The model lives in `booking.dfy`, module `FitnessBooking`. Its parts:

- The records are datatypes: `ClassSession`, `Booking`, `ClassView` and `BookRequest`.
- The request handlers' errors are the variants of `Error`, carried in a `Result`.
- The running service is the class `BookingService`. Its fields `classes` and `bookings` are the two
  in-memory lists. `Valid()` is its invariant.
- The booking handler is the method `BookingService.Book`. It is proved equal to the pure transition
  `BookClass` on a `State` value, and the properties of booking are proved about `BookClass`.

The service invariant (`Consistent`) has four parts:

- class ids are distinct;
- `0 <= availableSlots <= totalSlots` for every class;
- for every class, `totalSlots - availableSlots` equals the number of ledger bookings for it;
- every booking names an existing class, and booking ids are distinct.

Library behaviour is passed in as parameters:

- `emailOk`: the email validator;
- `zoneOk`: whether a time-zone name is known;
- `render`: rendering a stored time in a zone as text.

Random ids, the booking timestamp (already rendered as text) and the seed's class ids are inputs.
Each booking id must be fresh with respect to the ledger. The seed's class ids must be pairwise
distinct. Both conditions stand for the uniqueness of random UUIDs.

A request field counts as given when it is present and not the empty string. This follows the
source's truthiness test on the JSON values.

On these points the model follows the code's exact behaviour:

- The no-slots guard is `availableSlots <= 0`, not `== 0` (app.py:85).
- The bookings query also rejects an empty email as missing (app.py:104).
- The decrement is a plain read-modify-write, not an atomic step. The model is sequential, so this
  makes no difference here.

## Model

| member | source | states |
|---|---|---|
| `FitnessBooking.SeedCatalog` | app.py:18-43 | The catalog starts with three classes carrying the three given ids, in that order. Each has a positive capacity and all of its slots free. |
| `FitnessBooking.SeedConsistent` | app.py:14-43 | The seed catalog with an empty ledger satisfies the service invariant, given distinct class ids. |
| `FitnessBooking.FindClass` | app.py:81 | The lookup returns the position of the FIRST class whose id matches. It returns nothing exactly when no class has that id. |
| `FitnessBooking.BookingsFor` | app.py:112 | The query result contains exactly the ledger entries whose email equals the given one (exact, case-sensitive). It is empty when there are none, and never longer than the ledger. |
| `FitnessBooking.CountForAppend` | app.py:96 | Appending a booking raises the booking count of its own class by one and leaves every other class's count as it was. |
| `FitnessBooking.BookingsForAppend` | app.py:96 | Appending a booking puts it at the end of its client's query result and changes no other client's result. Query results are therefore in ledger order. |
| `FitnessBooking.BookClass` | app.py:67-98 | The guards apply in order: missing field, then invalid email, then class not found, then no slots. Each error holds exactly under its condition and leaves catalog and ledger unchanged. The request succeeds exactly when all four guards pass. On success, only the first class with the id loses exactly one slot. The ledger gains exactly one booking at its end, carrying the request's fields, the given id and the given time. |
| `FitnessBooking.BookClassPreservesConsistent` | app.py:85-96 | Any booking request, successful or not, made with a fresh booking id keeps the invariant. That is: `0 <= available <= total`, used slots equal the ledger bookings for each class, bookings name existing classes, and ids are distinct. |
| `FitnessBooking.BookClassQueryEffect` | app.py:89-96 | After a booking request, a client's query result is the old result plus the new booking at its end if that client just booked successfully, and unchanged otherwise. |
| `FitnessBooking.RepeatedBookingExhaustsClass` | app.py:85-88 | Repeating a valid request for one class succeeds exactly as many times as the class had free slots, taking one slot each time. Every later request fails with no-slots-available. At the end, that class has only its free count changed, every other class is unchanged, and the old ledger is a prefix of the new one, which has grown by the number of successes. |
| `FitnessBooking.BookingService.constructor` | app.py:14-43 | The service starts with the seed catalog and an empty ledger, and its invariant holds. |
| `FitnessBooking.BookingService.Book` | app.py:67-98 | Booking returns what `BookClass` returns on the old state and leaves the state `BookClass` gives. The invariant is kept. |
| `FitnessBooking.BookingService.GetBookings` | app.py:102-113 | An absent or empty email gives the missing-field error, checked first. A failed validation gives the invalid-email error. A present, valid email always succeeds, with `BookingsFor` over the ledger (empty when there are no matches). Only the ledger is read, and nothing is changed. |
| `FitnessBooking.BookingService.GetClasses` | app.py:47-63 | The zone defaults to Asia/Kolkata. An unknown zone gives the invalid-time-zone error and no data. Otherwise there is one view per catalog class, in catalog order, with id, name, rendered time, instructor and available slots, and no total. State is not modified. |

## Left out

- HTTP routing, request parsing, JSON serialisation and status codes (app.py:1, 8, 46, 66, 101, 115-116). Errors are the `Error` variants. Request fields are modelled as absent or a string; JSON values of other types, and a body that is not JSON, are not modelled.
- The email validator library (app.py:6, 77, 108) is the parameter `emailOk`. The library's default DNS deliverability check is treated as a fixed function of the string.
- Time-zone lookup, conversion and ISO-8601 rendering (app.py:3, 11, 50-52, 59) are the parameters `zoneOk` and `render`. The property that a rendered time converts back to the stored instant is therefore not stated.
- The wall clock (app.py:94): the booking time is an input string.
- UUID generation (app.py:20, 28, 36, 90): ids are inputs, with freshness and distinctness preconditions.
- Logging (app.py:97).
- Concurrency: the read-decrement-write race between simultaneous bookings is not modelled. The model is sequential.
- In-place mutation of the class dictionary (app.py:88) is modelled as replacing that catalog element by value. Aliasing of class records, which the source never exposes, is not captured.

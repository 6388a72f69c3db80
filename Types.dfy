/**
 * The records shared by every part of the booking demo (src/types/index.ts).
 * Timestamps are whole minutes since a fixed epoch; ISO date strings are
 * abstracted to whole minutes.
 */
module Types {

  datatype Option<T> = None | Some(value: T)

  datatype Result<T, E> = Success(value: T) | Failure(error: E)

  /** An operation that either finishes or reports why it did not. */
  datatype Outcome<E> = Pass | Fail(error: E)

  /** The closed set of booking states; any may follow any other. */
  datatype BookingStatus = Confirmed | Pending | Cancelled | Completed

  datatype Role = Admin | Customer

  /** A catalog entry; `duration` is in minutes and `price` in whole currency units. */
  datatype Service = Service(
    id: string,
    name: string,
    description: string,
    duration: int,
    price: int,
    category: string,
    color: string)

  datatype TimeSlot = TimeSlot(id: string, start: int, end: int, available: bool)

  datatype Booking = Booking(
    id: string,
    serviceId: string,
    serviceName: string,
    start: int,
    end: int,
    customerName: string,
    customerEmail: string,
    customerPhone: string,
    notes: Option<string>,
    status: BookingStatus,
    color: string,
    createdAt: int)

  /** A booking before the store has given it an id and a creation time. */
  datatype BookingDraft = BookingDraft(
    serviceId: string,
    serviceName: string,
    start: int,
    end: int,
    customerName: string,
    customerEmail: string,
    customerPhone: string,
    notes: Option<string>,
    status: BookingStatus,
    color: string)

  datatype User = User(id: string, name: string, email: string, role: Role)

  /** The draft spread into a booking, with the two fields the store supplies. */
  function Stamp(d: BookingDraft, id: string, createdAt: int): (b: Booking)
    ensures b.id == id && b.createdAt == createdAt
    ensures Unstamp(b) == d
  {
    Booking(id, d.serviceId, d.serviceName, d.start, d.end, d.customerName,
            d.customerEmail, d.customerPhone, d.notes, d.status, d.color, createdAt)
  }

  /** The draft a booking was made from: every field but id and createdAt. */
  function Unstamp(b: Booking): BookingDraft
  {
    BookingDraft(b.serviceId, b.serviceName, b.start, b.end, b.customerName,
                 b.customerEmail, b.customerPhone, b.notes, b.status, b.color)
  }

  /** No two bookings of the list share an id. */
  predicate UniqueIds(bs: seq<Booking>)
  {
    forall i, j :: 0 <= i < j < |bs| ==> bs[i].id != bs[j].id
  }

  /** Some booking of the list carries `id`. */
  predicate HasId(bs: seq<Booking>, id: string)
  {
    exists i :: 0 <= i < |bs| && bs[i].id == id
  }
}

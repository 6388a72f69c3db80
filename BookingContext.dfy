/**
 * The booking store (src/context/BookingContext.tsx): an in-memory list of
 * bookings mirrored to localStorage, with create, status update, reschedule
 * and cancel. There is no overlap check and no guard on status transitions.
 * Ids and creation times (uuid v4, `new Date()`) are parameters; toasts are
 * not modelled.
 */
module BookingContext {
  import opened Types
  import opened Storage
  import MockData

  datatype StoreError = NotFound

  /** `bookings.find(b => b.id === id)`. */
  function FindById(bs: seq<Booking>, id: string): (r: Option<Booking>)
    ensures r.None? <==> !HasId(bs, id)
    ensures r.Some? ==> r.value.id == id && r.value == bs[IndexOfId(bs, id)]
  {
    var k := IndexOfId(bs, id);
    if k == -1 then None else Some(bs[k])
  }

  /** `bookings.map(b => b.id === id ? u : b)`: every booking with that id becomes `u`. */
  function ReplaceAll(bs: seq<Booking>, id: string, u: Booking): (r: seq<Booking>)
    decreases |bs|
  {
    if bs == [] then []
    else [if bs[0].id == id then u else bs[0]] + ReplaceAll(bs[1..], id, u)
  }

  lemma {:induction false} ReplaceAllAt(bs: seq<Booking>, id: string, u: Booking)
    ensures |ReplaceAll(bs, id, u)| == |bs|
    ensures forall i :: 0 <= i < |bs| ==>
              ReplaceAll(bs, id, u)[i] == if bs[i].id == id then u else bs[i]
    decreases |bs|
  {
    if bs != [] {
      ReplaceAllAt(bs[1..], id, u);
      assert forall i :: 1 <= i < |bs| ==> ReplaceAll(bs, id, u)[i] == ReplaceAll(bs[1..], id, u)[i - 1];
    }
  }

  /** With unique ids, replacing the first match (storage) and replacing every
      match (memory) give the same list, and the ids stay unique. */
  lemma FirstMatchIsEveryMatch(bs: seq<Booking>, u: Booking)
    requires UniqueIds(bs) && HasId(bs, u.id)
    ensures bs[IndexOfId(bs, u.id) := u] == ReplaceAll(bs, u.id, u)
    ensures UniqueIds(ReplaceAll(bs, u.id, u))
  {
    var k := IndexOfId(bs, u.id);
    ReplaceAllAt(bs, u.id, u);
    forall i | 0 <= i < |bs| ensures bs[k := u][i] == ReplaceAll(bs, u.id, u)[i] {
      if i != k {
        assert bs[i].id != u.id by {
          if i < k { assert bs[i].id != bs[k].id; } else { assert bs[k].id != bs[i].id; }
        }
      }
    }
    var r := ReplaceAll(bs, u.id, u);
    assert forall i :: 0 <= i < |bs| ==> r[i].id == bs[i].id;
  }

  /** Without unique ids the two updates part ways: storage changes the first
      duplicate only, memory changes both. */
  lemma DuplicateIdsDiverge(a: Booking, u: Booking)
    requires u.id == a.id && u != a
    ensures var bs := [a, a];
      bs[IndexOfId(bs, u.id) := u] == [u, a] && ReplaceAll(bs, u.id, u) == [u, u]
  {
    var bs := [a, a];
    assert IndexOfId(bs, u.id) == 0;
    ReplaceAllAt(bs, u.id, u);
  }

  class BookingStore {
    const storage: LocalStorage
    /** The mock module's generated bookings, which the slot generator consults. */
    const generated: seq<Booking>
    var bookings: seq<Booking>
    var services: seq<Service>
    var loading: bool

    /** The in-memory list is the persisted one. */
    ghost predicate Mirrors()
      reads this, storage
    {
      bookings == storage.GetBookings()
    }

    /** The provider's initial state, before its load effect has run. */
    constructor(storage: LocalStorage, generated: seq<Booking>)
      ensures this.storage == storage && this.generated == generated
      ensures bookings == [] && services == [] && loading
    {
      this.storage := storage;
      this.generated := generated;
      bookings, services, loading := [], [], true;
    }

    /** The load effect: copy both persisted lists into memory, then stop loading. */
    method Load()
      modifies this
      ensures bookings == storage.GetBookings() && services == storage.GetServices()
      ensures !loading
      ensures Mirrors()
    {
      bookings := storage.GetBookings();
      services := storage.GetServices();
      loading := false;
    }

    /** `createBooking`: stamp the draft with a fresh id and the current time and
        append it to both lists. Nothing is checked against the other bookings. */
    method CreateBooking(draft: BookingDraft, id: string, now: int) returns (created: Booking)
      modifies this, storage
      ensures created == Stamp(draft, id, now)
      ensures storage.bookings == Some(old(storage.GetBookings()) + [created])
      ensures bookings == old(bookings) + [created]
      ensures services == old(services) && loading == old(loading)
      ensures storage.services == old(storage.services) && storage.users == old(storage.users)
      ensures storage.user == old(storage.user) && storage.token == old(storage.token)
      ensures old(Mirrors()) ==> Mirrors()
      ensures old(UniqueIds(bookings)) && !old(HasId(bookings, id)) ==> UniqueIds(bookings)
    {
      created := Stamp(draft, id, now);
      storage.AddBooking(created);
      bookings := bookings + [created];
    }

    /** `updateBookingStatus`: look the id up in memory; if found, write the booking
        with the new status to storage (first match) and to memory (every match). */
    method UpdateBookingStatus(id: string, status: BookingStatus) returns (r: Outcome<StoreError>)
      modifies this, storage
      ensures var found := FindById(old(bookings), id);
        && (found.None? ==>
              r == Fail(NotFound) && bookings == old(bookings) && storage.bookings == old(storage.bookings))
        && (found.Some? ==>
              var u := found.value.(status := status);
              && r == Pass
              && bookings == ReplaceAll(old(bookings), id, u)
              && storage.bookings == AfterUpdate(old(storage.bookings), u))
      ensures services == old(services) && loading == old(loading)
      ensures storage.services == old(storage.services) && storage.users == old(storage.users)
      ensures storage.user == old(storage.user) && storage.token == old(storage.token)
      ensures old(Mirrors() && UniqueIds(bookings)) ==> Mirrors() && UniqueIds(bookings)
    {
      var bookingToUpdate := FindById(bookings, id);
      if bookingToUpdate.None? {
        return Fail(NotFound);
      }
      var updated := bookingToUpdate.value.(status := status);
      ghost var before := bookings;
      storage.UpdateBooking(updated);
      bookings := ReplaceAll(bookings, id, updated);
      if old(Mirrors() && UniqueIds(bookings)) {
        FirstMatchIsEveryMatch(before, updated);
      }
      r := Pass;
    }

    /** `rescheduleBooking`: like a status update, but it overwrites start and end,
        checking neither their order nor overlap with other bookings. */
    method RescheduleBooking(id: string, newStart: int, newEnd: int) returns (r: Outcome<StoreError>)
      modifies this, storage
      ensures var found := FindById(old(bookings), id);
        && (found.None? ==>
              r == Fail(NotFound) && bookings == old(bookings) && storage.bookings == old(storage.bookings))
        && (found.Some? ==>
              var u := found.value.(start := newStart, end := newEnd);
              && r == Pass
              && bookings == ReplaceAll(old(bookings), id, u)
              && storage.bookings == AfterUpdate(old(storage.bookings), u))
      ensures services == old(services) && loading == old(loading)
      ensures storage.services == old(storage.services) && storage.users == old(storage.users)
      ensures storage.user == old(storage.user) && storage.token == old(storage.token)
      ensures old(Mirrors() && UniqueIds(bookings)) ==> Mirrors() && UniqueIds(bookings)
    {
      var bookingToUpdate := FindById(bookings, id);
      if bookingToUpdate.None? {
        return Fail(NotFound);
      }
      var updated := bookingToUpdate.value.(start := newStart, end := newEnd);
      ghost var before := bookings;
      storage.UpdateBooking(updated);
      bookings := ReplaceAll(bookings, id, updated);
      if old(Mirrors() && UniqueIds(bookings)) {
        FirstMatchIsEveryMatch(before, updated);
      }
      r := Pass;
    }

    /** `cancelBooking`: exactly a status update to cancelled. */
    method CancelBooking(id: string) returns (r: Outcome<StoreError>)
      modifies this, storage
      ensures var found := FindById(old(bookings), id);
        && (found.None? ==>
              r == Fail(NotFound) && bookings == old(bookings) && storage.bookings == old(storage.bookings))
        && (found.Some? ==>
              var u := found.value.(status := Cancelled);
              && r == Pass
              && bookings == ReplaceAll(old(bookings), id, u)
              && storage.bookings == AfterUpdate(old(storage.bookings), u))
      ensures services == old(services) && loading == old(loading)
      ensures storage.services == old(storage.services) && storage.users == old(storage.users)
      ensures storage.user == old(storage.user) && storage.token == old(storage.token)
      ensures old(Mirrors() && UniqueIds(bookings)) ==> Mirrors() && UniqueIds(bookings)
    {
      r := UpdateBookingStatus(id, Cancelled);
    }

    /** `getServiceById`: delegated to storage, not to the in-memory services. */
    function GetServiceById(id: string): Option<Service>
      reads storage
    {
      storage.GetServiceById(id)
    }

    /** `getAvailableTimeSlots`: delegated to the mock generator, which consults
        the generated bookings and never this store's list. */
    method GetAvailableTimeSlots(date: int, serviceId: string) returns (slots: seq<TimeSlot>)
      ensures slots == MockData.DaySchedule(date, MockData.FindService(MockData.Catalog, serviceId), generated)
    {
      slots := MockData.GenerateTimeSlots(date, serviceId, generated);
    }
  }

  /** Two creates for the same time range both succeed and both bookings are kept. */
  method OverlappingCreatesBothSucceed(store: BookingStore, draft: BookingDraft, id1: string, id2: string, now: int)
    modifies store, store.storage
    ensures store.bookings == old(store.bookings) + [Stamp(draft, id1, now), Stamp(draft, id2, now)]
  {
    var first := store.CreateBooking(draft, id1, now);
    var second := store.CreateBooking(draft, id2, now);
  }
}

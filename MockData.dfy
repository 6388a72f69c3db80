/**
 * The demo's reference data and generators (src/data/mockData.ts): the service
 * catalog, the seeded users, the thirty generated bookings and the slot
 * generator that marks each 30-minute slot of 09:00-17:00 available or not.
 *
 * The module-level `bookings` constant is computed once, when the module is
 * loaded, from `Math.random` and the current day; here it is the value
 * `generated` that callers pass in, built by `GenerateBookings` from explicit
 * random picks.
 */
module MockData {
  import opened Types
  import opened Strings
  import opened Calendar

  const Catalog: seq<Service> := [
    Service("1", "Premium Consultation", "One-on-one consultation with our expert advisor.",
            60, 150, "Consultation", "#4f46e5"),
    Service("2", "Executive Coaching", "Personalized coaching session for executives and leaders.",
            90, 250, "Coaching", "#0369a1"),
    Service("3", "Wellness Session", "Comprehensive wellness and mindfulness session.",
            75, 175, "Wellness", "#16a34a"),
    Service("4", "Strategic Planning", "Collaborative strategic planning and roadmapping session.",
            120, 350, "Strategy", "#9333ea"),
    Service("5", "Express Check-in", "Quick check-in and progress assessment.",
            30, 75, "Check-in", "#dc2626")
  ]

  const MockUsers: seq<User> := [
    User("1", "Admin User", "admin@zenya.com", Admin),
    User("2", "Test Customer", "customer@example.com", Customer)
  ]

  datatype Customer = CustomerInfo(name: string, email: string, phone: string)

  const Customers: seq<Customer> := [
    CustomerInfo("Emma Thompson", "emma@example.com", "555-123-4567"),
    CustomerInfo("James Wilson", "james@example.com", "555-987-6543"),
    CustomerInfo("Olivia Garcia", "olivia@example.com", "555-456-7890"),
    CustomerInfo("William Chen", "william@example.com", "555-789-0123"),
    CustomerInfo("Sophia Kim", "sophia@example.com", "555-234-5678")
  ]

  const Statuses: seq<BookingStatus> := [Confirmed, Pending, Cancelled, Completed]

  const SpecialRequests := "Special requests noted for this appointment."

  const MockBookingCount := 30
  const OpeningHour := 9
  const ClosingHour := 17
  const SlotMinutes := 30

  /** `services.find(s => s.id === id)`: the first service with that id. */
  function FindService(services: seq<Service>, id: string): (r: Option<Service>)
    ensures r.None? <==> forall i :: 0 <= i < |services| ==> services[i].id != id
    ensures r.Some? ==> exists k :: 0 <= k < |services| && services[k] == r.value && r.value.id == id
                          && forall i :: 0 <= i < k ==> services[i].id != id
    decreases |services|
  {
    if services == [] then None
    else if services[0].id == id then Some(services[0])
    else
      var r := FindService(services[1..], id);
      assert r.Some? ==> exists k :: 1 <= k < |services| && services[k] == r.value
                          && forall i :: 1 <= i < k ==> services[i].id != id by {
        if r.Some? {
          var k :| 0 <= k < |services[1..]| && services[1..][k] == r.value
                   && forall i :: 0 <= i < k ==> services[1..][i].id != id;
          assert services[k + 1] == r.value;
          assert forall i :: 1 <= i < k + 1 ==> services[i].id == services[1..][i - 1].id;
        }
      }
      r
  }

  // ---------------------------------------------------------------- overlap

  /** The slot test of the generator as written: the slot starts inside the
      booking, ends inside it, or contains it. */
  predicate ThreeWayOverlap(slotStart: int, slotEnd: int, bookingStart: int, bookingEnd: int)
  {
    (slotStart >= bookingStart && slotStart < bookingEnd) ||
    (slotEnd > bookingStart && slotEnd <= bookingEnd) ||
    (slotStart <= bookingStart && slotEnd >= bookingEnd)
  }

  /** Two half-open intervals [aStart, aEnd) and [bStart, bEnd) share an instant. */
  predicate Overlaps(aStart: int, aEnd: int, bStart: int, bEnd: int)
  {
    aStart < bEnd && bStart < aEnd
  }

  /** For a slot and a booking that both end after they start, the three-way test
      is exactly half-open overlap, so touching intervals do not block. */
  lemma ThreeWayIsHalfOpenOverlap(slotStart: int, slotEnd: int, bookingStart: int, bookingEnd: int)
    requires slotStart < slotEnd && bookingStart < bookingEnd
    ensures ThreeWayOverlap(slotStart, slotEnd, bookingStart, bookingEnd)
            <==> Overlaps(slotStart, slotEnd, bookingStart, bookingEnd)
  {
  }

  /** Without `end > start` the two differ: an empty booking at a slot's start
      blocks the slot although it shares no instant with it. */
  lemma EmptyBookingBlocksWithoutOverlap(slotStart: int, slotEnd: int)
    requires slotStart < slotEnd
    ensures ThreeWayOverlap(slotStart, slotEnd, slotStart, slotStart)
    ensures !Overlaps(slotStart, slotEnd, slotStart, slotStart)
  {
  }

  /** The predicate passed to `bookings.some`: a non-cancelled booking caught by the test. */
  predicate Blocks(b: Booking, slotStart: int, slotEnd: int)
  {
    b.status != Cancelled && ThreeWayOverlap(slotStart, slotEnd, b.start, b.end)
  }

  predicate Available(generated: seq<Booking>, slotStart: int, slotEnd: int)
  {
    !exists b :: b in generated && Blocks(b, slotStart, slotEnd)
  }

  // ------------------------------------------------------------- time slots

  /** `slot-` followed by a rendering of the start instant. */
  function SlotId(start: int): string
  {
    "slot-" + IntToString(start)
  }

  lemma SlotIdInjective(a: int, b: int)
    requires SlotId(a) == SlotId(b)
    ensures a == b
  {
    assert IntToString(a) == SlotId(a)[5..] == SlotId(b)[5..] == IntToString(b);
    IntToStringInjective(a, b);
  }

  /** The slot the generator builds at `start`, always 30 minutes long. */
  function SlotAt(start: int, generated: seq<Booking>): TimeSlot
  {
    TimeSlot(SlotId(start), start, start + SlotMinutes, Available(generated, start, start + SlotMinutes))
  }

  /** What `generateTimeSlots(date, serviceId)` returns once the service lookup
      gave `service`: nothing when it found none, otherwise the slots from 09:00 up
      to 17:00 of `date`'s day. The service's duration plays no part. */
  function DaySchedule(date: int, service: Option<Service>, generated: seq<Booking>): seq<TimeSlot>
  {
    if service.None? then []
    else
      Slots(StartOfDay(date) + OpeningHour * MinutesPerHour,
            (ClosingHour - OpeningHour) * MinutesPerHour / SlotMinutes, generated)
  }

  /** The first `n` slots of a walk that starts at `start`. */
  function Slots(start: int, n: nat, generated: seq<Booking>): seq<TimeSlot>
  {
    seq(n, i => SlotAt(start + SlotMinutes * i, generated))
  }

  /** One more step of the walk appends the slot that starts where the last one ends. */
  lemma SlotsSnoc(start: int, n: nat, generated: seq<Booking>)
    ensures Slots(start, n + 1, generated) == Slots(start, n, generated) + [SlotAt(start + SlotMinutes * n, generated)]
  {
  }

  method GenerateTimeSlots(date: int, serviceId: string, generated: seq<Booking>)
    returns (timeSlots: seq<TimeSlot>)
    ensures timeSlots == DaySchedule(date, FindService(Catalog, serviceId), generated)
  {
    var service := FindService(Catalog, serviceId);
    timeSlots := SlotsOfDay(date, service, generated);
  }

  /** The body of `generateTimeSlots` after the service lookup: no slots for a
      missing service, otherwise the walk from 09:00 to 17:00 of the day. */
  method SlotsOfDay(date: int, service: Option<Service>, generated: seq<Booking>)
    returns (timeSlots: seq<TimeSlot>)
    ensures timeSlots == DaySchedule(date, service, generated)
  {
    if service.None? {
      return [];
    }
    var dayStart := StartOfDay(date) + OpeningHour * MinutesPerHour;
    var dayEnd := StartOfDay(date) + ClosingHour * MinutesPerHour;
    timeSlots := WalkSlots(dayStart, dayEnd, generated);
    ghost var schedule := DaySchedule(date, service, generated);
    assert |timeSlots| == 16 == |schedule|;
  }

  /** The `while` loop of `generateTimeSlots`: fixed 30-minute slots from
      `dayStart` while before `dayEnd`, each marked available or not. */
  method WalkSlots(dayStart: int, dayEnd: int, generated: seq<Booking>) returns (timeSlots: seq<TimeSlot>)
    requires dayStart <= dayEnd && (dayEnd - dayStart) % SlotMinutes == 0
    ensures SlotMinutes * |timeSlots| == dayEnd - dayStart
    ensures timeSlots == Slots(dayStart, |timeSlots|, generated)
  {
    ghost var count := (dayEnd - dayStart) / SlotMinutes;
    assert dayEnd == dayStart + SlotMinutes * count;
    var currentSlot := dayStart;
    timeSlots := [];
    while currentSlot < dayEnd
      invariant |timeSlots| <= count
      invariant currentSlot == dayStart + SlotMinutes * |timeSlots|
      invariant timeSlots == Slots(dayStart, |timeSlots|, generated)
      decreases dayEnd - currentSlot
    {
      var slotEnd := currentSlot + SlotMinutes;
      var isAvailable := Available(generated, currentSlot, slotEnd);
      SlotsSnoc(dayStart, |timeSlots|, generated);
      timeSlots := timeSlots + [TimeSlot(SlotId(currentSlot), currentSlot, slotEnd, isAvailable)];
      currentSlot := slotEnd;
    }
  }

  /** An unknown service id yields no slots. */
  lemma UnknownServiceHasNoSlots(date: int, serviceId: string, generated: seq<Booking>)
    requires forall i :: 0 <= i < |Catalog| ==> Catalog[i].id != serviceId
    ensures DaySchedule(date, FindService(Catalog, serviceId), generated) == []
  {
  }

  /** Which service was found plays no part: only its existence, the date and the
      generated bookings decide the slots. */
  lemma ScheduleIgnoresService(date: int, s1: Service, s2: Service, generated: seq<Booking>)
    ensures DaySchedule(date, Some(s1), generated) == DaySchedule(date, Some(s2), generated)
  {
  }

  /** A known service gets sixteen contiguous 30-minute slots from 09:00 to 17:00,
      whatever its duration. */
  lemma ScheduleCoversBusinessHours(date: int, service: Service, generated: seq<Booking>)
    ensures var s := DaySchedule(date, Some(service), generated);
      && |s| == 16
      && s[0].start == StartOfDay(date) + 9 * 60
      && s[15].end == StartOfDay(date) + 17 * 60
      && (forall i :: 0 <= i < 16 ==> s[i].end == s[i].start + 30)
      && (forall i :: 0 <= i < 15 ==> s[i + 1].start == s[i].end)
  {
    var s := DaySchedule(date, Some(service), generated);
    var opening := StartOfDay(date) + OpeningHour * MinutesPerHour;
    assert |s| == 16;
    forall i | 0 <= i < 16
      ensures s[i].start == opening + 30 * i && s[i].end == opening + 30 * i + 30
    {
      assert s[i] == SlotAt(opening + SlotMinutes * i, generated);
    }
  }

  /** Slot ids are distinct, because each is a function of a distinct start. */
  lemma ScheduleIdsDistinct(date: int, service: Option<Service>, generated: seq<Booking>)
    ensures var s := DaySchedule(date, service, generated);
      forall i, j :: 0 <= i < j < |s| ==> s[i].id != s[j].id
  {
    if service.Some? {
      SlotIdsDistinct(StartOfDay(date) + OpeningHour * MinutesPerHour, 16, generated);
    }
  }

  lemma SlotIdsDistinct(start: int, n: nat, generated: seq<Booking>)
    ensures var s := Slots(start, n, generated);
      forall i, j :: 0 <= i < j < n ==> s[i].id != s[j].id
  {
    forall i, j | 0 <= i < j < n
      ensures Slots(start, n, generated)[i].id != Slots(start, n, generated)[j].id
    {
      SlotPairDistinct(start, n, generated, i, j);
    }
  }

  lemma SlotPairDistinct(start: int, n: nat, generated: seq<Booking>, i: nat, j: nat)
    requires i < j < n
    ensures Slots(start, n, generated)[i].id != Slots(start, n, generated)[j].id
  {
    var a, b := start + SlotMinutes * i, start + SlotMinutes * j;
    assert Slots(start, n, generated)[i].id == SlotId(a);
    assert Slots(start, n, generated)[j].id == SlotId(b);
    assert a < b by {
      assert b - a == 30 * (j - i);
    }
    SlotIdsDiffer(a, b);
  }

  lemma SlotIdsDiffer(a: int, b: int)
    requires a != b
    ensures SlotId(a) != SlotId(b)
  {
    if SlotId(a) == SlotId(b) {
      SlotIdInjective(a, b);
    }
  }

  /** A booking list in which every booking that can block ends after it starts. */
  predicate WellFormedBlockers(generated: seq<Booking>)
  {
    forall b :: b in generated && b.status != Cancelled ==> b.start < b.end
  }

  /** A slot is available exactly when no non-cancelled booking shares an instant with it. */
  lemma AvailableIffNoOverlap(date: int, service: Option<Service>, generated: seq<Booking>, i: int)
    requires WellFormedBlockers(generated)
    requires 0 <= i < |DaySchedule(date, service, generated)|
    ensures var s := DaySchedule(date, service, generated)[i];
      s.available <==> forall b :: b in generated && b.status != Cancelled ==>
                                     !Overlaps(s.start, s.end, b.start, b.end)
  {
    var s := DaySchedule(date, service, generated)[i];
    forall b | b in generated && b.status != Cancelled
      ensures Blocks(b, s.start, s.end) <==> Overlaps(s.start, s.end, b.start, b.end)
    {
      ThreeWayIsHalfOpenOverlap(s.start, s.end, b.start, b.end);
    }
  }

  /** Cancelled bookings never make a slot unavailable: adding one changes nothing. */
  lemma CancelledNeverBlocks(date: int, service: Option<Service>, generated: seq<Booking>, c: Booking)
    requires c.status == Cancelled
    ensures DaySchedule(date, service, generated + [c]) == DaySchedule(date, service, generated)
  {
    var s := DaySchedule(date, service, generated + [c]);
    var t := DaySchedule(date, service, generated);
    assert |s| == |t|;
    forall i | 0 <= i < |s| ensures s[i] == t[i] {
      var start := s[i].start;
      assert Available(generated + [c], start, start + SlotMinutes)
         <==> Available(generated, start, start + SlotMinutes) by {
        assert forall b :: b in generated + [c] <==> b in generated || b == c;
      }
    }
  }

  /** One confirmed booking 09:00-09:30 blocks the 09:00 slot only; the touching
      09:30 slot stays available. */
  lemma SingleBookingScenario(date: int, service: Service, b: Booking)
    requires b.status == Confirmed
    requires b.start == StartOfDay(date) + 9 * 60 && b.end == b.start + 30
    ensures var s := DaySchedule(date, Some(service), [b]);
      && |s| == 16
      && !s[0].available
      && forall i :: 1 <= i < 16 ==> s[i].available
  {
    var s := DaySchedule(date, Some(service), [b]);
    assert s[0] == SlotAt(b.start, [b]);
    assert Blocks(b, s[0].start, s[0].end);
    forall i | 1 <= i < 16 ensures s[i].available {
      assert s[i] == SlotAt(b.start + SlotMinutes * i, [b]);
      assert !Blocks(b, s[i].start, s[i].end);
      assert forall c :: c in [b] ==> c == b;
    }
  }

  // --------------------------------------------------------- mock bookings

  /** The `Math.random` outcomes one generated booking depends on, as indices
      and offsets in the ranges `Math.floor(Math.random() * n)` produces. */
  datatype Picks = Picks(service: nat, customer: nat, withNotes: bool, status: nat, createdDaysAgo: nat)
  {
    predicate InRange()
    {
      service < |Catalog| && customer < |Customers| && status < |Statuses| && createdDaysAgo < 10
    }
  }

  /** Booking number i + 1 of the generated list, `today` being the midnight it is generated on. */
  function MockBooking(today: int, i: nat, p: Picks): Booking
    requires p.InRange()
  {
    var service := Catalog[p.service];
    var customer := Customers[p.customer];
    var start := today + (i / 3) * MinutesPerDay + (9 + (i % 3) * 3) * MinutesPerHour;
    Booking("booking-" + NatToString(i + 1), service.id, service.name, start, start + service.duration,
            customer.name, customer.email, customer.phone,
            if p.withNotes then Some(SpecialRequests) else None,
            Statuses[p.status], service.color, today - p.createdDaysAgo * MinutesPerDay)
  }

  method GenerateBookings(now: int, picks: seq<Picks>) returns (bookings: seq<Booking>)
    requires |picks| == MockBookingCount
    requires forall i :: 0 <= i < |picks| ==> picks[i].InRange()
    ensures |bookings| == MockBookingCount
    ensures forall i :: 0 <= i < |bookings| ==> bookings[i] == MockBooking(StartOfDay(now), i, picks[i])
  {
    bookings := [];
    var today := StartOfDay(now);
    for i := 0 to MockBookingCount
      invariant |bookings| == i
      invariant forall k :: 0 <= k < i ==> bookings[k] == MockBooking(today, k, picks[k])
    {
      var dayOffset := i / 3;
      var hourOffset := (i % 3) * 3;
      var startTime := today + dayOffset * MinutesPerDay + (9 + hourOffset) * MinutesPerHour;
      var service := Catalog[picks[i].service];
      var customer := Customers[picks[i].customer];
      var booking := Booking(
        "booking-" + NatToString(i + 1), service.id, service.name, startTime, startTime + service.duration,
        customer.name, customer.email, customer.phone,
        if picks[i].withNotes then Some(SpecialRequests) else None,
        Statuses[picks[i].status], service.color, today - picks[i].createdDaysAgo * MinutesPerDay);
      assert booking == MockBooking(today, i, picks[i]);
      bookings := bookings + [booking];
    }
  }

  /** Every generated booking has a distinct id `booking-1` .. `booking-30`. */
  lemma MockBookingIdsUnique(today: int, picks: seq<Picks>, bookings: seq<Booking>)
    requires |picks| == |bookings|
    requires forall i :: 0 <= i < |picks| ==> picks[i].InRange()
    requires forall i :: 0 <= i < |bookings| ==> bookings[i] == MockBooking(today, i, picks[i])
    ensures UniqueIds(bookings)
  {
    forall i, j | 0 <= i < j < |bookings| ensures bookings[i].id != bookings[j].id {
      MockIdsDiffer(today, i, picks[i], j, picks[j]);
    }
  }

  lemma MockIdsDiffer(today: int, i: nat, p: Picks, j: nat, q: Picks)
    requires p.InRange() && q.InRange() && i != j
    ensures MockBooking(today, i, p).id != MockBooking(today, j, q).id
  {
    var a, b := NatToString(i + 1), NatToString(j + 1);
    assert MockBooking(today, i, p).id == "booking-" + a;
    assert MockBooking(today, j, q).id == "booking-" + b;
    if "booking-" + a == "booking-" + b {
      assert a == ("booking-" + a)[8..] == ("booking-" + b)[8..] == b;
      NatToStringInjective(i + 1, j + 1);
    }
  }

  /** Booking i starts on day floor(i/3) at hour 9, 12 or 15 and lasts exactly
      its service's (positive) duration, so every generated booking ends after it starts. */
  lemma MockBookingTimes(today: int, i: nat, p: Picks)
    requires p.InRange()
    ensures var b := MockBooking(today, i, p);
      && b.start == today + (i / 3) * 1440 + (9 + 3 * (i % 3)) * 60
      && b.end - b.start == Catalog[p.service].duration > 0
      && b.serviceId == Catalog[p.service].id
  {
  }

  lemma GeneratedBookingsWellFormed(today: int, picks: seq<Picks>, bookings: seq<Booking>)
    requires |picks| == |bookings|
    requires forall i :: 0 <= i < |picks| ==> picks[i].InRange()
    requires forall i :: 0 <= i < |bookings| ==> bookings[i] == MockBooking(today, i, picks[i])
    ensures WellFormedBlockers(bookings)
  {
    forall b | b in bookings && b.status != Cancelled ensures b.start < b.end {
      var i :| 0 <= i < |bookings| && bookings[i] == b;
      MockBookingTimes(today, i, picks[i]);
    }
  }
}

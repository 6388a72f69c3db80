/**
 * The logic of the four-step booking wizard (src/views/BookingPage.tsx):
 * service, then date and time, then contact details, then confirmation.
 * Dates are day serials, the month shown is a `YearMonth`, and the wall clock
 * ("today", "now") and the store's fresh booking id are parameters.
 */
module BookingPage {
  import opened Types
  import opened Strings
  import opened Calendar
  import MockData
  import BookingContext

  // ------------------------------------------------------------ mock times

  /** The wizard's fixed list of half-hour labels, 9:00 AM to 5:00 PM. */
  const AllTimeSlots: seq<string> := [
    "9:00 AM", "9:30 AM", "10:00 AM", "10:30 AM", "11:00 AM", "11:30 AM",
    "12:00 PM", "12:30 PM", "1:00 PM", "1:30 PM", "2:00 PM", "2:30 PM",
    "3:00 PM", "3:30 PM", "4:00 PM", "4:30 PM", "5:00 PM"]

  /** Is the label at `index` offered on a day whose day of the month is `seed`? */
  predicate Offered(index: int, seed: int)
  {
    (index + seed) % 3 != 0
  }

  /** `labels.filter((_, index) => (index + seed) % 3 !== 0)`, from position `i` on. */
  function KeepFrom(labels: seq<string>, i: nat, seed: int): seq<string>
    requires i <= |labels|
    decreases |labels| - i
  {
    if i == |labels| then []
    else (if Offered(i, seed) then [labels[i]] else []) + KeepFrom(labels, i + 1, seed)
  }

  /** The local `generateTimeSlots`: the labels offered on a day of the month. */
  function MockTimes(dayOfMonth: int): seq<string>
  {
    KeepFrom(AllTimeSlots, 0, dayOfMonth)
  }

  /** `xs` is `ys` with some elements dropped and the rest in their order. */
  predicate SubsequenceOf(xs: seq<string>, ys: seq<string>)
    decreases |ys|
  {
    xs == [] || (ys != [] && ((xs[0] == ys[0] && SubsequenceOf(xs[1..], ys[1..])) || SubsequenceOf(xs, ys[1..])))
  }

  /** Exactly the offered labels are kept. */
  lemma {:induction false} KeepFromMembers(labels: seq<string>, i: nat, seed: int)
    requires i <= |labels|
    ensures forall x :: x in KeepFrom(labels, i, seed) <==>
              exists j :: i <= j < |labels| && labels[j] == x && Offered(j, seed)
    decreases |labels| - i
  {
    if i < |labels| {
      KeepFromMembers(labels, i + 1, seed);
    }
  }

  /** The kept labels keep their order. */
  lemma {:induction false} KeepFromIsSubsequence(labels: seq<string>, i: nat, seed: int)
    requires i <= |labels|
    ensures SubsequenceOf(KeepFrom(labels, i, seed), labels[i..])
    decreases |labels| - i
  {
    if i < |labels| {
      KeepFromIsSubsequence(labels, i + 1, seed);
      var rest := KeepFrom(labels, i + 1, seed);
      assert labels[i..][0] == labels[i] && labels[i..][1..] == labels[i + 1..];
      var xs, ys := KeepFrom(labels, i, seed), labels[i..];
      if Offered(i, seed) {
        assert xs == [labels[i]] + rest;
        assert xs[0] == ys[0] && xs[1..] == rest;
        assert SubsequenceOf(xs[1..], ys[1..]);
      } else {
        assert xs == rest;
        assert SubsequenceOf(xs, ys[1..]);
      }
    }
  }

  /** Only the day of the month modulo 3 matters. */
  lemma {:induction false} KeepFromPeriodic(labels: seq<string>, i: nat, seed: int, seed': int)
    requires i <= |labels|
    requires seed % 3 == seed' % 3
    ensures KeepFrom(labels, i, seed) == KeepFrom(labels, i, seed')
    decreases |labels| - i
  {
    if i < |labels| {
      OfferedPeriodic(i, seed, seed');
      KeepFromPeriodic(labels, i + 1, seed, seed');
    }
  }

  lemma OfferedPeriodic(i: int, seed: int, seed': int)
    requires seed % 3 == seed' % 3
    ensures Offered(i, seed) == Offered(i, seed')
  {
    var r := seed % 3;
    assert i + seed == (i + r) + 3 * (seed / 3);
    assert i + seed' == (i + r) + 3 * (seed' / 3);
  }

  /** Of any three consecutive labels exactly two are kept. */
  lemma KeepThree(labels: seq<string>, i: nat, seed: int)
    requires i + 3 <= |labels|
    ensures |KeepFrom(labels, i, seed)| == |KeepFrom(labels, i + 3, seed)| + 2
  {
    assert KeepFrom(labels, i + 2, seed) ==
      (if Offered(i + 2, seed) then [labels[i + 2]] else []) + KeepFrom(labels, i + 3, seed);
  }

  /** Of 17 labels, 11 or 12 are kept, depending on the seed modulo 3. */
  lemma KeepSeventeen(labels: seq<string>, seed: int)
    requires |labels| == 17
    ensures |KeepFrom(labels, 0, seed)| == if seed % 3 == 1 then 12 else 11
  {
    KeepNine(labels, 0, seed);
    KeepThree(labels, 9, seed);
    KeepThree(labels, 12, seed);
    KeepLastTwo(labels, seed);
  }

  /** Of nine consecutive labels exactly six are kept. */
  lemma KeepNine(labels: seq<string>, i: nat, seed: int)
    requires i + 9 <= |labels|
    ensures |KeepFrom(labels, i, seed)| == |KeepFrom(labels, i + 9, seed)| + 6
  {
    KeepThree(labels, i, seed);
    KeepThree(labels, i + 3, seed);
    KeepThree(labels, i + 6, seed);
  }

  /** Of the last two of 17 labels, both are kept exactly when the seed is 1 modulo 3. */
  lemma KeepLastTwo(labels: seq<string>, seed: int)
    requires |labels| == 17
    ensures |KeepFrom(labels, 15, seed)| == if seed % 3 == 1 then 2 else 1
  {
    assert KeepFrom(labels, 16, seed) == (if Offered(16, seed) then [labels[16]] else []) + KeepFrom(labels, 17, seed);
    assert KeepFrom(labels, 15, seed) == (if Offered(15, seed) then [labels[15]] else []) + KeepFrom(labels, 16, seed);
  }

  /** When no label repeats, a label is kept exactly when its index passes the test, and order is kept. */
  lemma KeepDistinct(labels: seq<string>, seed: int)
    requires forall i, j :: 0 <= i < j < |labels| ==> labels[i] != labels[j]
    ensures SubsequenceOf(KeepFrom(labels, 0, seed), labels)
    ensures forall i :: 0 <= i < |labels| ==> (labels[i] in KeepFrom(labels, 0, seed) <==> Offered(i, seed))
  {
    KeepFromIsSubsequence(labels, 0, seed);
    assert labels[0..] == labels;
    KeepFromMembers(labels, 0, seed);
    forall i | 0 <= i < |labels| && labels[i] in KeepFrom(labels, 0, seed) ensures Offered(i, seed) {
      var j :| 0 <= j < |labels| && labels[j] == labels[i] && Offered(j, seed);
    }
  }

  /** 11 or 12 of the 17 labels are offered, depending on the day of the month. */
  lemma MockTimesLength(dayOfMonth: int)
    ensures |MockTimes(dayOfMonth)| == if dayOfMonth % 3 == 1 then 12 else 11
  {
    KeepSeventeen(AllTimeSlots, dayOfMonth);
  }

  /** The offered labels are those whose index passes the test, in list order. */
  lemma MockTimesSelection(dayOfMonth: int)
    ensures SubsequenceOf(MockTimes(dayOfMonth), AllTimeSlots)
    ensures forall i :: 0 <= i < |AllTimeSlots| ==>
              (AllTimeSlots[i] in MockTimes(dayOfMonth) <==> Offered(i, dayOfMonth))
  {
    LabelsDistinct();
    KeepDistinct(AllTimeSlots, dayOfMonth);
  }

  /** Days of the month that agree modulo 3 are offered the same labels. */
  lemma MockTimesPeriodic(dayOfMonth: int, other: int)
    requires dayOfMonth % 3 == other % 3
    ensures MockTimes(dayOfMonth) == MockTimes(other)
  {
    KeepFromPeriodic(AllTimeSlots, 0, dayOfMonth, other);
  }

  // ------------------------------------------------------------ label parse

  /** The hour, on a 24-hour clock, that the label at `i` stands for. */
  function LabelHour(i: nat): nat
  {
    9 + i / 2
  }

  /** The hour as a 12-hour clock shows it. */
  function ClockHour(i: nat): nat
  {
    if LabelHour(i) > 12 then LabelHour(i) - 12 else LabelHour(i)
  }

  function MinutesText(i: nat): string
  {
    if i % 2 == 0 then "00" else "30"
  }

  function Meridiem(i: nat): string
  {
    if LabelHour(i) >= 12 then " PM" else " AM"
  }

  /** The label at `i` assembled from its parts. */
  function SlotLabel(i: nat): string
  {
    NatToString(ClockHour(i)) + ":" + MinutesText(i) + Meridiem(i)
  }

  lemma LabelsAt9()
    ensures AllTimeSlots[0] == SlotLabel(0) && AllTimeSlots[1] == SlotLabel(1)
  {
    assert NatToString(9) == "9";
  }

  lemma LabelsAt10()
    ensures AllTimeSlots[2] == SlotLabel(2) && AllTimeSlots[3] == SlotLabel(3)
  {
    assert NatToString(10) == "10";
  }

  lemma LabelsAt11()
    ensures AllTimeSlots[4] == SlotLabel(4) && AllTimeSlots[5] == SlotLabel(5)
  {
    assert NatToString(11) == "11";
  }

  lemma LabelsAt12()
    ensures AllTimeSlots[6] == SlotLabel(6) && AllTimeSlots[7] == SlotLabel(7)
  {
    assert NatToString(12) == "12";
  }

  lemma LabelsAt13()
    ensures AllTimeSlots[8] == SlotLabel(8) && AllTimeSlots[9] == SlotLabel(9)
  {
    assert NatToString(1) == "1";
  }

  lemma LabelsAt14()
    ensures AllTimeSlots[10] == SlotLabel(10) && AllTimeSlots[11] == SlotLabel(11)
  {
    assert NatToString(2) == "2";
  }

  lemma LabelsAt15()
    ensures AllTimeSlots[12] == SlotLabel(12) && AllTimeSlots[13] == SlotLabel(13)
  {
    assert NatToString(3) == "3";
  }

  lemma LabelsAt16()
    ensures AllTimeSlots[14] == SlotLabel(14) && AllTimeSlots[15] == SlotLabel(15)
  {
    assert NatToString(4) == "4";
  }

  lemma LabelAt17()
    ensures AllTimeSlots[16] == SlotLabel(16)
  {
    assert NatToString(5) == "5";
  }

  /** The literal list is the list of assembled labels. */
  lemma AllTimeSlotsAreSlotLabels()
    ensures |AllTimeSlots| == 17
    ensures forall i :: 0 <= i < |AllTimeSlots| ==> AllTimeSlots[i] == SlotLabel(i)
  {
    LabelsAt9();
    LabelsAt10();
    LabelsAt11();
    LabelsAt12();
    LabelsAt13();
    LabelsAt14();
    LabelsAt15();
    LabelsAt16();
    LabelAt17();
  }

  /** No label occurs twice, so keeping a label and keeping its index agree. */
  lemma LabelsDistinct()
    ensures forall i, j :: 0 <= i < j < |AllTimeSlots| ==> AllTimeSlots[i] != AllTimeSlots[j]
  {
    AllTimeSlotsAreSlotLabels();
    forall i, j | 0 <= i < j < |AllTimeSlots| ensures AllTimeSlots[i] != AllTimeSlots[j] {
      ParseSlotLabel(i);
      ParseSlotLabel(j);
      LabelTimesDiffer(i, j);
    }
  }

  /**
   * The time parse of `handleConfirmBooking`: the leading number before ':' as
   * the hour, plus 12 whenever the label contains "PM", and the leading number
   * after the first ':' as the minutes; None where `parseInt` gives NaN.
   */
  function ParseSelectedTime(time: string): Option<(int, int)>
  {
    var hours := ParseLeadingInt(Before(time, ':'));
    var after := AfterFirst(time, ':');
    var minutes := if after.None? then None else ParseLeadingInt(after.value);
    if hours.None? || minutes.None? then None
    else Some((hours.value + (if Includes(time, "PM") then 12 else 0), minutes.value))
  }

  /** Splitting an assembled label at ':' gives the hour digits and the rest. */
  lemma SplitSlotLabel(i: nat)
    ensures Before(SlotLabel(i), ':') == NatToString(ClockHour(i))
    ensures AfterFirst(SlotLabel(i), ':') == Some(MinutesText(i) + Meridiem(i))
  {
    var d := NatToString(ClockHour(i));
    assert SlotLabel(i) == d + [':'] + (MinutesText(i) + Meridiem(i));
    assert forall k :: 0 <= k < |d| ==> d[k] != ':';
    BeforeFirst(d, ':', MinutesText(i) + Meridiem(i));
  }

  lemma ParseMinutesText(i: nat)
    ensures ParseLeadingInt(MinutesText(i) + Meridiem(i)) == Some(if i % 2 == 0 then 0 else 30)
  {
    var mm, sfx := MinutesText(i), Meridiem(i);
    if i % 2 == 0 {
      DigitRunStops(mm, sfx);
      assert (mm + sfx)[..2] == mm && mm[..1] == "0" && "0"[..0] == [];
      assert DigitsValue(mm) == 0;
    } else {
      assert NatToString(30) == "30";
      ParseLeadingIntOfNatToString(30, sfx);
    }
  }

  /** An assembled label contains "PM" exactly from noon on. */
  lemma SlotLabelIncludesPM(i: nat)
    ensures Includes(SlotLabel(i), "PM") <==> LabelHour(i) >= 12
  {
    var s := SlotLabel(i);
    var d := NatToString(ClockHour(i));
    if LabelHour(i) >= 12 {
      assert s == d + ":" + MinutesText(i) + " " + "PM";
      IncludesSuffix(d + ":" + MinutesText(i) + " ", "PM");
    } else {
      assert forall k :: 0 <= k < |d| ==> d[k] != 'P';
      assert forall k :: 0 <= k < |s| ==> s[k] != 'P';
      ExcludesWithoutFirst(s, "PM");
    }
  }

  /** The hour and minutes the label at `i` stands for once parsed: its clock
      hour, plus 12 from noon on, and its minutes. */
  function LabelTime(i: nat): (int, int)
  {
    (ClockHour(i) + (if LabelHour(i) >= 12 then 12 else 0), if i % 2 == 0 then 0 else 30)
  }

  /** Distinct positions stand for distinct times. */
  lemma LabelTimesDiffer(i: nat, j: nat)
    requires i < j < 17
    ensures LabelTime(i) != LabelTime(j)
  {
    if i / 2 == j / 2 {
      assert i % 2 == 0 && j % 2 == 1;
    } else {
      assert LabelHour(i) < LabelHour(j);
    }
  }

  /** What the parse gives on each assembled label. */
  lemma ParseSlotLabel(i: nat)
    ensures ParseSelectedTime(SlotLabel(i)) == Some(LabelTime(i))
  {
    ParseLabelHour(i);
    ParseLabelMinutes(i);
    SlotLabelIncludesPM(i);
    ParseParts(SlotLabel(i), ClockHour(i), LabelTime(i).1);
  }

  lemma ParseLabelHour(i: nat)
    ensures ParseLeadingInt(Before(SlotLabel(i), ':')) == Some(ClockHour(i))
  {
    SplitSlotLabel(i);
    ParseLeadingIntOfNatToString(ClockHour(i), []);
    assert NatToString(ClockHour(i)) + [] == NatToString(ClockHour(i));
  }

  lemma ParseLabelMinutes(i: nat)
    ensures AfterFirst(SlotLabel(i), ':').Some?
    ensures ParseLeadingInt(AfterFirst(SlotLabel(i), ':').value) == Some(if i % 2 == 0 then 0 else 30)
  {
    SplitSlotLabel(i);
    ParseMinutesText(i);
  }

  /** The parse of any text whose two parts parse. */
  lemma ParseParts(time: string, hours: int, minutes: int)
    requires ParseLeadingInt(Before(time, ':')) == Some(hours)
    requires AfterFirst(time, ':').Some? && ParseLeadingInt(AfterFirst(time, ':').value) == Some(minutes)
    ensures ParseSelectedTime(time) == Some((hours + (if Includes(time, "PM") then 12 else 0), minutes))
  {
  }

  /**
   * Every label of the list parses, to its own half hour after 9:00, except that
   * the two noon labels gain twelve hours: "12:00 PM" and "12:30 PM" give hour 24.
   */
  lemma ParsedLabelMinutes(i: nat) returns (p: (int, int))
    requires i < |AllTimeSlots|
    ensures ParseSelectedTime(AllTimeSlots[i]) == Some(p)
    ensures p.0 * 60 + p.1 == 9 * 60 + 30 * i + (if i == 6 || i == 7 then 12 * 60 else 0)
    ensures i == 7 ==> p == (24, 30)
  {
    AllTimeSlotsAreSlotLabels();
    ParseSlotLabel(i);
    p := LabelTime(i);
    LabelMinutes(i);
  }

  /** The hour and minutes of label `i` as minutes after midnight. */
  lemma LabelMinutes(i: nat)
    requires i < 17
    ensures (ClockHour(i) + (if LabelHour(i) >= 12 then 12 else 0)) * 60 + (if i % 2 == 0 then 0 else 30)
            == 9 * 60 + 30 * i + (if i == 6 || i == 7 then 12 * 60 else 0)
    ensures i == 7 ==> ClockHour(i) + (if LabelHour(i) >= 12 then 12 else 0) == 24
  {
    var h, r := i / 2, i % 2;
    assert i == 2 * h + r;
    assert (i == 6 || i == 7) <==> h == 3;
  }

  /** Every label the wizard offers parses: a chosen time never makes the confirmation fail. */
  lemma OfferedTimesParse(dayOfMonth: int, time: string)
    requires time in MockTimes(dayOfMonth)
    ensures exists i :: 0 <= i < |AllTimeSlots| && AllTimeSlots[i] == time && Offered(i, dayOfMonth)
    ensures ParseSelectedTime(time).Some? && time != ""
  {
    KeepFromMembers(AllTimeSlots, 0, dayOfMonth);
    var i :| 0 <= i < |AllTimeSlots| && AllTimeSlots[i] == time && Offered(i, dayOfMonth);
    var p := ParsedLabelMinutes(i);
  }

  // ------------------------------------------------------------ month grid

  /**
   * `getDaysInMonth`: the days before the first of the month back to a Sunday
   * (built by `unshift`), every day of the month, then the days after its last
   * day up to a Saturday (built by `push`).
   */
  method GetDaysInMonth(ym: YearMonth) returns (days: seq<int>)
    requires ym.Valid()
    ensures var first, n := DaysFromCivil(ym.year, ym.month, 1), DaysInMonth(ym.year, ym.month);
      && |days| == Weekday(first) + n + (6 - Weekday(first + n - 1))
      && |days| % 7 == 0
      && (forall k :: 0 <= k < |days| ==> days[k] == first - Weekday(first) + k)
      && days[Weekday(first)] == first && days[Weekday(first) + n - 1] == first + n - 1
      && Weekday(days[0]) == 0 && Weekday(days[|days| - 1]) == 6
  {
    var monthStart := DaysFromCivil(ym.year, ym.month, 1);
    var n := DaysInMonth(ym.year, ym.month);
    days := PadToWeeks(monthStart, n);
  }

  /** The body of `getDaysInMonth` once the month's first day and length are known. */
  method PadToWeeks(monthStart: int, n: int) returns (days: seq<int>)
    requires n >= 1
    ensures |days| == Weekday(monthStart) + n + (6 - Weekday(monthStart + n - 1))
    ensures |days| % 7 == 0
    ensures forall k :: 0 <= k < |days| ==> days[k] == monthStart - Weekday(monthStart) + k
    ensures days[Weekday(monthStart)] == monthStart
    ensures days[Weekday(monthStart) + n - 1] == monthStart + n - 1
    ensures Weekday(days[0]) == 0 && Weekday(days[|days| - 1]) == 6
  {
    var monthEnd := monthStart + n - 1;
    var dateRange := seq(n, k => monthStart + k);
    var startDay := Weekday(monthStart);
    var daysFromPreviousMonth: seq<int> := [];
    var i := 0;
    while i < startDay
      invariant 0 <= i <= startDay
      invariant |daysFromPreviousMonth| == i
      invariant forall k :: 0 <= k < i ==> daysFromPreviousMonth[k] == monthStart - i + k
    {
      daysFromPreviousMonth := [monthStart - (i + 1)] + daysFromPreviousMonth;
      i := i + 1;
    }
    var endDay := Weekday(monthEnd);
    var daysFromNextMonth: seq<int> := [];
    i := 1;
    while i < 7 - endDay
      invariant 1 <= i <= 7 - endDay
      invariant |daysFromNextMonth| == i - 1
      invariant forall k :: 0 <= k < i - 1 ==> daysFromNextMonth[k] == monthEnd + 1 + k
    {
      daysFromNextMonth := daysFromNextMonth + [monthEnd + i];
      i := i + 1;
    }
    days := daysFromPreviousMonth + dateRange + daysFromNextMonth;
    GridIsWholeWeeks(monthStart, n);
  }

  /** Padding from the previous Sunday to the next Saturday gives whole weeks. */
  lemma GridIsWholeWeeks(first: int, n: int)
    requires n >= 1
    ensures (Weekday(first) + n + (6 - Weekday(first + n - 1))) % 7 == 0
    ensures Weekday(first - Weekday(first)) == 0
  {
    var x := first + 4;
    var q, q' := x / 7, (x + n - 1) / 7;
    assert x == 7 * q + Weekday(first);
    assert x + n - 1 == 7 * q' + Weekday(first + n - 1);
    assert Weekday(first) + n + (6 - Weekday(first + n - 1)) == 7 * (q' - q + 1);
  }

  // ------------------------------------------------------------ selectable days

  /** `isDateSelectable`: after today's midnight, or today. */
  predicate Selectable(day: int, today: int)
  {
    day > today || day == today
  }

  /** `hasAvailableSlots`: any selectable day but a Sunday. */
  predicate HasAvailableSlots(day: int, today: int)
  {
    Weekday(day) != 0 && Selectable(day, today)
  }

  // ------------------------------------------------------------ confirmation

  datatype Details = Details(name: string, email: string, phone: string, notes: string)

  datatype DetailField = NameField | EmailField | PhoneField | NotesField

  datatype ConfirmError = MissingInformation | ServiceNotFound | InvalidTime

  /**
   * The booking that `handleConfirmBooking` hands to the store: each failure it
   * reports, in the order it checks them, or the draft with the chosen service,
   * the parsed start on the chosen day, an end one service duration later, the
   * contact details and the status confirmed.
   */
  function ConfirmDraft(selectedService: Option<string>, selectedDate: Option<int>,
                        selectedTime: Option<string>, services: seq<Service>, details: Details)
    : (r: Result<BookingDraft, ConfirmError>)
    ensures (r == Failure(MissingInformation)) <==>
              (!Truthy(selectedService) || selectedDate.None? || !Truthy(selectedTime))
    ensures r == Failure(ServiceNotFound) <==>
              (Truthy(selectedService) && selectedDate.Some? && Truthy(selectedTime)
               && MockData.FindService(services, selectedService.value).None?)
    ensures r == Failure(InvalidTime) <==>
              (Truthy(selectedService) && selectedDate.Some? && Truthy(selectedTime)
               && MockData.FindService(services, selectedService.value).Some?
               && ParseSelectedTime(selectedTime.value).None?)
    ensures r.Success? ==>
              var service := MockData.FindService(services, selectedService.value);
              var parsed := ParseSelectedTime(selectedTime.value);
              && service.Some? && service.value.id == selectedService.value
              && parsed.Some?
              && r.value.start == Midnight(selectedDate.value) + parsed.value.0 * 60 + parsed.value.1
              && r.value.serviceId == service.value.id && r.value.serviceName == service.value.name
              && r.value.color == service.value.color
              && r.value.end - r.value.start == service.value.duration
              && r.value.status == Confirmed
              && r.value.customerName == details.name && r.value.customerEmail == details.email
              && r.value.customerPhone == details.phone && r.value.notes == Some(details.notes)
  {
    if !Truthy(selectedService) || selectedDate.None? || !Truthy(selectedTime) then
      Failure(MissingInformation)
    else
      var service := MockData.FindService(services, selectedService.value);
      if service.None? then Failure(ServiceNotFound)
      else
        var parsed := ParseSelectedTime(selectedTime.value);
        if parsed.None? then Failure(InvalidTime)
        else
          var startTime := Midnight(selectedDate.value) + parsed.value.0 * MinutesPerHour + parsed.value.1;
          var endTime := startTime + service.value.duration;
          Success(BookingDraft(service.value.id, service.value.name, startTime, endTime,
                               details.name, details.email, details.phone, Some(details.notes),
                               Confirmed, service.value.color))
  }

  /**
   * Confirming a label the wizard offers never fails on the time: the booking
   * starts at that label's half hour on the chosen day, except that the two noon
   * labels land twelve hours later, at 00:00 and 00:30 of the next day.
   */
  lemma ConfirmOfferedLabel(serviceId: string, day: int, i: nat, services: seq<Service>, details: Details)
    requires serviceId != "" && i < |AllTimeSlots|
    requires MockData.FindService(services, serviceId).Some?
    ensures var r := ConfirmDraft(Some(serviceId), Some(day), Some(AllTimeSlots[i]), services, details);
      && r.Success?
      && r.value.start == Midnight(day) + 9 * 60 + 30 * i + (if i == 6 || i == 7 then 12 * 60 else 0)
      && (i == 6 || i == 7 ==> r.value.start == Midnight(day + 1) + 30 * (i - 6))
  {
    var p := ParsedLabelMinutes(i);
    assert AllTimeSlots[i] != "" by {
      AllTimeSlotsAreSlotLabels();
    }
  }

  // ------------------------------------------------------------ the wizard

  /** The wizard's state as one value. */
  datatype WizardState = WizardState(
    step: int,
    selectedService: Option<string>,
    currentMonth: YearMonth,
    selectedDate: Option<int>,
    selectedTime: Option<string>,
    availableTimes: seq<string>,
    details: Details,
    isSubmitting: bool)

  class Wizard {
    const store: BookingContext.BookingStore
    var step: int
    var selectedService: Option<string>
    var currentMonth: YearMonth
    var selectedDate: Option<int>
    var selectedTime: Option<string>
    var availableTimes: seq<string>
    var details: Details
    var isSubmitting: bool

    function State(): WizardState
      reads this
    {
      WizardState(step, selectedService, currentMonth, selectedDate, selectedTime,
                  availableTimes, details, isSubmitting)
    }

    /** One of the four steps, and a real month on show. */
    ghost predicate Valid()
      reads this
    {
      1 <= step <= 4 && currentMonth.Valid()
    }

    /** The wizard as it opens: step 1, nothing chosen, the current month on show. */
    constructor(store: BookingContext.BookingStore, thisMonth: YearMonth)
      requires thisMonth.Valid()
      ensures this.store == store
      ensures State() == WizardState(1, None, thisMonth, None, None, [], Details("", "", "", ""), false)
      ensures Valid()
    {
      this.store := store;
      step, selectedService, currentMonth := 1, None, thisMonth;
      selectedDate, selectedTime, availableTimes := None, None, [];
      details, isSubmitting := Details("", "", "", ""), false;
    }

    /** Whether the step's "Continue" button is enabled: a service on step 1, a
        date and a time on step 2, name, email and phone on step 3. */
    predicate CanContinue()
      reads this
    {
      || (step == 1 && Truthy(selectedService))
      || (step == 2 && selectedDate.Some? && Truthy(selectedTime))
      || (step == 3 && details.name != "" && details.email != "" && details.phone != "")
    }

    /** A click on "Continue": `handleNextStep`, unless the button is disabled. */
    method Continue()
      requires Valid()
      modifies this
      ensures Valid()
      ensures State() == old(State()).(step := if old(CanContinue()) then old(step) + 1 else old(step))
    {
      if CanContinue() {
        step := step + 1;
      }
    }

    /** A click on "Back", which steps 2 to 4 show: `handlePreviousStep`. */
    method Back()
      requires Valid() && step >= 2
      modifies this
      ensures Valid()
      ensures State() == old(State()).(step := old(step) - 1)
    {
      step := step - 1;
    }

    method SelectService(serviceId: string)
      requires Valid()
      modifies this
      ensures Valid()
      ensures State() == old(State()).(selectedService := Some(serviceId))
    {
      selectedService := Some(serviceId);
    }

    method ShowPreviousMonth()
      requires Valid()
      modifies this
      ensures Valid()
      ensures State() == old(State()).(currentMonth := PreviousMonth(old(currentMonth)))
    {
      currentMonth := PreviousMonth(currentMonth);
    }

    method ShowNextMonth()
      requires Valid()
      modifies this
      ensures Valid()
      ensures State() == old(State()).(currentMonth := NextMonth(old(currentMonth)))
    {
      currentMonth := NextMonth(currentMonth);
    }

    /** `handleDateSelect`: choose the day, forget the chosen time, offer the day's labels. */
    method SelectDate(day: int)
      requires Valid()
      modifies this
      ensures Valid()
      ensures State() == old(State()).(selectedDate := Some(day), selectedTime := None,
                                       availableTimes := MockTimes(DayOfMonth(day)))
    {
      selectedDate := Some(day);
      selectedTime := None;
      availableTimes := MockTimes(DayOfMonth(day));
    }

    /** A click on a calendar cell: only a day that is not a Sunday and not
        before today is selected; any other click changes nothing. */
    method ClickDay(day: int, today: int)
      requires Valid()
      modifies this
      ensures Valid()
      ensures Weekday(day) != 0 && day >= today ==>
                State() == old(State()).(selectedDate := Some(day), selectedTime := None,
                                         availableTimes := MockTimes(DayOfMonth(day)))
      ensures !(Weekday(day) != 0 && day >= today) ==> State() == old(State())
    {
      if HasAvailableSlots(day, today) {
        SelectDate(day);
      }
    }

    method SelectTime(time: string)
      requires Valid()
      modifies this
      ensures Valid()
      ensures State() == old(State()).(selectedTime := Some(time))
    {
      selectedTime := Some(time);
    }

    /** `handleInputChange`: only the named detail changes. */
    method InputChange(field: DetailField, value: string)
      requires Valid()
      modifies this
      ensures Valid()
      ensures State() == old(State()).(details := WithDetail(old(details), field, value))
    {
      details := WithDetail(details, field, value);
    }

    /**
     * `handleConfirmBooking`: with information missing nothing happens; otherwise
     * the wizard is busy while it builds the draft and, when that succeeds, hands
     * it to the store; it is idle again afterwards whatever the outcome.
     */
    method ConfirmBooking(id: string, now: int) returns (r: Result<Booking, ConfirmError>)
      requires Valid()
      modifies this, store, store.storage
      ensures Valid()
      ensures var d := ConfirmDraft(old(selectedService), old(selectedDate), old(selectedTime),
                                    old(store.services), old(details));
        && (d.Failure? ==> r == Failure(d.error) && unchanged(store, store.storage))
        && (d.Success? ==>
              && r == Success(Stamp(d.value, id, now))
              && store.bookings == old(store.bookings) + [r.value]
              && store.storage.bookings == Some(old(store.storage.GetBookings()) + [r.value])
              && store.services == old(store.services) && store.loading == old(store.loading)
              && store.storage.services == old(store.storage.services)
              && store.storage.users == old(store.storage.users)
              && store.storage.user == old(store.storage.user)
              && store.storage.token == old(store.storage.token))
        && State() == old(State()).(isSubmitting :=
             if d == Failure(MissingInformation) then old(isSubmitting) else false)
      ensures old(store.Mirrors()) ==> store.Mirrors()
    {
      if !Truthy(selectedService) || selectedDate.None? || !Truthy(selectedTime) {
        return Failure(MissingInformation);
      }
      isSubmitting := true;
      var draft := ConfirmDraft(selectedService, selectedDate, selectedTime, store.services, details);
      if draft.Failure? {
        isSubmitting := false;
        return Failure(draft.error);
      }
      var created := store.CreateBooking(draft.value, id, now);
      isSubmitting := false;
      r := Success(created);
    }
  }

  /** The details with one field replaced. */
  function WithDetail(d: Details, field: DetailField, value: string): Details
  {
    match field
    case NameField => d.(name := value)
    case EmailField => d.(email := value)
    case PhoneField => d.(phone := value)
    case NotesField => d.(notes := value)
  }
}

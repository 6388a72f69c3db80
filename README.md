# Zenya booking core in Dafny

Zenya is a client-side booking demo for a wellness studio. Customers pick a
service, a day and a half-hour time, and leave their contact details. Bookings
are kept in the browser's localStorage. A dashboard counts them by status, and a
mock sign-in keeps a user and a token in two more localStorage keys.

This project models the logic behind those screens:

- `Types` — the records of `src/types`: service, time slot, booking, booking draft, user, status and role.
- `MockData` — the service catalog, the two users, the thirty generated bookings and the slot generator `generateTimeSlots`. The generator walks 09:00–17:00 in 30-minute steps and marks a slot unavailable when a non-cancelled booking overlaps it by a three-way test.
- `Storage` — `initializeLocalStorage` and the get, add, update and delete operations of `src/utils/storage.ts`. localStorage is one class whose fields are the keys, each present or absent.
- `BookingContext` — the booking provider: an in-memory list mirrored to storage, with create, status update, reschedule and cancel.
- `BookingPage` — the four-step booking wizard. This covers the mock list of offered times, the parse of the chosen label, the month grid, the choice of day and the confirmation.
- `Dashboard` — the five statistics counts.
- `DateUtils` — `formatDuration`.
- `AuthContext` and `RegisterPage` — the mock authentication state and the sign-up form.
- `Strings` and `Calendar` — helpers. `Strings` renders numbers as decimal text and models `parseInt`, `split` and `includes`. `Calendar` computes day serials, weekdays and month lengths.

Conventions:

- An instant is a whole number of minutes since 1970-01-01 00:00.
- A calendar day is a day serial; day 0 is that Thursday.
- JSON encoding and decoding are the identity.
- `Math.random` outcomes, `uuid`, `Date.now` and "today" are parameters.

In a few places the code does something a reader might not expect; the model follows the code:

- `createBooking` copies the status the caller supplies. It does not default it to confirmed. The booking page always supplies confirmed.
- The storage getters call `JSON.parse` without a guard. Malformed stored data is therefore not read as an empty list.
- Each time slot ends 30 minutes after it starts, whatever the service's duration.
- The store has no "by id" or "by service" booking queries.

A quirk of the time parse is modelled as written. Any label containing "PM" gains twelve hours, so "12:00 PM" and "12:30 PM" become hour 24. A booking made for either label starts at 00:00 or 00:30 of the next day. `BookingPage.ConfirmOfferedLabel` states this.

## Model

| member | source | states |
|---|---|---|
| Types.Stamp | src/context/BookingContext.tsx:53-59 | a created booking carries the fresh id and creation time and, without them, is exactly the draft it came from |
| Strings.ParseLeadingInt | src/views/BookingPage.tsx:189-191 | `parseInt` without a radix reads hexadecimal digits after a `0x`/`0X` prefix and decimal digits otherwise; it yields NaN (None) exactly when the text does not start with a digit or the prefix is not followed by a hexadecimal digit, and without the prefix the value is that of the leading decimal digits |
| Strings.HexadecimalPrefix | src/views/BookingPage.tsx:189-191 | "0x1A" and "0X1a" parse to 26, "0x" and "0xg" to NaN, "0" and "0y" to 0 |
| Strings.Before | src/context/AuthContext.tsx:58 | `split('@')[0]` is a prefix of the text without '@', followed by '@' whenever it is shorter than the text |
| Strings.Utf16Length | src/context/AuthContext.tsx:55 | `length` counts UTF-16 code units: between one and two per character, and one per character exactly when none lies beyond U+FFFF |
| Calendar.StartOfDay | src/data/mockData.ts:126-127 | `startOfDay` gives the midnight at or before the instant, less than a day before it |
| Calendar.PreviousMonth | src/views/BookingPage.tsx:83-85 | the month before a valid month is valid, and the month after it is the month we started from |
| Calendar.NextMonth | src/views/BookingPage.tsx:87-89 | the month after a valid month is valid: the next month of the same year, December rolling over to January of the next year |
| Calendar.DaysInMonth | src/views/BookingPage.tsx:134 | every month has 28 to 31 days |
| Calendar.MonthsAreConsecutive | src/views/BookingPage.tsx:134-135 | within a year, the day serials of consecutive first days of the month lie exactly one month length apart, February included |
| Calendar.DecemberLength | src/views/BookingPage.tsx:87-89 | from December 1st to the next January 1st is December's length |
| Calendar.NextMonthStartsAfterThisOne | src/views/BookingPage.tsx:87-89 | for every valid month, December included, the month after it starts one month length after its first day, so serials and month lengths agree |
| Calendar.DayOfMonthOfCivil | src/views/BookingPage.tsx:125 | `getDate()` of the day serial of any valid y-m-d is d, so the day of the month seeding the offered times is the calendar day chosen |
| MockData.FindService | src/data/mockData.ts:122 | the lookup finds nothing exactly when no service has the id; otherwise it returns the first service with that id |
| MockData.ThreeWayOverlap | src/data/mockData.ts:144-146 | the source's three-way test; ThreeWayIsHalfOpenOverlap proves it is half-open overlap for non-empty intervals, and EmptyBookingBlocksWithoutOverlap shows where it is not |
| MockData.Available | src/data/mockData.ts:137-148 | no non-cancelled booking passes the test against the slot; AvailableIffNoOverlap and CancelledNeverBlocks state what it means |
| MockData.DaySchedule | src/data/mockData.ts:120-160 | the day's slots for a found service, none otherwise; GenerateTimeSlots and SlotsOfDay compute it, ScheduleCoversBusinessHours and ScheduleIdsDistinct describe it |
| MockData.ThreeWayIsHalfOpenOverlap | src/data/mockData.ts:142-146 | for non-empty slot and booking, the three-way test holds exactly when the half-open intervals share an instant |
| MockData.EmptyBookingBlocksWithoutOverlap | src/data/mockData.ts:144-146 | a booking with end equal to start at a slot's start passes the test without sharing any instant with the slot |
| MockData.SlotIdInjective | src/data/mockData.ts:151 | distinct slot starts give distinct slot ids |
| MockData.GenerateTimeSlots | src/data/mockData.ts:120-124 | the generator's result is the schedule of the day for the service found in the catalog |
| MockData.SlotsOfDay | src/data/mockData.ts:126-160 | the 30-minute walk from 09:00 while before 17:00 builds exactly the day's schedule |
| MockData.WalkSlots | src/data/mockData.ts:129-160 | from a start to an end a whole number of half hours later, the loop yields one slot per half hour, consecutive 30-minute slots each marked by the overlap test over the bookings |
| MockData.UnknownServiceHasNoSlots | src/data/mockData.ts:122-124 | an id that no catalog service has gives no slots |
| MockData.ScheduleIgnoresService | src/data/mockData.ts:120-137 | which service was found does not change the slots, only that one was found |
| MockData.ScheduleCoversBusinessHours | src/data/mockData.ts:126-134 | a known service gets sixteen contiguous 30-minute slots from 09:00 to 17:00 whatever its duration |
| MockData.ScheduleIdsDistinct | src/data/mockData.ts:150-151 | no two slots of a day share an id |
| MockData.SlotIdsDistinct | src/data/mockData.ts:150-151 | any run of consecutive 30-minute slots has pairwise distinct ids |
| MockData.AvailableIffNoOverlap | src/data/mockData.ts:137-148 | with well-formed bookings, a slot is available exactly when no non-cancelled booking overlaps it |
| MockData.CancelledNeverBlocks | src/data/mockData.ts:143 | adding a cancelled booking leaves every slot as it was |
| MockData.SingleBookingScenario | src/data/mockData.ts:133-157 | one confirmed 09:00–09:30 booking blocks the 09:00 slot and no other, so the touching 09:30 slot stays available |
| MockData.GenerateBookings | src/data/mockData.ts:54-99 | the loop builds thirty bookings, the i-th from day i/3, hour 9, 12 or 15, and the i-th random picks |
| MockData.MockBooking | src/data/mockData.ts:69-88 | the i-th generated booking; MockBookingTimes, MockBookingIdsUnique and GeneratedBookingsWellFormed state its times, id and shape |
| MockData.MockBookingIdsUnique | src/data/mockData.ts:69-83 | the generated ids `booking-1` .. `booking-30` are pairwise distinct |
| MockData.MockBookingTimes | src/data/mockData.ts:70-87 | a generated booking starts at its day and hour and lasts its service's positive duration |
| MockData.GeneratedBookingsWellFormed | src/data/mockData.ts:87 | every generated booking ends after it starts, so the overlap test is half-open overlap on them |
| Storage.IndexOfId | src/utils/storage.ts:38 | `findIndex` gives -1 exactly when no booking has the id, else the first position holding it |
| Storage.WithoutId | src/utils/storage.ts:48 | the delete filter; WithoutIdMembers, WithoutIdAppend and WithoutIdIdempotent state which bookings stay, in which order, and that it is idempotent |
| Storage.AfterUpdate | src/utils/storage.ts:36-44 | the bookings key after an update; UpdateReplacesFirstMatchOnly states that only the first match changes |
| Storage.LocalStorage.Initialize | src/utils/storage.ts:10-22 | each of the three collection keys is seeded independently, so reading it afterwards gives its old list, or the seed when it was absent; the session keys are untouched |
| Storage.LocalStorage.InitializeTwice | src/main.tsx:9 | seeding at start-up twice has the effect of seeding once |
| Storage.LocalStorage.AddBooking | src/utils/storage.ts:30-34 | reading the bookings afterwards gives the old list with the booking appended; other keys are unchanged |
| Storage.LocalStorage.UpdateBooking | src/utils/storage.ts:36-44 | the first booking with the id is overwritten, nothing is written when there is none, and the list read back keeps its length |
| Storage.LocalStorage.DeleteBooking | src/utils/storage.ts:46-50 | the bookings key is always written, and reading it afterwards gives the old list without the id |
| Storage.LocalStorage.GetServiceById | src/utils/storage.ts:58-61 | undefined exactly when no stored service has the id; otherwise the stored service with that id that no earlier stored service shares |
| Storage.LocalStorage.GetCurrentUser | src/utils/storage.ts:69-74 | undefined exactly when there are no users, and an admin exactly when some stored user is an admin |
| Storage.CurrentUserOf | src/utils/storage.ts:73 | the first admin when there is one, otherwise the first user |
| Storage.SeedingIdempotent | src/utils/storage.ts:10-22 | seeding a seeded key changes nothing |
| Storage.UpdateReplacesFirstMatchOnly | src/utils/storage.ts:36-44 | an update keeps the length and every position but the first match of the id |
| Storage.WithoutIdMembers | src/utils/storage.ts:46-50 | after a delete, a booking remains exactly when it was there and has another id |
| Storage.WithoutIdAppend | src/utils/storage.ts:48 | the filter distributes over concatenation, so survivors keep their order |
| Storage.WithoutIdIdempotent | src/utils/storage.ts:46-50 | deleting twice equals deleting once, and deleting an absent id changes nothing |
| Storage.SeededCurrentUserIsAdmin | src/utils/storage.ts:69-74 | on the seeded users the current user is the admin |
| BookingContext.FindById | src/context/BookingContext.tsx:75 | `find` returns nothing exactly when no booking has the id, else the booking at its first position |
| BookingContext.ReplaceAll | src/context/BookingContext.tsx:87-89 | the in-memory `map`; ReplaceAllAt states its length and every position |
| BookingContext.ReplaceAllAt | src/context/BookingContext.tsx:87-89 | the in-memory `map` keeps the length and replaces every booking with the id |
| BookingContext.FirstMatchIsEveryMatch | src/context/BookingContext.tsx:86-89 | with unique ids, the storage update and the in-memory update give the same list, with ids still unique |
| BookingContext.DuplicateIdsDiverge | src/context/BookingContext.tsx:86-89 | with a duplicated id, storage changes the first copy and memory changes both |
| BookingContext.BookingStore.constructor | src/context/BookingContext.tsx:29-31 | the provider starts with empty lists and loading |
| BookingContext.BookingStore.Load | src/context/BookingContext.tsx:33-51 | the load effect copies both persisted lists and stops loading, so memory mirrors storage |
| BookingContext.BookingStore.CreateBooking | src/context/BookingContext.tsx:53-71 | the stamped draft is appended to storage and memory without any overlap check; the mirror and unique ids are kept for a fresh id |
| BookingContext.BookingStore.UpdateBookingStatus | src/context/BookingContext.tsx:73-96 | an unknown id fails and changes nothing; otherwise the booking with the new status is written to storage (first match) and memory (every match), preserving the mirror |
| BookingContext.BookingStore.RescheduleBooking | src/context/BookingContext.tsx:98-122 | as a status update, but start and end are overwritten unchecked |
| BookingContext.BookingStore.CancelBooking | src/context/BookingContext.tsx:124-126 | cancelling is a status update to cancelled |
| BookingContext.BookingStore.GetAvailableTimeSlots | src/context/BookingContext.tsx:132-134 | slots come from the mock generator over the generated bookings, never from the store's list |
| BookingContext.OverlappingCreatesBothSucceed | src/context/BookingContext.tsx:53-62 | two creates for the same time range both append their booking |
| DateUtils.FormatDuration | src/utils/dateUtils.ts:39-52 | the duration text; FormatDurationShapes gives its four shapes and FormatDurationInjective shows that distinct durations read differently |
| DateUtils.FormatDurationShapes | src/utils/dateUtils.ts:39-52 | the text is "N min", "1 hour", "H hours" or "H hr M min", with hours and minutes that add back up to the input |
| DateUtils.FormatDurationInjective | src/utils/dateUtils.ts:39-52 | distinct durations are shown as distinct texts |
| DateUtils.HourAndMinutesText | src/utils/dateUtils.ts:39-52 | a duration strictly between one and two hours reads "1 hr M min" with M the minutes past the hour |
| DateUtils.CatalogDurations | src/utils/dateUtils.ts:39-52 | the catalog's five durations read "1 hour", "1 hr 30 min", "1 hr 15 min", "2 hours" and "30 min" |
| Dashboard.CountStatus | src/views/Dashboard.tsx:27-41 | a status count never exceeds the number of bookings |
| Dashboard.CountUpcoming | src/views/Dashboard.tsx:23-25 | the upcoming count never exceeds the number of bookings |
| Dashboard.ComputeStats | src/views/Dashboard.tsx:20-50 | the four status counts add up to the number of bookings, and upcoming plus cancelled never exceeds it |
| Dashboard.StatusCountsPartition | src/views/Dashboard.tsx:27-41 | every booking is counted under exactly one status |
| Dashboard.UpcomingExcludesCancelled | src/views/Dashboard.tsx:23-37 | no booking is counted both as upcoming and as cancelled |
| Dashboard.AppendOneBooking | src/views/Dashboard.tsx:20-50 | a new booking raises its own status count by one, and the upcoming count exactly when it is future and not cancelled |
| Dashboard.CompletedIgnoresDates | src/views/Dashboard.tsx:39-41 | the completed count depends on statuses only, not on dates or the current instant |
| Dashboard.CancelMovesUpcomingToCancelled | src/views/Dashboard.tsx:23-37 | cancelling a future booking moves one from upcoming to cancelled |
| BookingPage.KeepFrom | src/views/BookingPage.tsx:126-128 | the index filter; KeepFromMembers, KeepFromIsSubsequence and KeepFromPeriodic state what it keeps, in which order, and its period |
| BookingPage.MockTimes | src/views/BookingPage.tsx:117-128 | the labels offered on a day of the month; MockTimesLength, MockTimesSelection and MockTimesPeriodic describe them |
| BookingPage.KeepFromMembers | src/views/BookingPage.tsx:126-128 | the filter keeps exactly the labels at offered positions |
| BookingPage.KeepFromIsSubsequence | src/views/BookingPage.tsx:126-128 | the kept labels are the list with some labels dropped and the rest in order |
| BookingPage.KeepFromPeriodic | src/views/BookingPage.tsx:125-128 | seeds that agree modulo 3 keep the same labels |
| BookingPage.MockTimesLength | src/views/BookingPage.tsx:117-128 | 12 labels are offered on days 1, 4, 7, … of a month and 11 on the others |
| BookingPage.MockTimesSelection | src/views/BookingPage.tsx:117-128 | the offered labels are in list order, and a label is offered exactly when its index passes the test |
| BookingPage.MockTimesPeriodic | src/views/BookingPage.tsx:125-128 | days of the month that agree modulo 3 are offered the same times |
| BookingPage.AllTimeSlotsAreSlotLabels | src/views/BookingPage.tsx:117-121 | the seventeen labels are the half hours 9:00 AM to 5:00 PM on a 12-hour clock |
| BookingPage.LabelsDistinct | src/views/BookingPage.tsx:117-121 | no label occurs twice |
| BookingPage.ParseSlotLabel | src/views/BookingPage.tsx:189-191 | a label parses to its clock hour, plus 12 when it holds "PM", and its minutes |
| BookingPage.ParsedLabelMinutes | src/views/BookingPage.tsx:189-194 | label i parses to 9:00 plus i half hours, except the two noon labels, which gain twelve hours ("12:30 PM" gives 24:30) |
| BookingPage.OfferedTimesParse | src/views/BookingPage.tsx:189-191 | every offered time is a label at an offered index and parses |
| BookingPage.GetDaysInMonth | src/views/BookingPage.tsx:132-156 | the grid runs from the Sunday on or before the 1st to the Saturday on or after the last day, consecutive days, whole weeks |
| BookingPage.PadToWeeks | src/views/BookingPage.tsx:135-155 | the `unshift` and `push` loops pad the month's days to consecutive whole weeks from a Sunday to a Saturday |
| BookingPage.GridIsWholeWeeks | src/views/BookingPage.tsx:138-153 | the padding on both sides makes the length a multiple of seven, starting on a Sunday |
| BookingPage.ConfirmDraft | src/views/BookingPage.tsx:173-211 | missing information exactly when service, date or time is unset; service-not-found exactly when set but unknown; invalid time exactly when all are known but the time does not parse; on success the draft starts at the parsed hour and minutes of the chosen day, lasts the service's duration, has the service's id, name and colour, the details and status confirmed |
| BookingPage.ConfirmOfferedLabel | src/views/BookingPage.tsx:188-197 | confirming an offered label for a known service succeeds and starts at that half hour, the noon labels at 00:00 and 00:30 of the next day |
| BookingPage.ParseSelectedTime | src/views/BookingPage.tsx:189-191 | the time parse; ParseSlotLabel and ParsedLabelMinutes give its value on every label, and ConfirmDraft's invalid-time case says when it fails |
| BookingPage.Selectable | src/views/BookingPage.tsx:159-163 | a day is selectable when it is today or later |
| BookingPage.HasAvailableSlots | src/views/BookingPage.tsx:166-170 | a selectable day that is not a Sunday; Wizard.ClickDay's contract states its effect |
| BookingPage.Wizard.constructor | src/views/BookingPage.tsx:27-45 | the wizard opens on step 1 with nothing chosen and the current month shown |
| BookingPage.Wizard.CanContinue | src/views/BookingPage.tsx:433-761 | the disabled conditions of the three "Continue" buttons: a service, then a date and a time, then name, email and phone; Wizard.Continue advances exactly when it holds |
| BookingPage.Wizard.Continue | src/views/BookingPage.tsx:71-73 | the step advances by one only when the step's requirements are met, and nothing else changes |
| BookingPage.Wizard.Back | src/views/BookingPage.tsx:75-77 | the step goes back by one and nothing else changes |
| BookingPage.Wizard.SelectService | src/views/BookingPage.tsx:79-81 | only the chosen service changes |
| BookingPage.Wizard.ShowPreviousMonth | src/views/BookingPage.tsx:83-85 | only the month shown changes, to the one before |
| BookingPage.Wizard.ShowNextMonth | src/views/BookingPage.tsx:87-89 | only the month shown changes, to the one after |
| BookingPage.Wizard.SelectDate | src/views/BookingPage.tsx:91-99 | the day is chosen, the time is forgotten and the day's mock times are offered |
| BookingPage.Wizard.ClickDay | src/views/BookingPage.tsx:159-170 | a click selects the day exactly when it is not a Sunday and not before today; otherwise nothing changes |
| BookingPage.Wizard.SelectTime | src/views/BookingPage.tsx:101-103 | only the chosen time changes |
| BookingPage.Wizard.InputChange | src/views/BookingPage.tsx:106-112 | only the named detail changes |
| BookingPage.Wizard.ConfirmBooking | src/views/BookingPage.tsx:173-229 | a failed draft reports its error and leaves the store alone; a good one is stamped and appended to the store and storage, leaving the store's loading flag, services and the stored services, users, user and token as they were; the wizard is idle afterwards unless information was missing |
| AuthContext.LoginName | src/context/AuthContext.tsx:58 | the derived name is the email's part before its first '@' |
| AuthContext.AcceptsLogin | src/context/AuthContext.tsx:55 | a non-empty email and a password of six or more UTF-16 code units; Auth.Login succeeds exactly when it holds |
| AuthContext.ThreeEmojiPasswordAccepted | src/context/AuthContext.tsx:55 | a password of three characters beyond U+FFFF has six code units and is accepted |
| AuthContext.NewUser | src/context/AuthContext.tsx:56-61 | the account a sign-in or registration creates is a customer with the given name and email and an id from the clock |
| AuthContext.Auth.constructor | src/context/AuthContext.tsx:18-19 | the provider starts with nobody signed in and loading |
| AuthContext.Auth.LoadUser | src/context/AuthContext.tsx:24-40 | with both keys set, the stored user is restored, or both keys are removed when it does not parse; loading stops |
| AuthContext.Auth.Login | src/context/AuthContext.tsx:46-82 | sign-in succeeds exactly for a non-empty email and a password of six or more UTF-16 code units, storing a customer named after the email and the mock token; failure changes nothing |
| AuthContext.Auth.Register | src/context/AuthContext.tsx:85-118 | registration succeeds exactly for a password of six or more UTF-16 code units, storing the new customer and the token; failure changes nothing |
| AuthContext.Auth.Logout | src/context/AuthContext.tsx:121-127 | both keys are removed and nobody is signed in |
| AuthContext.LoginSurvivesReload | src/context/AuthContext.tsx:64-67 | after a successful sign-in, a fresh provider over the same storage restores the same user |
| AuthContext.LogoutSurvivesReload | src/context/AuthContext.tsx:121-124 | after signing out, a fresh provider finds nobody |
| RegisterPage.Validate | src/views/RegisterPage.tsx:62-75 | each message is shown exactly when its check is the first to fail, and the form passes exactly when all fields are filled, the passwords match and have six or more UTF-16 code units |
| RegisterPage.RegisterForm.constructor | src/views/RegisterPage.tsx:12-18 | the form starts empty and not submitting |
| RegisterPage.RegisterForm.InputChange | src/views/RegisterPage.tsx:50-56 | only the named field changes |
| RegisterPage.RegisterForm.Submit | src/views/RegisterPage.tsx:58-87 | a failing form reports its first failed check and registers nothing; a passing one registers its name, email and password and ends not submitting |

## Left out

- Slot ids: `format(currentSlot, 'yyyyMMddHHmm')` is rendered as the decimal minute count. Both are injective in the start instant, which is all the model relies on.
- Strings.ParseLeadingInt: `parseInt` is modelled only on text without leading blanks or a sign, which is all the wizard's labels contain.
- Time zones and daylight-saving time: instants and days are uniform, a day being 1440 minutes.
- Toasts, `navigate`, the one-second sign-in delay and the 1.5-second redirect delay have no effect on state and are left out.
- `JSON.parse` is modelled only for the stored user: a serialized user, or text that does not parse. The collection keys always hold what was written.
- Service durations and instants are whole minutes; fractional values are not modelled.
- Concurrent writes from several browser tabs are not modelled; each operation runs to completion.
- `Date.now`, `uuid`, `new Date()` and `Math.random` are parameters, not modelled sources.
- The other helpers of `src/utils/dateUtils.ts` only wrap date-fns formatting into display text and are not part of this model.
- The login page and the calendar view are not part of this model.
- BookingContext.BookingStore.GetServiceById: a one-line delegation to `Storage.LocalStorage.GetServiceById`, whose contract it shares. It has no row of its own.
- The register page's header-transparency effect is presentation only.
- Only the pure logic of the dashboard (its statistics effect) is modelled, not its rendering or filters.

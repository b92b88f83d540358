# CarRent client logic in Dafny

This project models the small pieces of exact logic inside the CarRent web client (a car
rental site built with Next.js and React). It models them as Dafny datatypes, functions,
classes and lemmas:

- **Home page availability filter.** The search window is the selected start and end times.
  A car stays listed only if none of its booked slots overlaps that window. The overlap test
  is moment's inclusive `isBetween(…, "[]")` in four clauses. The per-car scan stops at the
  first conflict. The outer `filter` keeps the list order. The handlers read and write the
  page's `cars`, `filteredCars`, `error`, both filter bounds and `showFilter`.
- **Registration and login validation.** Each regular expression is a predicate on
  `seq<char>`. Each submit handler runs its checks in a fixed order and shows only the first
  failure. The server's answer is an input. The login handler stores the session only for a
  reply that has both `success` and a token.
- **Bookings page arithmetic.** This covers the "`<h>`h `<m>`m" label, the invoice's
  "`<h>` hours `<m>` minutes" line, the invoice's payment rows with the pro-rated driver
  charge (300 per 1440 minutes), and the invoice file name built from the last 8 characters
  of the booking id.
- **Date-time picker.** This covers the zero-padded `YYYY-MM-DDTHH:mm` and
  `DD/MM/YYYY HH:mm` formatters, the `min` string, the input's value, and the change handler.
- **Carousels.** The reviews index moves with prev/next/dot and the hero index with
  timer/indicator. Both are modular steps over a fixed number of items.
- **Admin car deletion.** The list is filtered by id, but only after the user confirms and
  the server reports success.

Timestamps are whole minutes on one time line. Money amounts are exact rationals. A date is
given by the field values its getters return.

Where the behaviour is odd, the code is modelled as written:

- `handleFilter` never clears `error` when a filter succeeds.
- The password lookaheads use `.`, which stops at a line break. A letter after a `\n`
  therefore does not count (`Register.LineBreakHidesClass`, `Register.LineBreakHidesLetter`).
- JavaScript's `%` keeps the sign of the dividend. So a negative duration shows as
  "-1h -30m" (`Bookings.NegativeDurationLabel`).

Modules: `Wrappers` (Option), `Text` (decimal rendering and parsing, `padStart(2, '0')`,
`a || b` on strings), `Seqs` (filter and subsequence), `Availability`, `Register`, `Login`,
`Bookings`, `DateTimePicker`, `Carousel` (index arithmetic shared by both carousels), `Reviews`,
`Hero`, `Admin`.

## Model

The following transcription functions carry no row of their own. Their promises are
stated by the members listed in the table:

- `Availability.HasOverlap` (client/app/page.tsx:109-113): see `OverlapIsIntervalIntersection`, `OverlapIsSymmetric` and `TouchingEndpointsConflict`.
- `Availability.AvailableCars` (client/app/page.tsx:101-125): see `AvailableCarsCharacterized`, `CarWithoutSlotsIsKept` and `FilterAvailable`.
- `Admin.RemoveCar` (client/app/admin/page.tsx:58): see `RemoveCarKeepsOthers` and `RemoveCarAbsentAndIdempotent`.
- `Bookings.ConvertMinutesToHrsMins` (client/app/bookings/page.tsx:274-278): see `LabelDenotesDuration` and `NegativeDurationLabel`.
- `Bookings.InvoiceDurationText` (client/app/bookings/page.tsx:186): see `InvoiceDurationAgreesWithLabel`.
- `DateTimePicker.FormatDateTimeLocal` (client/components/ui/datetime-picker.tsx:23-30): see `LocalFormatShape` and `LocalFormatRoundTrip`.
- `DateTimePicker.FormatDisplay` (client/components/ui/datetime-picker.tsx:32-39): see `DisplayReordersLocal`.
- `Login.EmailShape` (client/app/login/page.tsx:48): see `AcceptedEmailShape` and `Examples`.
- `Login.SessionGranted` (client/app/login/page.tsx:57): see `LoginPage.HandleSubmit`.
- `Register.UsernameCharsetOk`, `Register.PasswordClassesOk` and `Register.PhoneOk` (client/app/register/page.tsx:50, 62, 68): see `FirstRegistrationError`, `OnlyFirstFailureReported`, `AcceptedUsername`, `PasswordClassesAnywhere`, `LineBreakHidesClass` and `LineBreakHidesLetter`.

| member | source | states |
|---|---|---|
| Availability.IsCarAvailable | client/app/page.tsx:102-122 | the scan with its early `break` returns true exactly when no slot overlaps the window, the same answer as checking every slot |
| Availability.FilterAvailable | client/app/page.tsx:101-123 | the `filter` over the car list returns exactly the cars the per-car check keeps, in list order |
| Availability.OverlapIsIntervalIntersection | client/app/page.tsx:109-113 | for well-formed slot and window, the four inclusive clauses equal `bookingFrom <= selectedTo && selectedFrom <= bookingTo` |
| Availability.OverlapIsSymmetric | client/app/page.tsx:109-113 | swapping the search window and the slot does not change the overlap test |
| Availability.TouchingEndpointsConflict | client/app/page.tsx:109-113 | a slot ending exactly at the selected start, or starting exactly at the selected end, is a conflict |
| Availability.CarWithoutSlotsIsKept | client/app/page.tsx:104-122 | a car whose slot list is missing or empty is always kept |
| Availability.AvailableCarsCharacterized | client/app/page.tsx:101-125 | a car is kept if and only if it is in the list and no slot of it overlaps; each kept car occurs in the result exactly as often as in `cars`, and a dropped one not at all; the result is an order-preserving subsequence of `cars` |
| Availability.HomePage.constructor | client/app/page.tsx:27-33 | the page starts with no cars, no error, no bounds and the panel closed |
| Availability.HomePage.CarsLoaded | client/app/page.tsx:41-44 | a loaded car list becomes both `cars` and `filteredCars` |
| Availability.HomePage.SetFilterStart | client/app/page.tsx:191 | the start picker sets only the start bound |
| Availability.HomePage.SetFilterEnd | client/app/page.tsx:197 | the end picker sets only the end bound |
| Availability.HomePage.ToggleFilter | client/app/page.tsx:175 | the filter button flips `showFilter` and nothing else |
| Availability.HomePage.HandleFilter | client/app/page.tsx:87-127 | a missing bound shows exactly `cars`; an end at or before the start sets the error and leaves `filteredCars` unchanged; otherwise `filteredCars` becomes the available cars and the panel closes |
| Availability.HomePage.ClearFilter | client/app/page.tsx:129-134 | both bounds become null, `filteredCars` becomes `cars`, `error` is cleared |
| Seqs.Filter | client/app/admin/page.tsx:58 | every element `filter` returns passes the test, and the result is no longer than the input |
| Seqs.FilterIsSubsequence | client/app/page.tsx:101 | the kept elements keep their relative order |
| Seqs.FilterMembership | client/app/admin/page.tsx:58 | an element is in the result if and only if it is in the input and passes the test |
| Seqs.FilterCounts | client/app/admin/page.tsx:58 | each element occurs in the result as often as in the input when it passes, and not at all otherwise |
| Seqs.FilterKeepsAll | client/app/page.tsx:101 | when every element passes, `filter` returns the input unchanged |
| Seqs.FilterIdempotent | client/app/admin/page.tsx:58 | filtering twice by the same test gives the same result as filtering once |
| Register.FirstRegistrationError | client/app/register/page.tsx:44-72 | no message is reported if and only if the username length, username charset, password length, password classes and phone checks all pass |
| Register.OnlyFirstFailureReported | client/app/register/page.tsx:44-72 | each message is reported exactly when all earlier checks pass and its own check fails |
| Register.AcceptedUsername | client/app/register/page.tsx:44-54 | an accepted username has 3 to 50 characters, each an ASCII letter, digit or '_' |
| Register.PasswordClassesAnywhere | client/app/register/page.tsx:62 | for a password without line breaks, the lookaheads require a lowercase letter, an uppercase letter and a digit at any positions |
| Register.LookaheadAnywhere | client/app/register/page.tsx:62 | without line breaks, one lookahead `(?=.*[class])` finds a character of its class anywhere in the string |
| Register.LineBreakHidesClass | client/app/register/page.tsx:62 | when a line terminator comes before every character of a class, the lookahead for that class fails, whatever follows |
| Register.LineBreakHidesLetter | client/app/register/page.tsx:62 | the password `"\nAbcdefg1"`, which has a lowercase letter, an uppercase letter and a digit, is rejected because its lowercase letters come after the `\n` |
| Register.RequestFailureMessage | client/app/register/page.tsx:79-84 | a failed or thrown request always yields a non-empty message, with "Registration failed" or "An error occurred" as fallback |
| Register.RegisterPage.constructor | client/app/register/page.tsx:14-16 | the page starts with no error and not loading |
| Register.RegisterPage.HandleSubmit | client/app/register/page.tsx:38-88 | a request is sent if and only if every check passes; a failure sets only the first message; `loading` always ends false; success goes to the login page, and otherwise the failure message is set |
| Text.PadStart2 | client/components/ui/datetime-picker.tsx:25-28 | `padStart(2, '0')` leaves a string of length 2 or more alone and fills a shorter one to length 2 with leading '0's |
| Text.PaddedTwoDigits | client/components/ui/datetime-picker.tsx:25-28 | a value in 0-9 gets a leading '0', a value in 10-99 is unchanged, and the two digits denote the value |
| Text.NatToString | client/app/bookings/page.tsx:277 | `String(n)` of a non-negative number is a non-empty run of digits with no leading zero |
| Text.DigitsValueOfNatToString | client/app/bookings/page.tsx:277 | reading the decimal rendering of `n` gives `n` back |
| Text.IntToString | client/app/bookings/page.tsx:277 | `String(i)` consists of digits alone exactly when `i` is not negative |
| Login.FirstLoginError | client/app/login/page.tsx:42-52 | no message is reported if and only if both fields are non-empty and the email has the required shape; an empty field gives "Email and password are required" before the format check |
| Login.AcceptedEmailShape | client/app/login/page.tsx:48 | an accepted email has exactly one '@' and no whitespace, text before the '@', and after it a '.' with text on both sides |
| Login.Examples | client/app/login/page.tsx:48 | "user@mail.com" is accepted; "user@mail", "@mail.com", "user@.com" (whose only dot comes right after the '@') and "a b@mail.com" are rejected; "user@mail..com" and "user@.mail.com" are accepted, because `[^\s@]` also matches '.' |
| Login.RequestFailureMessage | client/app/login/page.tsx:63-67 | a refused or thrown login always yields a non-empty message, with "Login failed" or "An error occurred" as fallback |
| Login.LoginPage.constructor | client/app/login/page.tsx:14-16 | the page starts with no error, not loading, and no stored session |
| Login.LoginPage.HandleSubmit | client/app/login/page.tsx:36-71 | a request is sent if and only if validation passes; any failure resets `loading` and stores nothing; the session is stored if and only if the reply has success and a token |
| Bookings.HoursPart | client/app/bookings/page.tsx:275 | `Math.floor(mins / 60)` is the largest `h` with `h*60 <= mins` |
| Bookings.MinutesPart | client/app/bookings/page.tsx:276 | for mins >= 0 the remainder is in [0,59] and `hours*60 + minutes == mins`; for negative mins it is in [-59,0] |
| Bookings.LabelDenotesDuration | client/app/bookings/page.tsx:274-278 | the "`<h>`h `<m>`m" label reads back as hours and minutes in [0,59] that add up to the duration |
| Bookings.RenderedPairParses | client/app/bookings/page.tsx:277 | two numbers rendered between separators that do not start with a digit read back as the same numbers |
| Bookings.InvoiceDurationAgreesWithLabel | client/app/bookings/page.tsx:186 | the invoice's duration line splits the minutes exactly as `convertMinutesToHrsMins` does |
| Bookings.NegativeDurationLabel | client/app/bookings/page.tsx:274-278 | -30 minutes renders as "-1h -30m" |
| Bookings.DriverCost | client/app/bookings/page.tsx:228 | the pro-rated driver cost is zero at 0 minutes and never negative for a non-negative duration |
| Bookings.DriverCostMonotone | client/app/bookings/page.tsx:228 | more minutes never cost less, and 1440 minutes cost exactly 300 |
| Bookings.PaymentRows | client/app/bookings/page.tsx:216-242 | a driver-service row appears if and only if `driverRequired`, its amount is the pro-rated cost, and the total is the last row |
| Bookings.IdSuffix | client/app/bookings/page.tsx:268 | `slice(-8)` is the last 8 characters of the id, or the whole id when it is shorter |
| Bookings.InvoiceFileName | client/app/bookings/page.tsx:268 | the file name begins "CarRent_Invoice_", ends ".pdf" and carries the id's tail right after the prefix |
| DateTimePicker.ParseDateTimeLocal | client/components/ui/datetime-picker.tsx:43 | a value read back from the input has its fields in range |
| DateTimePicker.HandleChange | client/components/ui/datetime-picker.tsx:41-47 | an empty value sets the date to undefined, and any other value sets a date |
| DateTimePicker.MinDateString | client/components/ui/datetime-picker.tsx:49 | with no `minDate` there is no `min` string; with one it is the formatted minimum, and for an in-range date with a 4-digit year the input reads that string back as the same date |
| DateTimePicker.InputValue | client/components/ui/datetime-picker.tsx:62 | the input's value is empty exactly when no date is chosen |
| DateTimePicker.LocalFormatShape | client/components/ui/datetime-picker.tsx:23-30 | for in-range fields and a 4-digit year the value is 16 characters, "YYYY-MM-DDTHH:mm", each field 2 padded digits, and the month printed as its zero-based index plus 1 |
| DateTimePicker.LocalFormatRoundTrip | client/components/ui/datetime-picker.tsx:23-30 | reading the formatted value back gives the same fields |
| DateTimePicker.ChangeToDisplayedValue | client/components/ui/datetime-picker.tsx:41-62 | choosing the value the input displays sets the very same date |
| DateTimePicker.DisplayReordersLocal | client/components/ui/datetime-picker.tsx:32-39 | "DD/MM/YYYY HH:mm" is built from the same field values as the input value, also 16 characters long |
| DateTimePicker.FourDigitYearText | client/components/ui/datetime-picker.tsx:24 | a year in 1000-9999 prints as 4 digits that denote it |
| Carousel.Next | client/components/sections/reviews-section.tsx:115 | `(i+1) % n` stays in [0,n), wraps from n-1 to 0, and otherwise adds one |
| Carousel.Prev | client/components/sections/reviews-section.tsx:106 | `(i-1+n) % n` stays in [0,n), wraps from 0 to n-1, and otherwise subtracts one |
| Carousel.PrevUndoesNext | client/components/sections/reviews-section.tsx:106-115 | `prev(next(i)) == i` and `next(prev(i)) == i` for every valid index |
| Carousel.Advance | client/components/sections/hero-section.tsx:32 | after at least one timer tick the index is in [0, slides.length) |
| Carousel.AdvanceIsModular | client/components/sections/hero-section.tsx:32 | k ticks from i land on `(i+k) % n` |
| Carousel.FullCycleReturns | client/components/sections/hero-section.tsx:32 | after `slides.length` ticks the index is back at its starting value |
| Carousel.NextOfRemainder | client/components/sections/hero-section.tsx:32 | one step from `x % n` lands on `(x+1) % n` |
| Carousel.ActiveIndicators | client/components/sections/hero-section.tsx:85-87 | exactly one indicator is active for a valid index; none for an invalid one |
| Reviews.ReviewsSection.constructor | client/components/sections/reviews-section.tsx:6 | the reviews carousel starts at review 0 |
| Reviews.ReviewsSection.PreviousClick | client/components/sections/reviews-section.tsx:106 | the previous arrow moves to `prev` of the index and keeps it valid |
| Reviews.ReviewsSection.NextClick | client/components/sections/reviews-section.tsx:115 | the next arrow moves to `next` of the index and keeps it valid |
| Reviews.ReviewsSection.DotClick | client/components/sections/reviews-section.tsx:95 | a dot click sets the index to exactly that dot |
| Reviews.ReviewsSection.Current | client/components/sections/reviews-section.tsx:53-55 | the review on screen is one of the reviews |
| Reviews.ReviewsSection.ActiveDots | client/components/sections/reviews-section.tsx:97 | exactly one dot, the current one, is highlighted |
| Hero.HeroSection.constructor | client/components/sections/hero-section.tsx:7 | the banner starts at slide 0 |
| Hero.HeroSection.Tick | client/components/sections/hero-section.tsx:32 | each tick sets the index to `(prev+1) % slides.length`, which stays valid |
| Hero.HeroSection.IndicatorClick | client/components/sections/hero-section.tsx:85 | an indicator click sets the index to exactly that indicator |
| Hero.HeroSection.Current | client/components/sections/hero-section.tsx:57-67 | `slides[currentSlide]` is always in bounds |
| Hero.HeroSection.ActiveIndicators | client/components/sections/hero-section.tsx:86-87 | exactly one indicator, the current one, is highlighted |
| Admin.RemoveCarKeepsOthers | client/app/admin/page.tsx:58 | no car with the deleted id remains; every other car occurs exactly as often as before (a multiset count), in its original order |
| Admin.RemoveCarAbsentAndIdempotent | client/app/admin/page.tsx:58 | removing an absent id changes nothing, and repeating a removal changes nothing |
| Admin.AdminPage.constructor | client/app/admin/page.tsx:22-24 | the dashboard starts with no cars and no error |
| Admin.AdminPage.HandleDeleteCar | client/app/admin/page.tsx:52-65 | a declined confirmation sends nothing and keeps `cars`; success removes the car; a failed reply or a thrown error keeps `cars` and sets the error |

## Left out

- Network calls (`ApiClient`), `router.push`, `window.confirm` and the session store are not modelled. Their answers are method parameters, and navigation and the stored session are fields of the page classes.
- moment's parsing of "DD/MM/YYYY HH:mm" slot strings is not modelled. Slots are already integer minutes, and a slot string that failed to parse is not represented.
- Availability.HomePage.SetFilterStart: the picker can hand over an Invalid Date, which `date || null` lets through. That value is not represented, so an invalid bound is not modelled.
- DateTimePicker.HandleChange: `new Date(value)` is modelled only for the "YYYY-MM-DDTHH:mm" form with fields in range (day up to 31). Other non-empty strings become an invalid date, and month lengths and engine-specific parsing are not modelled.
- DateTimePicker.LocalFormatRoundTrip: this is stated only for 4-digit years. The formatters themselves handle any year, unpadded, as the code does.
- The `toFixed(2)` rendering of amounts is not modelled, because it is floating point.
- A `totalMins` that is not a whole number is not modelled.
- String lengths count Unicode code points, not UTF-16 code units as JavaScript's `length` does. A character outside the Basic Multilingual Plane counts 1 here and 2 in JavaScript. So the length checks in client/app/register/page.tsx:44 and :56 can give a different verdict: "Ab1" followed by three emoji is too short in the model but long enough in the browser.
- Daylight-saving gaps are not modelled. `new Date(value)` in client/components/ui/datetime-picker.tsx:43 moves a local time that a clock change skips (say 02:30 on a spring-forward day) to a later hour, so the fields its getters return differ from the typed ones. `DateTimePicker.ParseDateTimeLocal` keeps the typed fields.
- JavaScript numbers are doubles. The model's integers are exact. It does not model the precision lost beyond 2^53 in client/app/bookings/page.tsx:186, 228 and 275-277. It also does not model that `String(n)` switches to exponent form from 1e21. `Text.NatToString` and `Text.IntToString` always render plain digits.
- The jsPDF layout of the invoice, the "[*] Driver Service Included" note, and the `moment(createdAt).format("DDMMYYYY")` date are not modelled. The formatted date is a parameter of `Bookings.InvoiceFileName`.
- `setInterval`/`setTimeout` timing is not modelled. A timer firing is one call of `Hero.HeroSection.Tick`. Scrolling, custom events, the carousel's CSS offset and all rendered markup are not modelled either.
- Admin.AdminPage.HandleDeleteCar: each handler is modelled as one atomic step on the state at the moment the reply arrives. The source filters the `cars` captured by the render in which Delete was clicked (client/app/admin/page.tsx:58, after the `await` at :56), and the button at :144 stays enabled while a request is pending. So with `[A, B]`, deleting A and then B before A's reply arrives ends with `[A]` in the browser, but with `[]` in the model. That stale snapshot is not modelled.
- The price computation, the minimum booking duration, server-side reservation and concurrency are not modelled, because none of them is in these client files.

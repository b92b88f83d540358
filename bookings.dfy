/** The arithmetic and text of the bookings page: the hours/minutes label, the invoice's
    duration line, its payment rows with the pro-rated driver charge, and the invoice file
    name. Amounts of money are exact rationals; their two-decimal rendering is not modelled. */
module Bookings {
  import opened Wrappers
  import Text

  datatype Booking = Booking(
    id: string,
    carName: string,
    rentPerHour: real,
    totalMins: int,
    totalAmount: real,
    driverRequired: bool,
    createdAt: string)

  /** The daily driver rate the invoice pro-rates against. */
  const DriverDailyRate := 300
  const MinutesPerDay := 1440

  /** `Math.floor(mins / 60)`. */
  function HoursPart(mins: int): (h: int)
    ensures h * 60 <= mins < h * 60 + 60
  {
    mins / 60
  }

  /** `mins % 60` with JavaScript's `%`, whose result takes the sign of the dividend. */
  function MinutesPart(mins: int): (m: int)
    ensures mins >= 0 ==> 0 <= m <= 59 && HoursPart(mins) * 60 + m == mins
    ensures mins < 0 ==> -59 <= m <= 0 && (mins - m) % 60 == 0
  {
    if mins >= 0 then mins % 60 else -((-mins) % 60)
  }

  /** `convertMinutesToHrsMins`: "<hours>h <minutes>m". */
  function ConvertMinutesToHrsMins(mins: int): string
  {
    Text.IntToString(HoursPart(mins)) + "h " + Text.IntToString(MinutesPart(mins)) + "m"
  }

  /** The invoice's duration line: "<hours> hours <minutes> minutes". */
  function InvoiceDurationText(mins: int): string
  {
    Text.IntToString(HoursPart(mins)) + " hours " + Text.IntToString(MinutesPart(mins)) + " minutes"
  }

  /** The length of the run of decimal digits that starts the string. */
  function LeadingDigitCount(s: string): (n: nat)
    ensures n <= |s| && Text.AllDigits(s[..n])
    ensures n < |s| ==> !Text.IsDigit(s[n])
  {
    if s == [] || !Text.IsDigit(s[0]) then 0
    else
      var n := 1 + LeadingDigitCount(s[1..]);
      assert s[..n] == [s[0]] + s[1..][..n - 1];
      n
  }

  /** Reads "<digits><sep><digits><end>" back into its two numbers. */
  function ParseNumberPair(s: string, sep: string, end: string): Option<(nat, nat)>
  {
    var k1 := LeadingDigitCount(s);
    if k1 == 0 || |s[k1..]| < |sep| || s[k1..][..|sep|] != sep then None
    else
      var rest := s[k1..][|sep|..];
      var k2 := LeadingDigitCount(rest);
      if k2 == 0 || rest[k2..] != end then None
      else Some((Text.DigitsValue(s[..k1]), Text.DigitsValue(rest[..k2])))
  }

  lemma {:induction false} LeadingDigitsOfRendering(a: string, t: string)
    requires Text.AllDigits(a)
    requires t == [] || !Text.IsDigit(t[0])
    ensures LeadingDigitCount(a + t) == |a|
  {
    if a != [] {
      assert (a + t)[1..] == a[1..] + t;
      LeadingDigitsOfRendering(a[1..], t);
    } else {
      assert a + t == t;
    }
  }

  /** Rendering two numbers between separators that do not start with a digit, then reading
      the text back, gives the two numbers. */
  lemma RenderedPairParses(h: nat, m: nat, sep: string, end: string)
    requires |sep| > 0 && !Text.IsDigit(sep[0])
    requires |end| > 0 && !Text.IsDigit(end[0])
    ensures ParseNumberPair(Text.NatToString(h) + sep + Text.NatToString(m) + end, sep, end) == Some((h, m))
  {
    Text.DigitsValueOfNatToString(h);
    Text.DigitsValueOfNatToString(m);
    DigitRunsParse(Text.NatToString(h), Text.NatToString(m), sep, end);
  }

  lemma DigitRunsParse(a: string, b: string, sep: string, end: string)
    requires |a| > 0 && Text.AllDigits(a) && |b| > 0 && Text.AllDigits(b)
    requires |sep| > 0 && !Text.IsDigit(sep[0])
    requires |end| > 0 && !Text.IsDigit(end[0])
    ensures ParseNumberPair(a + sep + b + end, sep, end) == Some((Text.DigitsValue(a), Text.DigitsValue(b)))
  {
    var tail := sep + (b + end);
    var s := a + tail;
    Regroup(a, sep, b, end);
    LeadingDigitsOfRendering(a, tail);
    SplitAt(a, tail);
    var k1 := LeadingDigitCount(s);
    assert k1 == |a| && s[k1..] == tail && s[..k1] == a;
    SplitAt(sep, b + end);
    var rest := s[k1..][|sep|..];
    assert s[k1..][..|sep|] == sep && rest == b + end;
    LeadingDigitsOfRendering(b, end);
    SplitAt(b, end);
    var k2 := LeadingDigitCount(rest);
    assert k2 == |b| && rest[k2..] == end && rest[..k2] == b;
  }

  lemma Regroup(a: string, b: string, c: string, d: string)
    ensures a + b + c + d == a + (b + (c + d))
  {
  }

  lemma SplitAt(x: string, y: string)
    ensures (x + y)[..|x|] == x && (x + y)[|x|..] == y
  {
  }

  /** For a non-negative duration the label reads back as hours and minutes in [0, 59]
      that add up to the duration. */
  lemma LabelDenotesDuration(mins: int)
    requires mins >= 0
    ensures var p := ParseNumberPair(ConvertMinutesToHrsMins(mins), "h ", "m");
            p.Some? && p.value.0 * 60 + p.value.1 == mins && p.value.1 <= 59
  {
    RenderedPairParses(HoursPart(mins), MinutesPart(mins), "h ", "m");
  }

  /** The invoice's duration line splits the duration exactly as the label does. */
  lemma InvoiceDurationAgreesWithLabel(mins: int)
    requires mins >= 0
    ensures ParseNumberPair(InvoiceDurationText(mins), " hours ", " minutes") ==
            ParseNumberPair(ConvertMinutesToHrsMins(mins), "h ", "m")
  {
    RenderedPairParses(HoursPart(mins), MinutesPart(mins), "h ", "m");
    RenderedPairParses(HoursPart(mins), MinutesPart(mins), " hours ", " minutes");
  }

  /** A negative duration keeps the sign on both parts, as JavaScript's `%` does. */
  lemma NegativeDurationLabel()
    ensures ConvertMinutesToHrsMins(-30) == "-1h -30m"
  {
    assert Text.NatToString(1) == "1";
    assert Text.NatToString(30) == Text.NatToString(3) + "0";
  }

  /** `(totalMins * 300) / 1440`: the driver's daily rate pro-rated by the minute. */
  function DriverCost(totalMins: int): (cost: real)
    ensures totalMins == 0 ==> cost == 0.0
    ensures totalMins >= 0 ==> cost >= 0.0
  {
    (totalMins * DriverDailyRate) as real / MinutesPerDay as real
  }

  /** More minutes never cost less, and a whole day costs the daily rate. */
  lemma DriverCostMonotone(m1: int, m2: int)
    requires m1 <= m2
    ensures DriverCost(m1) <= DriverCost(m2)
    ensures DriverCost(MinutesPerDay) == DriverDailyRate as real
  {
  }

  datatype PaymentRow =
    | RatePerHour(rate: real)
    | DurationHours(hours: real)
    | DriverService(cost: real)
    | Total(amount: real)

  /** The rows of the invoice's payment summary, top to bottom. */
  function PaymentRows(b: Booking): (rows: seq<PaymentRow>)
    ensures (exists k :: 0 <= k < |rows| && rows[k].DriverService?) <==> b.driverRequired
    ensures forall k :: 0 <= k < |rows| && rows[k].DriverService? ==> rows[k].cost == DriverCost(b.totalMins)
    ensures |rows| > 0 && rows[|rows| - 1] == Total(b.totalAmount)
  {
    var rows := [RatePerHour(b.rentPerHour), DurationHours(b.totalMins as real / 60.0)] +
                (if b.driverRequired then [DriverService(DriverCost(b.totalMins))] else []) +
                [Total(b.totalAmount)];
    assert b.driverRequired ==> rows[2].DriverService?;
    rows
  }

  /** `id.slice(-8)`: the last eight characters, or the whole id when it is shorter. */
  function IdSuffix(id: string): (r: string)
    ensures |r| == if |id| < 8 then |id| else 8
    ensures id == id[..|id| - |r|] + r
  {
    if |id| < 8 then id else id[|id| - 8..]
  }

  /** The invoice's file name, given the creation date already formatted as "DDMMYYYY". */
  function InvoiceFileName(id: string, createdDdmmyyyy: string): (name: string)
    ensures |name| == 21 + |IdSuffix(id)| + |createdDdmmyyyy|
    ensures name[..16] == "CarRent_Invoice_" && name[|name| - 4..] == ".pdf"
    ensures name[16..16 + |IdSuffix(id)|] == id[|id| - |IdSuffix(id)|..]
  {
    "CarRent_Invoice_" + IdSuffix(id) + "_" + createdDdmmyyyy + ".pdf"
  }
}

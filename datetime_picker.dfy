/** The date-time picker's two formatters, the `min` string derived from `minDate`, the
    input's displayed value, and its change handler. A date is given by the local-time field
    values the formatters read from it. */
module DateTimePicker {
  import opened Wrappers
  import Text

  /** `getFullYear()`, `getMonth()` (zero-based), `getDate()`, `getHours()`, `getMinutes()`. */
  datatype DateFields = DateFields(year: int, monthIndex: int, day: int, hours: int, minutes: int)

  /** The date the change handler hands to `setDate`. */
  datatype PickedDate = ValidDate(fields: DateFields) | InvalidDate

  /** The ranges the getters return for a valid date. */
  predicate InRange(d: DateFields)
  {
    0 <= d.monthIndex <= 11 && 1 <= d.day <= 31 && 0 <= d.hours <= 23 && 0 <= d.minutes <= 59
  }

  predicate FourDigitYear(d: DateFields)
  {
    1000 <= d.year <= 9999
  }

  /** `String(x).padStart(2, '0')`. */
  function PadTwo(x: int): string
  {
    Text.PadStart2(Text.IntToString(x))
  }

  /** `formatDateTimeLocal`: "YYYY-MM-DDTHH:mm". */
  function FormatDateTimeLocal(d: DateFields): string
  {
    Text.IntToString(d.year) + "-" + PadTwo(d.monthIndex + 1) + "-" + PadTwo(d.day) +
    "T" + PadTwo(d.hours) + ":" + PadTwo(d.minutes)
  }

  /** `formatDisplay`: "DD/MM/YYYY HH:mm". */
  function FormatDisplay(d: DateFields): string
  {
    PadTwo(d.day) + "/" + PadTwo(d.monthIndex + 1) + "/" + Text.IntToString(d.year) +
    " " + PadTwo(d.hours) + ":" + PadTwo(d.minutes)
  }

  /** Reads the "YYYY-MM-DDTHH:mm" value a datetime-local input produces. */
  function ParseDateTimeLocal(s: string): (r: Option<DateFields>)
    ensures r.Some? ==> InRange(r.value) && 0 <= r.value.year <= 9999
  {
    if |s| == 16 && s[4] == '-' && s[7] == '-' && s[10] == 'T' && s[13] == ':' &&
       Text.AllDigits(s[..4]) && Text.AllDigits(s[5..7]) && Text.AllDigits(s[8..10]) &&
       Text.AllDigits(s[11..13]) && Text.AllDigits(s[14..])
    then
      var d := DateFields(Text.DigitsValue(s[..4]), Text.DigitsValue(s[5..7]) - 1,
                          Text.DigitsValue(s[8..10]), Text.DigitsValue(s[11..13]),
                          Text.DigitsValue(s[14..]));
      if InRange(d) then Some(d) else None
    else None
  }

  /** `handleChange`: an empty value clears the date; otherwise it is read as a date, and a
      value that is not "YYYY-MM-DDTHH:mm" with fields in range gives an invalid date. */
  function HandleChange(value: string): (r: Option<PickedDate>)
    ensures r.None? <==> value == ""
  {
    if value == "" then None
    else
      match ParseDateTimeLocal(value)
      case Some(d) => Some(ValidDate(d))
      case None => Some(InvalidDate)
  }

  /** `minDateString`: no `min` attribute without a `minDate`; with one, the `min` string is
      a value the input reads back as that very date. */
  function MinDateString(minDate: Option<DateFields>): (r: Option<string>)
    ensures r.None? <==> minDate.None?
    ensures minDate.Some? ==> r == Some(FormatDateTimeLocal(minDate.value))
    ensures minDate.Some? && InRange(minDate.value) && FourDigitYear(minDate.value) ==>
              r.Some? && ParseDateTimeLocal(r.value) == minDate
  {
    match minDate
    case None => None
    case Some(d) =>
      if InRange(d) && FourDigitYear(d) then LocalFormatRoundTrip(d); Some(FormatDateTimeLocal(d))
      else Some(FormatDateTimeLocal(d))
  }

  /** The input's `value` attribute: empty while no date is chosen. */
  function InputValue(date: Option<DateFields>): (v: string)
    ensures v == "" <==> date.None?
  {
    match date
    case None => ""
    case Some(d) => FormatDateTimeLocal(d)
  }

  lemma FourDigitYearText(y: int)
    requires 1000 <= y <= 9999
    ensures |Text.IntToString(y)| == 4 && Text.AllDigits(Text.IntToString(y))
    ensures Text.DigitsValue(Text.IntToString(y)) == y
  {
    assert Text.Pow10(3) == 1000 && Text.Pow10(4) == 10000;
    Text.NatToStringLength(y, 3);
    Text.DigitsValueOfNatToString(y);
  }

  /** A field in [0, 99] prints as two digits that denote it. */
  lemma TwoDigitField(n: int)
    requires 0 <= n < 100
    ensures |PadTwo(n)| == 2 && Text.AllDigits(PadTwo(n)) && Text.DigitsValue(PadTwo(n)) == n
  {
    Text.PaddedTwoDigits(n);
  }

  /** Where each piece of "Y-M-DTH:m" sits, for a four-character `y` and two-character rest. */
  lemma LocalLayout(y: string, mo: string, d: string, h: string, mi: string)
    requires |y| == 4 && |mo| == 2 && |d| == 2 && |h| == 2 && |mi| == 2
    ensures var s := y + "-" + mo + "-" + d + "T" + h + ":" + mi;
            |s| == 16 && s[..4] == y && s[4] == '-' && s[5..7] == mo && s[7] == '-' &&
            s[8..10] == d && s[10] == 'T' && s[11..13] == h && s[13] == ':' && s[14..] == mi &&
            s[11..] == h + ":" + mi
  {
  }

  /** "D/M/Y H:m" is "Y-M-DTH:m" with its pieces reordered. */
  lemma DisplayLayout(y: string, mo: string, d: string, h: string, mi: string)
    requires |y| == 4 && |mo| == 2 && |d| == 2 && |h| == 2 && |mi| == 2
    ensures var s := y + "-" + mo + "-" + d + "T" + h + ":" + mi;
            var t := d + "/" + mo + "/" + y + " " + h + ":" + mi;
            |t| == 16 && t == s[8..10] + "/" + s[5..7] + "/" + s[..4] + " " + s[11..]
  {
  }

  /** For in-range fields and a four-digit year, the input value is 16 characters with the
      separators in place, and every field, the month as its index plus 1, is printed as
      two zero-padded digits. */
  lemma LocalFormatShape(d: DateFields)
    requires InRange(d) && FourDigitYear(d)
    ensures var s := FormatDateTimeLocal(d);
            |s| == 16 && s[4] == '-' && s[7] == '-' && s[10] == 'T' && s[13] == ':' &&
            Text.AllDigits(s[..4]) && Text.DigitsValue(s[..4]) == d.year &&
            Text.AllDigits(s[5..7]) && Text.DigitsValue(s[5..7]) == d.monthIndex + 1 &&
            Text.AllDigits(s[8..10]) && Text.DigitsValue(s[8..10]) == d.day &&
            Text.AllDigits(s[11..13]) && Text.DigitsValue(s[11..13]) == d.hours &&
            Text.AllDigits(s[14..]) && Text.DigitsValue(s[14..]) == d.minutes
  {
    FourDigitYearText(d.year);
    TwoDigitField(d.monthIndex + 1);
    TwoDigitField(d.day);
    TwoDigitField(d.hours);
    TwoDigitField(d.minutes);
    DigitFieldsLayout(Text.IntToString(d.year), PadTwo(d.monthIndex + 1), PadTwo(d.day), PadTwo(d.hours), PadTwo(d.minutes));
  }

  /** The separators and digit runs of "Y-M-DTH:m" for digit strings of the right lengths. */
  lemma DigitFieldsLayout(y: string, mo: string, d: string, h: string, mi: string)
    requires |y| == 4 && |mo| == 2 && |d| == 2 && |h| == 2 && |mi| == 2
    requires Text.AllDigits(y) && Text.AllDigits(mo) && Text.AllDigits(d) && Text.AllDigits(h) && Text.AllDigits(mi)
    ensures var s := y + "-" + mo + "-" + d + "T" + h + ":" + mi;
            |s| == 16 && s[4] == '-' && s[7] == '-' && s[10] == 'T' && s[13] == ':' &&
            Text.AllDigits(s[..4]) && Text.DigitsValue(s[..4]) == Text.DigitsValue(y) &&
            Text.AllDigits(s[5..7]) && Text.DigitsValue(s[5..7]) == Text.DigitsValue(mo) &&
            Text.AllDigits(s[8..10]) && Text.DigitsValue(s[8..10]) == Text.DigitsValue(d) &&
            Text.AllDigits(s[11..13]) && Text.DigitsValue(s[11..13]) == Text.DigitsValue(h) &&
            Text.AllDigits(s[14..]) && Text.DigitsValue(s[14..]) == Text.DigitsValue(mi)
  {
    LocalLayout(y, mo, d, h, mi);
  }

  /** Reading the formatted value back gives the same fields. */
  lemma LocalFormatRoundTrip(d: DateFields)
    requires InRange(d) && FourDigitYear(d)
    ensures ParseDateTimeLocal(FormatDateTimeLocal(d)) == Some(d)
  {
    LocalFormatShape(d);
  }

  /** Choosing the value the input displays sets the very same date. */
  lemma ChangeToDisplayedValue(d: DateFields)
    requires InRange(d) && FourDigitYear(d)
    ensures HandleChange(InputValue(Some(d))) == Some(ValidDate(d))
  {
    LocalFormatRoundTrip(d);
  }

  /** The display text is the input value's day, month and year reordered, with the same
      time: both are built from the same field values. */
  lemma DisplayReordersLocal(d: DateFields)
    requires InRange(d) && FourDigitYear(d)
    ensures var s := FormatDateTimeLocal(d);
            FormatDisplay(d) == s[8..10] + "/" + s[5..7] + "/" + s[..4] + " " + s[11..] &&
            |FormatDisplay(d)| == 16
  {
    FourDigitYearText(d.year);
    TwoDigitField(d.monthIndex + 1);
    TwoDigitField(d.day);
    TwoDigitField(d.hours);
    TwoDigitField(d.minutes);
    var y, mo, dd, h, mi := Text.IntToString(d.year), PadTwo(d.monthIndex + 1), PadTwo(d.day), PadTwo(d.hours), PadTwo(d.minutes);
    DisplayLayout(y, mo, dd, h, mi);
    assert FormatDateTimeLocal(d) == y + "-" + mo + "-" + dd + "T" + h + ":" + mi;
    assert FormatDisplay(d) == dd + "/" + mo + "/" + y + " " + h + ":" + mi;
  }
}

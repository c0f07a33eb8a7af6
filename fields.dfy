/** The validated fields of a contact: `Phone` (task.py:18-23) and
    `Birthday` (task.py:26-32). */
module Fields {
  import opened Errors
  import opened Text
  import opened Calendar

  /** A phone number. Its text is validated when the phone is created, but
      editing a phone later stores new text without validation, so the type
      carries no invariant. */
  datatype Phone = Phone(value: string)

  /** `str.isdigit()` over ASCII: a non-empty string of decimal digits. */
  predicate IsDigitString(s: string) {
    |s| > 0 && IsAsciiDigit(s[0]) && (|s| == 1 || IsDigitString(s[1..]))
  }

  lemma {:induction false} DigitStringIsAllDigits(s: string)
    ensures IsDigitString(s) <==> |s| > 0 && forall i :: 0 <= i < |s| ==> IsAsciiDigit(s[i])
  {
    if |s| > 1 {
      DigitStringIsAllDigits(s[1..]);
      assert forall i :: 1 <= i < |s| ==> s[i] == s[1..][i - 1];
    }
  }

  /** `Phone(text)`: exactly ten digits are accepted and stored unchanged;
      anything else raises ValueError. */
  function NewPhone(text: string): (r: Result<Phone>)
    ensures r.Ok? <==> |text| == 10 && forall i :: 0 <= i < |text| ==> IsAsciiDigit(text[i])
    ensures r.Ok? ==> r.value.value == text
    ensures r.Err? ==> r.error == ValueError
  {
    DigitStringIsAllDigits(text);
    if |text| == 10 && IsDigitString(text) then Ok(Phone(text)) else Err(ValueError)
  }

  /** A birthday keeps the text it was given and the date parsed from it. */
  datatype Birthday = Birthday(value: string, date: CalendarDate)

  /** The day directive `%d` of `strptime`, which matches one of
      `3[01]`, `[12]\d`, `0[1-9]`, `[1-9]` or a space followed by `[1-9]`. */
  function DayField(t: string): (r: Option<int>)
    ensures r.Some? ==> 1 <= r.value <= 31
  {
    if |t| == 1 && '1' <= t[0] <= '9' then Some(DigitValue(t[0]))
    else if |t| == 2 && (t[0] == '0' || t[0] == ' ') && '1' <= t[1] <= '9' then Some(DigitValue(t[1]))
    else if |t| == 2 && '1' <= t[0] <= '2' && IsAsciiDigit(t[1]) then Some(10 * DigitValue(t[0]) + DigitValue(t[1]))
    else if |t| == 2 && t[0] == '3' && '0' <= t[1] <= '1' then Some(30 + DigitValue(t[1]))
    else None
  }

  /** The month directive `%m`, which matches `1[0-2]`, `0[1-9]` or `[1-9]`. */
  function MonthField(t: string): (r: Option<int>)
    ensures r.Some? ==> 1 <= r.value <= 12
  {
    if |t| == 1 && '1' <= t[0] <= '9' then Some(DigitValue(t[0]))
    else if |t| == 2 && t[0] == '0' && '1' <= t[1] <= '9' then Some(DigitValue(t[1]))
    else if |t| == 2 && t[0] == '1' && '0' <= t[1] <= '2' then Some(10 + DigitValue(t[1]))
    else None
  }

  /** The year directive `%Y`, which matches exactly four digits. */
  function YearField(t: string): (r: Option<int>)
    ensures r.Some? ==> 0 <= r.value <= 9999
  {
    if |t| == 4 && IsAsciiDigit(t[0]) && IsAsciiDigit(t[1]) && IsAsciiDigit(t[2]) && IsAsciiDigit(t[3]) then
      Some(DigitValue(t[0]) * 1000 + DigitValue(t[1]) * 100 + DigitValue(t[2]) * 10 + DigitValue(t[3]))
    else None
  }

  /** `Birthday(text)`: `strptime(text, "%d.%m.%Y")` followed by building the
      date. A text that does not match the format, or names a date that
      does not exist (31 April, 29 February of a common year, year 0),
      raises ValueError. The directives contain no dot, so the text must be
      exactly three dot-separated pieces. */
  function ParseBirthday(text: string): (r: Result<Birthday>)
    ensures r.Ok? ==> r.value.value == text
    ensures r.Err? ==> r.error == ValueError
  {
    var pieces := SplitAt(text, '.');
    if |pieces| != 3 then Err(ValueError)
    else match (DayField(pieces[0]), MonthField(pieces[1]), YearField(pieces[2]))
      case (Some(d), Some(m), Some(y)) =>
        if ValidDate(Date(y, m, d)) then Ok(Birthday(text, Date(y, m, d))) else Err(ValueError)
      case _ => Err(ValueError)
  }

  // ---------------------------------------------------------------------
  // The texts a birthday accepts, stated independently of the parser

  /** The ways `%d` can spell day `n`: two digits, or for days below ten
      a single digit, possibly after one space. */
  predicate SpellsDay(t: string, n: int) {
    1 <= n <= 31 &&
    (t == Pad2(n) || (n <= 9 && (t == [DigitChar(n)] || t == [' ', DigitChar(n)])))
  }

  /** The ways `%m` can spell month `n`: two digits, or one for months below ten. */
  predicate SpellsMonth(t: string, n: int) {
    1 <= n <= 12 && (t == Pad2(n) || (n <= 9 && t == [DigitChar(n)]))
  }

  /** The canonical `DD.MM.YYYY` text of a date. */
  function DateText(d: CalendarDate): string {
    Pad2(d.day) + "." + Pad2(d.month) + "." + Pad4(d.year)
  }

  lemma DayFieldSpells(t: string)
    requires DayField(t).Some?
    ensures SpellsDay(t, DayField(t).value)
  {
    var n := DayField(t).value;
    if |t| == 2 && n >= 10 {
      assert t == [t[0], t[1]];
    }
  }

  lemma SpellsDayField(t: string, n: int)
    requires SpellsDay(t, n)
    ensures DayField(t) == Some(n)
  {
  }

  lemma MonthFieldSpells(t: string)
    requires MonthField(t).Some?
    ensures SpellsMonth(t, MonthField(t).value)
  {
    var n := MonthField(t).value;
    if |t| == 2 && n >= 10 {
      assert t == [t[0], t[1]];
    }
  }

  lemma SpellsMonthField(t: string, n: int)
    requires SpellsMonth(t, n)
    ensures MonthField(t) == Some(n)
  {
  }

  lemma YearFieldSpells(t: string)
    requires YearField(t).Some?
    ensures t == Pad4(YearField(t).value)
  {
    assert t == [t[0], t[1], t[2], t[3]];
  }

  /** Every accepted text is a day spelling, a dot, a month spelling, a dot
      and four year digits, and the stored date is the one they spell. */
  lemma ParseBirthdaySound(text: string) returns (dayText: string, monthText: string)
    requires ParseBirthday(text).Ok?
    ensures var d := ParseBirthday(text).value.date;
      && SpellsDay(dayText, d.day)
      && SpellsMonth(monthText, d.month)
      && text == dayText + "." + monthText + "." + Pad4(d.year)
  {
    var pieces := SplitAt(text, '.');
    JoinSplitAt(text, '.');
    dayText, monthText := pieces[0], pieces[1];
    DayFieldSpells(dayText);
    MonthFieldSpells(monthText);
    YearFieldSpells(pieces[2]);
    ThreePieces(pieces, ".");
  }

  /** Every spelling of an existing date is accepted and parses to that date. */
  lemma ParseBirthdayComplete(d: CalendarDate, dayText: string, monthText: string)
    requires SpellsDay(dayText, d.day) && SpellsMonth(monthText, d.month)
    ensures var text := dayText + "." + monthText + "." + Pad4(d.year);
      ParseBirthday(text) == Ok(Birthday(text, d))
  {
    var yearText := Pad4(d.year);
    var text := dayText + "." + monthText + "." + yearText;
    var pieces := [dayText, monthText, yearText];
    assert forall i :: 0 <= i < 3 ==> '.' !in pieces[i];
    ThreePieces(pieces, ".");
    SplitAtJoin(pieces, '.');
    SpellsDayField(dayText, d.day);
    SpellsMonthField(monthText, d.month);
    assert yearText == [yearText[0], yearText[1], yearText[2], yearText[3]];
  }

  /** The canonical text of any date parses back to that date. */
  lemma DateTextRoundTrip(d: CalendarDate)
    ensures ParseBirthday(DateText(d)) == Ok(Birthday(DateText(d), d))
  {
    ParseBirthdayComplete(d, Pad2(d.day), Pad2(d.month));
  }
}

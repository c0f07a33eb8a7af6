/** The address book (task.py:68-104): records keyed by name, kept in the
    order their names were first inserted (a Python dict keeps that order,
    and an overwrite keeps the old position), with the upcoming-birthday
    query. */
module Book {
  import opened Errors
  import opened Text
  import opened Calendar
  import opened Fields
  import opened Records

  /** The name and the birthday of one record, in book order. */
  type Entry = (string, Option<Birthday>)

  predicate Distinct(s: seq<string>) {
    forall i, j :: 0 <= i < j < |s| ==> s[i] != s[j]
  }

  /** `s` with every occurrence of `x` taken out, the order of the rest kept. */
  function Without(s: seq<string>, x: string): (r: seq<string>)
    ensures forall y :: y in r <==> y in s && y != x
    ensures Distinct(s) ==> Distinct(r)
    ensures x !in s ==> r == s
    ensures x in s && Distinct(s) ==> |r| == |s| - 1
  {
    if |s| == 0 then []
    else
      var rest := Without(s[1..], x);
      assert Distinct(s) ==> Distinct(s[1..]) && s[0] !in s[1..];
      if s[0] == x then rest else [s[0]] + rest
  }

  // ---------------------------------------------------------------------
  // The wall clock

  /** The dates `datetime.today()` can return while the program is in use:
      years with four digits, and not the last year Python can represent,
      so that a week or a year later is still a date. */
  predicate InClockRange(today: CalendarDate) {
    1000 <= today.year <= MaxYear - 1
  }

  /** Every date before the last representable year is at least 364 days
      from its end. */
  lemma TodayHeadroom(today: CalendarDate)
    requires InClockRange(today)
    ensures Ordinal(today) + 364 <= MaxOrdinal
  {
    DayOfYearBounds(today);
    DaysBeforeYearStep(today.year);
    DaysBeforeYearMonotone(today.year + 1, MaxYear);
    DaysBeforeYearClosedForm(MaxYear);
  }

  // ---------------------------------------------------------------------
  // `find_next_weekday` and the weekend shift

  /** `find_next_weekday(day, weekday)` (task.py:78-85). Its `return` sits
      inside the `if`, so when `weekday` lies later in the week than `day`
      it returns None. Otherwise it moves to the next `weekday` strictly
      after `day`, and from a Saturday or Sunday on to the Monday after
      that, which for a weekend target is 8 or 9 days after `day`. */
  function FindNextWeekday(day: CalendarDate, weekday: int): (r: Option<CalendarDate>)
    requires 0 <= weekday <= 6
    requires Ordinal(day) + 9 <= MaxOrdinal
    ensures r.Some? <==> weekday <= Weekday(day)
    ensures r.Some? ==> Ordinal(day) < Ordinal(r.value) <= Ordinal(day) + 9
    ensures r.Some? ==> Weekday(r.value) == if weekday >= 5 then 0 else weekday
    ensures r.Some? ==> Ordinal(r.value) == Ordinal(day) + (if weekday >= 5 then 14 else weekday + 7) - Weekday(day)
  {
    var daysAhead := weekday - Weekday(day);
    if daysAhead <= 0 then
      var next := AddDays(day, daysAhead + 7);
      AddDaysReaches(day, daysAhead + 7, weekday);
      var w := Weekday(next);
      if w == 5 || w == 6 then
        AddDaysReaches(next, 7 - w, 0);
        Some(AddDays(next, 7 - w))
      else Some(next)
    else None
  }

  /** `find_next_weekday(d, 0)` is the first Monday strictly after `d`,
      one to seven days later. */
  lemma NextMondayIsFirst(d: CalendarDate)
    requires Ordinal(d) + 9 <= MaxOrdinal
    ensures FindNextWeekday(d, 0).Some?
    ensures var m := FindNextWeekday(d, 0).value;
      && Weekday(m) == 0
      && Ordinal(d) + 1 <= Ordinal(m) <= Ordinal(d) + 7
      && (forall n :: Ordinal(d) < n < Ordinal(m) ==> WeekdayOfOrdinal(n) != 0)
  {
    var m := FindNextWeekday(d, 0).value;
    NoMondayBefore(Ordinal(d), Ordinal(m));
  }

  /** No Monday lies strictly between day `o` and the next Monday after it. */
  lemma NoMondayBefore(o: int, m: int)
    requires m == o + 7 - WeekdayOfOrdinal(o)
    ensures forall n :: o < n < m ==> WeekdayOfOrdinal(n) != 0
  {
    forall n | o < n < m
      ensures WeekdayOfOrdinal(n) != 0
    {
      WeekdayShift(o, n - o);
    }
  }

  /** The date a birthday is announced on: a Saturday or Sunday occurrence
      is reported as the following Monday, any other day as itself
      (task.py:95-96, 101-102). */
  function ReportedDate(d: CalendarDate): (r: CalendarDate)
    requires Ordinal(d) + 9 <= MaxOrdinal
    ensures !IsWeekend(r)
    ensures !IsWeekend(d) ==> r == d
    ensures IsWeekend(d) ==> Weekday(r) == 0 && Ordinal(r) == Ordinal(d) + 7 - Weekday(d)
  {
    if Weekday(d) == 5 || Weekday(d) == 6 then FindNextWeekday(d, 0).value else d
  }

  /** `f"{name}: {d.strftime('%d,%m,%Y')}"`: the name, a colon and a
      space, then the day, the month and the year in digits separated by
      commas. */
  function EntryLine(name: string, d: CalendarDate): (line: string)
    ensures |line| == |name| + 12 && line[..|name| + 2] == name + ": "
    ensures SplitAt(line[|name| + 2..], ',') == [Pad2(d.day), Pad2(d.month), Pad4(d.year)]
  {
    var day, month, year := Pad2(d.day), Pad2(d.month), Pad4(d.year);
    var parts := [day, month, year];
    assert forall i :: 0 <= i < 3 ==> ',' !in parts[i] by {
      assert day == [day[0], day[1]] && month == [month[0], month[1]];
      assert year == [year[0], year[1], year[2], year[3]];
    }
    SplitAtJoin(parts, ',');
    ThreePieces(parts, ",");
    var date := day + "," + month + "," + year;
    var line := name + ": " + date;
    assert line[|name| + 2..] == date;
    line
  }

  // ---------------------------------------------------------------------
  // The upcoming-birthday query, one record at a time

  /** The occurrence of `birthday` that one iteration of
      `get_upcoming_birthdays` settles on (task.py:93-100): this year's if
      it lies between today and a week later, both ends included; if this
      year's is already past, next year's when that one lies in the same
      window; otherwise none. Moving a 29 February birthday to a common
      year raises ValueError. Dates are compared by their ordinals, which
      OrdinalOrder shows is the order Python compares them in. */
  function Occurrence(birthday: CalendarDate, today: CalendarDate): (r: Result<Option<CalendarDate>>)
    requires InClockRange(today)
    ensures r.Ok? && r.value.Some? ==> Ordinal(today) <= Ordinal(r.value.value) <= Ordinal(today) + 7
    ensures r.Err? ==> r.error == ValueError
  {
    var thisYear :- ReplaceYear(birthday, today.year);
    if Ordinal(today) <= Ordinal(thisYear) <= Ordinal(today) + 7 then Ok(Some(thisYear))
    else if Ordinal(today) > Ordinal(thisYear) then
      var nextYear :- ReplaceYear(birthday, today.year + 1);
      if Ordinal(today) <= Ordinal(nextYear) <= Ordinal(today) + 7 then Ok(Some(nextYear))
      else Ok(None)
    else Ok(None)
  }

  /** Year `y` holds an anniversary of `birthday` within the week from
      `today` on, both ends included. */
  predicate AnniversaryInWindow(birthday: CalendarDate, y: int, today: CalendarDate) {
    var o := Date(y, birthday.month, birthday.day);
    ValidDate(o) && Ordinal(today) <= Ordinal(o) <= Ordinal(today) + 7
  }

  /** The query raises exactly for a 29 February birthday when the current
      year is common, or when it is leap but today is past February (then
      next year's occurrence is needed, and next year is common). */
  lemma OccurrenceFails(birthday: CalendarDate, today: CalendarDate)
    requires InClockRange(today)
    ensures Occurrence(birthday, today).Err? <==>
      birthday.month == 2 && birthday.day == 29 && (!IsLeap(today.year) || today.month >= 3)
  {
    var thisYear := ReplaceYear(birthday, today.year);
    if thisYear.Ok? {
      OrdinalOrder(today, thisYear.value);
      if birthday.month == 2 && birthday.day == 29 {
        assert !IsLeap(today.year + 1);
      }
    }
  }

  /** An anniversary in the window is the one the query settles on. */
  lemma OccurrenceFindsWindow(birthday: CalendarDate, y: int, today: CalendarDate)
    requires InClockRange(today)
    requires Occurrence(birthday, today).Ok?
    requires AnniversaryInWindow(birthday, y, today)
    ensures Occurrence(birthday, today).value == Some(Date(y, birthday.month, birthday.day))
  {
    var o := Date(y, birthday.month, birthday.day);
    OrdinalOrder(today, o);
    if y >= today.year + 2 {
      var jan := Date(today.year + 1, 1, 1);
      OrdinalOrder(today, jan);
      DayOfYearBounds(o);
      DaysBeforeYearStep(today.year + 1);
      DaysBeforeYearMonotone(today.year + 2, y);
      assert false;
    } else if y == today.year + 1 {
      var thisYear := ReplaceYear(birthday, today.year);
      AnniversaryGap(today.year, birthday.month, birthday.day);
      assert Ordinal(today) > Ordinal(thisYear.value);
    }
  }

  /** A birthday has an occurrence exactly when some anniversary of it lies
      in the week from today on, and that anniversary is the occurrence. */
  lemma OccurrenceWindow(birthday: CalendarDate, today: CalendarDate)
    requires InClockRange(today)
    requires Occurrence(birthday, today).Ok?
    ensures forall y :: AnniversaryInWindow(birthday, y, today) ==>
      Occurrence(birthday, today).value == Some(Date(y, birthday.month, birthday.day))
    ensures Occurrence(birthday, today).value.Some? ==>
      var o := Occurrence(birthday, today).value.value;
      o.month == birthday.month && o.day == birthday.day && AnniversaryInWindow(birthday, o.year, today)
  {
    forall y | AnniversaryInWindow(birthday, y, today)
      ensures Occurrence(birthday, today).value == Some(Date(y, birthday.month, birthday.day))
    {
      OccurrenceFindsWindow(birthday, y, today);
    }
  }

  /** One iteration of `get_upcoming_birthdays` for a record with a
      birthday (task.py:93-103): the occurrence, moved to Monday when it
      falls on a weekend, written as a line. */
  function UpcomingEntry(name: string, birthday: CalendarDate, today: CalendarDate): (r: Result<Option<string>>)
    requires InClockRange(today)
    ensures r.Err? <==> Occurrence(birthday, today).Err?
    ensures r.Err? ==> r.error == ValueError
    ensures r.Ok? ==> (r.value.None? <==> Occurrence(birthday, today).value.None?)
  {
    var o :- Occurrence(birthday, today);
    TodayHeadroom(today);
    if o.None? then Ok(None) else Ok(Some(EntryLine(name, ReportedDate(o.value))))
  }

  /** A birthday falling on Saturday 23 March 2024, asked about on
      16 March 2024: it lies on the last day of the window, which counts,
      and is reported on the Monday after. */
  lemma WeekendBirthdayReportedMonday()
    ensures InClockRange(Date(2024, 3, 16))
    ensures UpcomingEntry("Alice", Date(2000, 3, 23), Date(2024, 3, 16)) == Ok(Some(EntryLine("Alice", Date(2024, 3, 25))))
  {
    DaysBeforeYearClosedForm(2024);
    var today, birthday, monday := Date(2024, 3, 16), Date(2024, 3, 23), Date(2024, 3, 25);
    assert ReplaceYear(Date(2000, 3, 23), 2024) == Ok(birthday);
    assert Ordinal(today) == 738961;
    assert Ordinal(birthday) == Ordinal(today) + 7;
    assert Occurrence(Date(2000, 3, 23), today) == Ok(Some(birthday));
    assert Weekday(birthday) == 5;
    assert Ordinal(ReportedDate(birthday)) == Ordinal(birthday) + 2;
    OrdinalOrder(ReportedDate(birthday), monday);
  }

  /** The line a book entry contributes: nothing for a record without a
      birthday (a Birthday object is always truthy, so the test at
      task.py:92 only rules out None). */
  function EntryResult(e: Entry, today: CalendarDate): (r: Result<Option<string>>)
    requires InClockRange(today)
    ensures r.Err? ==> r.error == ValueError
  {
    if e.1.None? then Ok(None) else UpcomingEntry(e.0, e.1.value.date, today)
  }

  /** The loop of `get_upcoming_birthdays` over per-record results: the
      lines in order, or the first error, which ends the loop. */
  function Collect(rs: seq<Result<Option<string>>>): (r: Result<seq<string>>)
    ensures r.Ok? ==> |r.value| <= |rs|
  {
    if |rs| == 0 then Ok([])
    else
      var prior :- Collect(rs[..|rs| - 1]);
      var line :- rs[|rs| - 1];
      Ok(prior + if line.Some? then [line.value] else [])
  }

  /** One more successful record extends the collected lines by its line, if any. */
  lemma CollectStep(rs: seq<Result<Option<string>>>, i: int)
    requires 0 <= i < |rs|
    requires Collect(rs[..i]).Ok? && rs[i].Ok?
    ensures Collect(rs[..i + 1]) ==
      Ok(Collect(rs[..i]).value + if rs[i].value.Some? then [rs[i].value.value] else [])
  {
    assert rs[..i + 1][..i] == rs[..i];
    assert rs[..i + 1][i] == rs[i];
  }

  /** The collection fails exactly when some record fails, with the error
      of the first record that does. */
  lemma {:induction false} CollectFails(rs: seq<Result<Option<string>>>)
    ensures Collect(rs).Err? <==> exists i :: 0 <= i < |rs| && rs[i].Err?
    ensures Collect(rs).Err? ==> exists i ::
      && 0 <= i < |rs|
      && rs[i].Err?
      && Collect(rs).error == rs[i].error
      && forall j :: 0 <= j < i ==> rs[j].Ok?
  {
    if |rs| > 0 {
      var front := rs[..|rs| - 1];
      CollectFails(front);
      assert forall i :: 0 <= i < |front| ==> front[i] == rs[i];
      if Collect(front).Err? {
        var i :| 0 <= i < |front| && front[i].Err? && Collect(front).error == front[i].error &&
          forall j :: 0 <= j < i ==> front[j].Ok?;
        assert rs[i].Err?;
      } else if rs[|rs| - 1].Err? {
        assert forall j :: 0 <= j < |front| ==> rs[j].Ok?;
      }
    }
  }

  /** Once the records before `i` have gone through, the first failing
      record `i` ends the collection with its error, whatever follows. */
  lemma {:induction false} CollectStopsAt(rs: seq<Result<Option<string>>>, i: int)
    requires 0 <= i < |rs|
    requires Collect(rs[..i]).Ok? && rs[i].Err?
    ensures Collect(rs) == Err(rs[i].error)
    decreases |rs|
  {
    var front := rs[..|rs| - 1];
    if |rs| == i + 1 {
      assert front == rs[..i];
    } else {
      assert front[..i] == rs[..i];
      assert front[i] == rs[i];
      CollectStopsAt(front, i);
    }
  }

  /** When the collection succeeds, it has at most one line per record,
      every line comes from a record, and every record's line is in it. */
  lemma {:induction false} CollectLines(rs: seq<Result<Option<string>>>)
    requires Collect(rs).Ok?
    ensures |Collect(rs).value| <= |rs|
    ensures forall line :: line in Collect(rs).value ==> exists i :: 0 <= i < |rs| && rs[i] == Ok(Some(line))
    ensures forall i :: 0 <= i < |rs| ==>
      && rs[i].Ok?
      && (rs[i].value.Some? ==> rs[i].value.value in Collect(rs).value)
  {
    if |rs| > 0 {
      var front := rs[..|rs| - 1];
      CollectLines(front);
      assert forall i :: 0 <= i < |front| ==> front[i] == rs[i];
      var prior := Collect(front).value;
      var last := rs[|rs| - 1].value;
      assert Collect(rs).value == prior + if last.Some? then [last.value] else [];
    }
  }

  /** The lines of the records that qualify, in book order, or the error of
      the first record that raises. */
  function Upcoming(es: seq<Entry>, today: CalendarDate): (r: Result<seq<string>>)
    requires InClockRange(today)
    ensures r.Ok? ==> |r.value| <= |es|
    ensures r.Err? ==> r.error == ValueError
  {
    CollectFails(Results(es, today));
    Collect(Results(es, today))
  }

  /** The result of each entry, in book order. */
  function Results(es: seq<Entry>, today: CalendarDate): (rs: seq<Result<Option<string>>>)
    requires InClockRange(today)
    ensures |rs| == |es|
    ensures forall i :: 0 <= i < |es| ==> rs[i] == EntryResult(es[i], today)
  {
    seq(|es|, i requires 0 <= i < |es| => EntryResult(es[i], today))
  }

  /** The query over a book raises exactly when one of its records raises,
      and then with ValueError. */
  lemma UpcomingFails(es: seq<Entry>, today: CalendarDate)
    requires InClockRange(today)
    ensures Upcoming(es, today).Err? <==> exists i :: 0 <= i < |es| && EntryResult(es[i], today).Err?
    ensures Upcoming(es, today).Err? ==> Upcoming(es, today).error == ValueError
  {
    CollectFails(Results(es, today));
  }

  /** When the query over a book succeeds, every line comes from a record,
      and every record that yields a line has it in the result. */
  lemma UpcomingLines(es: seq<Entry>, today: CalendarDate)
    requires InClockRange(today)
    requires Upcoming(es, today).Ok?
    ensures |Upcoming(es, today).value| <= |es|
    ensures forall line :: line in Upcoming(es, today).value ==>
      exists i :: 0 <= i < |es| && EntryResult(es[i], today) == Ok(Some(line))
    ensures forall i :: 0 <= i < |es| ==>
      && EntryResult(es[i], today).Ok?
      && (EntryResult(es[i], today).value.Some? ==> EntryResult(es[i], today).value.value in Upcoming(es, today).value)
  {
    CollectLines(Results(es, today));
  }

  /** The body of the loop in `get_upcoming_birthdays` for one record
      with a birthday (task.py:93-103), with `nextWeek` the date a week
      after `today`. */
  method BirthdayLine(name: string, birthday: CalendarDate, today: CalendarDate, nextWeek: CalendarDate)
    returns (r: Result<Option<string>>)
    requires InClockRange(today) && Ordinal(nextWeek) == Ordinal(today) + 7
    ensures r == UpcomingEntry(name, birthday, today)
  {
    TodayHeadroom(today);
    var nextBirthday := ReplaceYear(birthday, today.year);
    if nextBirthday.Err? {
      return Err(nextBirthday.error);
    }
    var next := nextBirthday.value;
    if Ordinal(today) <= Ordinal(next) <= Ordinal(nextWeek) {
      ghost var occurrence := next;
      assert Occurrence(birthday, today) == Ok(Some(occurrence));
      if Weekday(next) == 5 || Weekday(next) == 6 {
        next := FindNextWeekday(next, 0).value;
      }
      assert next == ReportedDate(occurrence);
      return Ok(Some(EntryLine(name, next)));
    } else if Ordinal(today) > Ordinal(next) {
      nextBirthday := ReplaceYear(birthday, today.year + 1);
      if nextBirthday.Err? {
        return Err(nextBirthday.error);
      }
      next := nextBirthday.value;
      if Ordinal(today) <= Ordinal(next) <= Ordinal(nextWeek) {
        ghost var occurrence := next;
        assert Occurrence(birthday, today) == Ok(Some(occurrence));
        if Weekday(next) == 5 || Weekday(next) == 6 {
          next := FindNextWeekday(next, 0).value;
        }
        assert next == ReportedDate(occurrence);
        return Ok(Some(EntryLine(name, next)));
      }
    }
    return Ok(None);
  }

  /** The loop body of `get_upcoming_birthdays` for one record
      (task.py:92-103): records without a birthday contribute nothing. */
  method RecordLine(record: Record, today: CalendarDate, nextWeek: CalendarDate)
    returns (r: Result<Option<string>>)
    requires InClockRange(today) && Ordinal(nextWeek) == Ordinal(today) + 7
    ensures r == EntryResult((record.name, record.birthday), today)
  {
    if record.birthday.None? {
      return Ok(None);
    }
    r := BirthdayLine(record.name, record.birthday.value.date, today, nextWeek);
  }

  /** The names and birthdays of `records`, in order. */
  function RecordEntries(records: seq<Record>): (es: seq<Entry>)
    reads records
    ensures |es| == |records|
    ensures forall i :: 0 <= i < |records| ==> es[i] == (records[i].name, records[i].birthday)
  {
    seq(|records|, i requires 0 <= i < |records| reads records => (records[i].name, records[i].birthday))
  }

  /** The loop of `get_upcoming_birthdays` (task.py:91-104) over the
      records in book order. */
  method UpcomingOf(records: seq<Record>, today: CalendarDate) returns (r: Result<seq<string>>)
    requires InClockRange(today)
    ensures r == Upcoming(RecordEntries(records), today)
  {
    TodayHeadroom(today);
    ghost var rs := Results(RecordEntries(records), today);
    var upcoming: seq<string> := [];
    var nextWeek := AddDays(today, 7);
    var i := 0;
    while i < |records|
      invariant 0 <= i <= |records| == |rs|
      invariant Collect(rs[..i]) == Ok(upcoming)
    {
      var line := RecordLine(records[i], today, nextWeek);
      assert rs[i] == line;
      if line.Err? {
        CollectStopsAt(rs, i);
        return Err(line.error);
      }
      CollectStep(rs, i);
      ghost var before := upcoming;
      if line.value.Some? {
        upcoming := upcoming + [line.value.value];
      }
      assert upcoming == before + if line.value.Some? then [line.value.value] else [];
      i := i + 1;
    }
    assert rs[..i] == rs;
    return Ok(upcoming);
  }

  // ---------------------------------------------------------------------
  // The book

  class AddressBook {
    /** The names in dict order. */
    var order: seq<string>
    var data: map<string, Record>

    /** The names in `order` are the keys of `data`, each once, and each
        record is stored under its own name. */
    ghost predicate Valid()
      reads this
    {
      && Distinct(order)
      && (forall k :: k in data <==> k in order)
      && (forall k :: k in data ==> data[k].name == k)
    }

    /** What the book holds, as values. */
    ghost function Contacts(): map<string, Contact>
      reads this, data.Values
    {
      map k | k in data :: data[k].Snapshot()
    }

    /** `self.data.values()`: the records in book order. */
    function Values(): (records: seq<Record>)
      reads this
      requires Valid()
      ensures |records| == |order|
      ensures forall i :: 0 <= i < |order| ==> records[i] == data[order[i]]
      ensures forall i :: 0 <= i < |order| ==> records[i].name == order[i]
      ensures forall k :: k in data ==> data[k] in records
    {
      seq(|order|, i requires 0 <= i < |order| && order[i] in data reads this => data[order[i]])
    }

    /** The names and birthdays of the records, in book order. */
    function Entries(): (es: seq<Entry>)
      reads this, data.Values
      requires Valid()
      ensures |es| == |order|
      ensures forall i :: 0 <= i < |order| ==> es[i] == (order[i], data[order[i]].birthday)
    {
      RecordEntries(Values())
    }

    constructor ()
      ensures Valid()
      ensures order == [] && data == map[]
    {
      order := [];
      data := map[];
    }

    /** `add_record`: stores the record under its name, replacing any
        record already there; a new name goes to the end of the order. */
    method AddRecord(record: Record)
      requires Valid()
      modifies this
      ensures Valid()
      ensures data == old(data)[record.name := record]
      ensures order == if record.name in old(data) then old(order) else old(order) + [record.name]
      ensures Contacts() == old(Contacts())[record.name := record.Snapshot()]
    {
      if record.name !in data {
        order := order + [record.name];
      }
      data := data[record.name := record];
    }

    /** `find`: the record stored under `name`, or None. */
    function Find(name: string): (r: Option<Record>)
      reads this
      requires Valid()
      ensures r.Some? <==> name in data
      ensures r.Some? ==> r.value == data[name] && r.value.name == name
    {
      if name in data then Some(data[name]) else None
    }

    /** `delete`: removes exactly the entry for `name`; an absent name
        raises KeyError and changes nothing. */
    method Delete(name: string) returns (outcome: Outcome)
      requires Valid()
      modifies this
      ensures Valid()
      ensures name !in old(data) ==> outcome == Raised(KeyError) && data == old(data) && order == old(order)
      ensures name in old(data) ==> outcome == Done && data == old(data) - {name} && order == Without(old(order), name)
    {
      if name !in data {
        return Raised(KeyError);
      }
      data := data - {name};
      order := Without(order, name);
      return Done;
    }

    /** `get_upcoming_birthdays(days)` with `today` standing for
        `datetime.today().date()`. The `days` argument is not used: the
        window is always one week. */
    method GetUpcomingBirthdays(days: int, today: CalendarDate) returns (r: Result<seq<string>>)
      requires Valid() && InClockRange(today)
      ensures r == Upcoming(Entries(), today)
    {
      r := UpcomingOf(Values(), today);
    }
  }
}

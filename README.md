# Contact book assistant: a Dafny model

This project models the command-line contact book of `task.py`. The book keeps:
- a name-keyed collection of records;
- for each record, an ordered list of ten-digit phone numbers and an optional birthday written `DD.MM.YYYY`.

It answers the commands `add`, `change`, `phone`, `all`, `add-birthday`, `show-birthday` and `birthdays`. The last lists the contacts whose birthday falls within the coming week. A weekend birthday is announced on the following Monday.

The modules follow the program's own structure:

- `Errors`: the three Python exceptions the handlers can raise, and `Result`/`Option`/`Outcome` for the error paths.
- `Text`: digits, the zero padding of `strftime`, `str.join`, and splitting at one character.
- `Calendar`: proleptic Gregorian dates as Python's `datetime.date` sees them.
  - Day ordinals follow `toordinal()`, and weekdays run Monday = 0 to Sunday = 6.
  - `replace(year=...)` fails with ValueError on a date that does not exist.
  - Adding whole days is `timedelta` addition.
- `Fields`: the validating constructors of `Phone` and `Birthday`. The latter follows `strptime`'s matching of `%d.%m.%Y` exactly.
- `Records`: the `Record` class, whose phone list and birthday are changed in place.
- `Book`:
  - the `AddressBook` class: a map from names to records plus the dict's insertion order;
  - `find_next_weekday`;
  - the upcoming-birthday query.
- `Input`: `parse_input`, i.e. `str.split()` and the lower-casing of the command word.
- `Handlers`: the `input_error` wrapper and the seven command handlers.

The query is specified by pure functions:
- `Occurrence` is the date a birthday is looked at. It takes this year's occurrence, or next year's when this year's is already past, and keeps it only inside `[today, today + 7]`.
- `ReportedDate` is the weekend shift.
- `UpcomingEntry` gives one record's result.
- `Collect` gives the loop's result: the lines in book order, or the first error.

The method `GetUpcomingBirthdays` is proved equal to `Upcoming` of the book's entries. The lemmas then characterise `Upcoming`:
- exactly when it fails;
- which records contribute a line;
- that an anniversary inside the window is always the one reported.

A 29 February birthday cannot be moved into a common year. The query then raises ValueError, and the `birthdays` command answers with the ValueError message of `input_error`. `OccurrenceFails` states exactly when this happens.

## Model

| member | source | states |
|---|---|---|
| Text.Pad2 | task.py:97 | `%d` and `%m` write two ASCII digits whose decimal value is the number |
| Text.Pad4 | task.py:97 | `%Y` writes four ASCII digits whose decimal value is the year |
| Text.SplitAt | task.py:29 | splitting at a character gives at least one piece, and no piece contains that character |
| Text.SplitAtJoin | task.py:29 | joining pieces free of the separator and splitting again gives back the pieces |
| Text.JoinSplitAt | task.py:29 | splitting at a character and joining with it gives back the text |
| Calendar.AddDays | task.py:90 | adding `n` days to a date gives a valid date whose ordinal is `n` larger |
| Calendar.NextDay | task.py:90 | the next day is a valid date one ordinal later and after the date in calendar order |
| Calendar.ReplaceYear | task.py:93 | `replace(year=y)` succeeds iff the year is representable and the date is not 29 February of a common year; the result keeps month and day; failure is ValueError |
| Calendar.DaysBeforeYearClosedForm | task.py:94 | the year-by-year day count equals the closed formula `p*365 + p/4 - p/100 + p/400` Python's ordinals use |
| Calendar.OrdinalOrder | task.py:94 | comparing ordinals is comparing dates by (year, month, day), and equal ordinals mean equal dates, so the chained comparison is modelled faithfully |
| Calendar.LastDateOrdinal | task.py:90 | every representable date has an ordinal between 1 and that of 31 December 9999, which only that date reaches |
| Calendar.Ordinal | task.py:94 | `toordinal()` of a date lies after every day of the earlier years and within its own year; with DaysBeforeYearClosedForm it is Python's ordinal |
| Calendar.Weekday | task.py:79 | `weekday()` is a number from 0 (Monday) to 6 (Sunday) |
| Calendar.DayOfYearBounds | task.py:94 | the days of the months before a date plus its day lie between 1 and the length of its year |
| Calendar.AnniversaryGap | task.py:98-99 | the same month and day a year later lies at least 365 days later |
| Calendar.WeekdayShift | task.py:79-84 | moving `k` days moves the weekday `k` places around the week |
| Calendar.AddDaysReaches | task.py:82 | moving `target - weekday + 7` days lands on weekday `target` |
| Fields.DigitStringIsAllDigits | task.py:20 | the recursive digit test holds iff the text is non-empty and every character is a digit |
| Fields.NewPhone | task.py:18-23 | a phone is accepted iff it is exactly ten digits, is stored unchanged, and otherwise ValueError is raised |
| Fields.DayField | task.py:29 | the `%d` directive yields a day between 1 and 31 |
| Fields.MonthField | task.py:29 | the `%m` directive yields a month between 1 and 12 |
| Fields.YearField | task.py:29 | the `%Y` directive yields a year between 0 and 9999 |
| Fields.ParseBirthday | task.py:26-32 | an accepted birthday keeps its text; every failure is ValueError |
| Fields.DayFieldSpells | task.py:29 | whatever `%d` accepts is a spelling of the day it yields |
| Fields.SpellsDayField | task.py:29 | every spelling of a day is accepted by `%d` as that day |
| Fields.MonthFieldSpells | task.py:29 | whatever `%m` accepts is a spelling of the month it yields |
| Fields.SpellsMonthField | task.py:29 | every spelling of a month is accepted by `%m` as that month |
| Fields.YearFieldSpells | task.py:29 | whatever `%Y` accepts is the four-digit spelling of the year it yields |
| Fields.ParseBirthdaySound | task.py:29 | every accepted text is a day spelling, a dot, a month spelling, a dot and four year digits, spelling the stored date |
| Fields.ParseBirthdayComplete | task.py:29-30 | every such spelling of an existing date is accepted, with that date and that text |
| Fields.DateTextRoundTrip | task.py:29-30 | the canonical `DD.MM.YYYY` text of any date parses back to it |
| Records.FirstMatch | task.py:48-49 | the position found holds the text and no earlier phone does; there is none iff no phone holds the text |
| Records.KeepDiffering | task.py:45 | the comprehension keeps, in order, only phones of the list that differ from the text, so it never grows |
| Records.RemoveByTextKeepsAll | task.py:45 | the comprehension with a str argument keeps every phone |
| Records.Record.constructor | task.py:36-39 | a new record has the given name, no phones and no birthday |
| Records.Record.AddPhone | task.py:41-42 | a valid number is appended at the end with earlier phones untouched; an invalid one raises ValueError and leaves the list as it was |
| Records.Record.RemovePhone | task.py:44-45 | removing by text leaves the phones and the birthday unchanged |
| Records.Record.EditPhone | task.py:47-53 | only the first phone with the old text gets the new text, unvalidated, and the length is kept; without a match it raises ValueError and nothing changes |
| Records.Record.FindPhone | task.py:55-59 | the result is the first phone with the text, or None exactly when no phone has it |
| Records.Record.AddBirthday | task.py:61-62 | a valid text replaces the birthday; an invalid one raises ValueError and keeps the old one; phones are untouched |
| Book.Without | task.py:76 | removing a key from the order removes exactly that name, keeps the others distinct and shortens the order by one |
| Book.TodayHeadroom | task.py:90 | a week (indeed a year less a day) after any clock date is still a representable date |
| Book.FindNextWeekday | task.py:78-85 | a result exists iff `weekday` is not later in the week than the day; it lies exactly `weekday - day.weekday() + 7` days later, or for a weekend target on the Monday after that, `14 - day.weekday()` days later |
| Book.NextMondayIsFirst | task.py:78-85 | `find_next_weekday(d, 0)` is the first Monday strictly after `d`, one to seven days later |
| Book.NoMondayBefore | task.py:79-82 | no Monday lies strictly between a day and the Monday `7 - weekday` days after it |
| Book.EntryLine | task.py:97 | an upcoming line is the name, `": "`, and then text that splits at commas into the two-digit day, the two-digit month and the four-digit year |
| Book.ReportedDate | task.py:95-96 | the reported date is never a weekend day; a weekday is kept; a weekend day moves to the Monday after |
| Book.Occurrence | task.py:93-100 | a chosen occurrence lies between today and a week later, both ends included; failure is ValueError |
| Book.OccurrenceFails | task.py:93-99 | the query fails iff the birthday is 29 February and either this year is common or today is past February |
| Book.OccurrenceFindsWindow | task.py:94-100 | any anniversary inside the window is the occurrence chosen |
| Book.OccurrenceWindow | task.py:93-100 | an occurrence is chosen iff some anniversary lies in the window, and then it is that anniversary |
| Book.UpcomingEntry | task.py:93-103 | one record yields an error iff its occurrence fails (always ValueError), and a line iff an occurrence is chosen |
| Book.WeekendBirthdayReportedMonday | task.py:94-97 | a Saturday birthday exactly a week ahead is listed and is dated the Monday after, beyond the window |
| Book.EntryResult | task.py:92 | a record's result can only fail with ValueError |
| Book.Collect | task.py:91-104 | the loop's lines in book order, or the first error; at most one line per record (CollectFails and CollectLines give the rest) |
| Book.CollectStep | task.py:97 | one more record that succeeds appends its line, if any, to the lines so far |
| Book.CollectFails | task.py:91-104 | the loop fails iff some record fails, and then with the first such record's error |
| Book.CollectStopsAt | task.py:91-104 | the first failing record ends the loop with its error, whatever follows |
| Book.CollectLines | task.py:91-104 | on success there is at most one line per record, every line comes from a record, and every record's line is present |
| Book.Upcoming | task.py:87-104 | the query over a book's entries has at most one line per record and can only raise ValueError |
| Book.UpcomingFails | task.py:87-104 | the query raises iff some record raises, and then ValueError |
| Book.UpcomingLines | task.py:87-104 | a successful query has at most one line per record, each from a record, and includes every qualifying record's line |
| Book.BirthdayLine | task.py:93-103 | the loop body for a record with a birthday computes exactly `UpcomingEntry` |
| Book.RecordLine | task.py:92-103 | the loop body for any record computes exactly `EntryResult`, so a record without a birthday contributes nothing |
| Book.UpcomingOf | task.py:91-104 | the loop over the records in book order yields exactly `Upcoming` of their entries |
| Book.AddressBook.constructor | task.py:68 | a new book is empty and consistent |
| Book.AddressBook.Values | task.py:91 | `values()` lists every stored record, position by position in insertion order, each under the name at that position |
| Book.AddressBook.Entries | task.py:91 | the entries pair each name in insertion order with its record's birthday |
| Book.AddressBook.AddRecord | task.py:69-70 | the record is stored under its name, replacing any earlier one; a new name joins the end of the order; no other entry changes |
| Book.AddressBook.Find | task.py:72-73 | the lookup yields the record stored under the name, or None iff the name is absent |
| Book.AddressBook.Delete | task.py:75-76 | exactly that key is removed; an absent key raises KeyError and changes nothing |
| Book.AddressBook.GetUpcomingBirthdays | task.py:87-104 | the query returns exactly `Upcoming` of the book's entries for the given day |
| Input.Word | task.py:209 | a word is the longest whitespace-free prefix |
| Input.Split | task.py:209 | `split()` yields only non-empty whitespace-free words |
| Input.SplitEmpty | task.py:209 | a line has no words iff it is all whitespace |
| Input.SplitJoin | task.py:209 | words joined by single spaces split back into the same words |
| Input.Lower | task.py:210 | lower-casing keeps the length, leaves no capital letter, changes no text without capitals, and keeps whitespace where it was |
| Input.ParseInput | task.py:208-211 | a line is accepted iff it has a non-space character, and otherwise the unpacking raises ValueError; the command is the first word of `split()` lower-cased and the arguments are the remaining words |
| Input.ParseInputRoundTrip | task.py:208-211 | any command word and arguments written with single spaces parse back to the command lower-cased and the same arguments |
| Handlers.InputError | task.py:119-129 | each error gets a non-empty message, told apart by its first character |
| Handlers.InputErrorsDistinct | task.py:119-129 | two errors get the same message iff they are the same error |
| Handlers.AddContact | task.py:131-142 | fewer than two words raise ValueError; otherwise the reply distinguishes new and existing names; the new record is stored before the phone is checked; the phone is added iff non-empty and valid; nothing else changes |
| Handlers.AddNewContact | task.py:136-142 | a new name gets an empty record at the end of the order, then the phone |
| Handlers.AddPhoneIfGiven | task.py:140-142 | a non-empty phone is added when valid, with the ValueError reply when not; only that record changes |
| Handlers.ChangeContact | task.py:144-152 | three words are required; an unknown name gets the check-data reply; otherwise only the first matching phone of that record changes, or ValueError with no change |
| Handlers.OneRecordChanged | task.py:149 | when one stored record changes, the book's contents change in that entry only |
| Handlers.ShowPhone | task.py:154-162 | no words raise IndexError; an unknown name gets the not-found reply; a record without phones yields None; otherwise its phones joined by `"; "` |
| Handlers.ContactLine | task.py:169 | a line of `all` starts with the name and `": "` |
| Handlers.ShowAll | task.py:164-172 | the empty-book message iff the book is empty, otherwise one line per record in book order |
| Handlers.AddBirthdayCommand | task.py:175-188 | exactly two words are required; an invalid date raises ValueError and changes nothing, even for a new name; a valid one sets the birthday, creating the record at the end of the order when new |
| Handlers.SetBirthday | task.py:179-181 | an existing record's birthday is replaced when the text is valid and kept otherwise; phones are untouched |
| Handlers.ShowBirthday | task.py:190-197 | the stored birthday is shown iff the name exists and has one; otherwise the retry message; no words raise IndexError |
| Handlers.Birthdays | task.py:199-205 | the reply is the query's lines, or the nobody-due line when there are none, or the ValueError message iff some record's query fails |

## Left out

- `save_data` and `load_data` (task.py:107-116): pickle file I/O is not modelled.
- `main` (task.py:214-246): the interactive loop of `input` and `print` is not modelled. This includes the `hello`, `close`/`exit` and unknown-command replies, and the way `all` and `birthdays` print a string reply one character per line.
- `datetime.today()` (task.py:89): the current day is a parameter `today`.
- Book.AddressBook.GetUpcomingBirthdays: `today` is limited to years 1000 to 9998, the dates a wall clock gives. Year 9999, where `timedelta` addition raises OverflowError, is not modelled.
- Handlers.Birthdays: the same limit on `today` applies.
- Book.FindNextWeekday: `weekday` is limited to 0 to 6. The program only ever passes 0, and other integers name no weekday.
- Book.AddressBook.GetUpcomingBirthdays: the `days` parameter is accepted and ignored, as in the program; the window is always one week.
- `Record.__str__` (task.py:64-65): it reads `self.data`, which a record does not have, so it always raises; it is never called.
- `Field` and `Name` (task.py:5-15): a name is kept as its text, and `Field.__str__` is the stored text.
- Fields.NewPhone: `str.isdigit()` also accepts non-ASCII digits; only ASCII digits are modelled.
- Fields.ParseBirthday: `strptime`'s `\d` and its case folding are modelled for ASCII only.
- Input.Lower: `str.lower()` is modelled for ASCII letters only.
- Records.Record.EditPhone: the program rewrites the value of the shared Phone object in place. Phones are never shared between records, so the model replaces the list element with a new value.
- The `else` branch of `add_birthday` (task.py:187-188): it is unreachable, because a found record is always truthy and otherwise `find` returns None.
- KeyError from `input_error`: no handler calls `delete`, so the KeyError message is modelled but never produced by a handler.

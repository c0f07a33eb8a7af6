/** The command handlers (task.py:119-205): each takes the argument words
    of a command and the book, and answers with text. Every handler is
    wrapped by `input_error`, which turns the three Python errors a handler
    can raise into fixed messages. */
module Handlers {
  import opened Errors
  import opened Text
  import opened Calendar
  import opened Fields
  import opened Records
  import opened Book

  /** What a handler hands back to the command loop. */
  datatype Reply =
    | Message(text: string)          // a single string
    | Lines(lines: seq<string>)      // a list of strings
    | Shown(birthday: Birthday)      // a Birthday object, printed as its text
    | NoReply                        // None

  /** The replies of `input_error` (task.py:119-129). The KeyError reply
      begins with the Cyrillic capital Es (U+0421), not a Latin C. */
  function InputError(e: PyError): (msg: string)
    ensures |msg| > 0
    ensures e == ValueError <==> msg[0] == 'G'
    ensures e == KeyError <==> msg[0] == '\U{0421}'
    ensures e == IndexError <==> msg[0] == 'E'
  {
    match e
    case ValueError => "Give me name and phone please."
    case KeyError => "\U{0421}heck the validity of the entered data"
    case IndexError => "Enter user name"
  }

  /** The three errors get three different replies. */
  lemma InputErrorsDistinct(a: PyError, b: PyError)
    ensures InputError(a) == InputError(b) <==> a == b
  {
    if a != b {
      assert InputError(a)[0] != InputError(b)[0];
    }
  }

  const ContactAdded := "Contact added."
  const ContactUpdated := "Contact updated."
  const BirthdayAdded := "Birthday added."
  const CheckData := "Перевірте вірність введених даних"
  const UserNotFound := "Користувача з таким іменем не знайдено, перевірте вірність введених даних"
  const CheckDataAndRetry := "Перевірте вірність введених даних та повторіть спробу"
  const EmptyBook := "Список контактів порожній"
  const NoBirthdays := "Немає користувачів, яких потрібно привітати на наступному тижні."

  /** The record of `name` after its phones become `phones`. */
  function WithPhones(c: Contact, phones: seq<Phone>): Contact {
    Contact(phones, c.birthday)
  }

  /** The phones a record has after `add_phone(phone)` when `phone` is
      given at all: one more at the end if it is valid. */
  function PhonesAfterAdd(phones: seq<Phone>, phone: string): seq<Phone> {
    if phone != "" && NewPhone(phone).Ok? then phones + [Phone(phone)] else phones
  }

  /** The reply of `add_contact` once the record exists: an empty phone
      word skips `add_phone`, an invalid one makes it raise ValueError. */
  function AddReply(phone: string, message: string): string {
    if phone != "" && NewPhone(phone).Err? then InputError(ValueError) else message
  }

  /** The contents of the book after `add_contact(name, phone)`: the
      record of `name`, new and empty if there was none, with the phone
      added when it is given and valid. */
  function AfterAddContact(contacts: map<string, Contact>, name: string, phone: string): map<string, Contact> {
    var c := if name in contacts then contacts[name] else Contact([], None);
    contacts[name := WithPhones(c, PhonesAfterAdd(c.phones, phone))]
  }

  /** A name joins the end of the order when it is new. */
  function OrderAfterAdd(order: seq<string>, name: string): seq<string> {
    if name in order then order else order + [name]
  }

  /** `add_contact` (task.py:131-142). The record of a new name is stored
      before its phone is checked, so an invalid phone still leaves the
      new, phone-less record in the book. */
  method AddContact(args: seq<string>, book: AddressBook) returns (reply: string)
    requires book.Valid()
    modifies book, book.data.Values
    ensures book.Valid()
    ensures |args| < 2 ==>
      && reply == InputError(ValueError)
      && book.order == old(book.order)
      && book.Contacts() == old(book.Contacts())
    ensures |args| >= 2 ==>
      && reply == AddReply(args[1], if args[0] in old(book.data) then ContactUpdated else ContactAdded)
      && book.order == OrderAfterAdd(old(book.order), args[0])
      && book.Contacts() == AfterAddContact(old(book.Contacts()), args[0], args[1])
  {
    if |args| < 2 {
      return InputError(ValueError);
    }
    var name, phone := args[0], args[1];
    var found := book.Find(name);
    if found.None? {
      ghost var record;
      reply, record := AddNewContact(book, name, phone);
    } else {
      reply := AddPhoneIfGiven(book, found.value, phone, ContactUpdated);
    }
  }

  /** `add_contact` for a name not yet in the book (task.py:136-142): the
      empty record is stored first, then the phone is added to it. */
  method AddNewContact(book: AddressBook, name: string, phone: string) returns (reply: string, ghost record: Record)
    requires book.Valid() && name !in book.data
    modifies book
    ensures book.Valid()
    ensures reply == AddReply(phone, ContactAdded)
    ensures book.order == old(book.order) + [name]
    ensures fresh(record) && book.data == old(book.data)[name := record]
    ensures record.Snapshot() == Contact(PhonesAfterAdd([], phone), None)
  {
    var r := new Record(name);
    book.AddRecord(r);
    reply := AddPhoneIfGiven(book, r, phone, ContactAdded);
    record := r;
  }

  /** The end of `add_contact` (task.py:140-142): a non-empty phone word is
      added to the record, which is already in the book. */
  method AddPhoneIfGiven(book: AddressBook, record: Record, phone: string, message: string) returns (reply: string)
    requires book.Valid() && record.name in book.data && book.data[record.name] == record
    modifies record
    ensures book.Valid()
    ensures reply == AddReply(phone, message)
    ensures record.phones == PhonesAfterAdd(old(record.phones), phone) && record.birthday == old(record.birthday)
    ensures book.Contacts() ==
      old(book.Contacts())[record.name := WithPhones(old(record.Snapshot()), PhonesAfterAdd(old(record.phones), phone))]
  {
    ghost var before := book.Contacts();
    if phone != "" {
      var outcome := record.AddPhone(phone);
      reply := if outcome.Raised? then InputError(outcome.error) else message;
    } else {
      reply := message;
    }
    OneRecordChanged(book, before, record);
  }

  /** `change_contact` (task.py:144-152): the first phone of the record
      whose text is the old number gets the new text; without such a phone
      `edit_phone` raises ValueError. */
  method ChangeContact(args: seq<string>, book: AddressBook) returns (reply: string)
    requires book.Valid()
    modifies book.data.Values
    ensures book.Valid() && book.order == old(book.order)
    ensures |args| != 3 ==> reply == InputError(ValueError) && book.Contacts() == old(book.Contacts())
    ensures |args| == 3 && args[0] !in book.data ==> reply == CheckData && book.Contacts() == old(book.Contacts())
    ensures |args| == 3 && args[0] in book.data ==>
      var c := old(book.Contacts())[args[0]];
      match FirstMatch(c.phones, args[1])
      case None => reply == InputError(ValueError) && book.Contacts() == old(book.Contacts())
      case Some(i) =>
        && reply == ContactUpdated
        && book.Contacts() == old(book.Contacts())[args[0] := WithPhones(c, c.phones[i := Phone(args[2])])]
  {
    if |args| != 3 {
      return InputError(ValueError);
    }
    var name, oldPhone, newPhone := args[0], args[1], args[2];
    var found := book.Find(name);
    if found.None? {
      return CheckData;
    }
    var record := found.value;
    ghost var before := book.Contacts();
    var outcome := record.EditPhone(oldPhone, newPhone);
    OneRecordChanged(book, before, record);
    reply := if outcome.Raised? then InputError(outcome.error) else ContactUpdated;
  }

  /** After one record of the book has changed, the book's contents differ
      from what they were exactly in that record's entry. */
  lemma OneRecordChanged(book: AddressBook, before: map<string, Contact>, record: Record)
    requires book.Valid()
    requires record.name in book.data && book.data[record.name] == record
    requires book.data.Keys == before.Keys
    requires forall k :: k in book.data && k != record.name ==> before[k] == book.data[k].Snapshot()
    ensures book.Contacts() == before[record.name := record.Snapshot()]
  {
  }

  /** `show_phone` (task.py:154-162): the phones of the record joined by
      `"; "`; nothing (None) for a record without phones. */
  function ShowPhone(args: seq<string>, book: AddressBook): (reply: Reply)
    reads book, book.data.Values
    requires book.Valid()
    ensures |args| == 0 ==> reply == Message(InputError(IndexError))
    ensures |args| > 0 && args[0] !in book.data ==> reply == Message(UserNotFound)
    ensures |args| > 0 && args[0] in book.data && book.Contacts()[args[0]].phones == [] ==> reply == NoReply
    ensures |args| > 0 && args[0] in book.data && book.Contacts()[args[0]].phones != [] ==>
      reply == Message(Join(PhoneTexts(book.Contacts()[args[0]].phones), "; "))
  {
    if |args| == 0 then Message(InputError(IndexError))
    else
      match book.Find(args[0])
      case None => Message(UserNotFound)
      case Some(record) =>
        if record.phones == [] then NoReply
        else Message(Join(PhoneTexts(record.phones), "; "))
  }

  function PhoneTexts(phones: seq<Phone>): (texts: seq<string>)
    ensures |texts| == |phones|
    ensures forall i :: 0 <= i < |phones| ==> texts[i] == phones[i].value
  {
    seq(|phones|, i requires 0 <= i < |phones| => phones[i].value)
  }

  /** One line of `show_all` (task.py:169): the name, the phone texts
      joined by `"; "`, and the birthday text or "No birthday". */
  function ContactLine(name: string, c: Contact): (line: string)
    ensures |line| >= |name| + 2 && line[..|name| + 2] == name + ": "
  {
    name + ": " + Join(PhoneTexts(c.phones), "; ") + "; Birthday: " +
      (match c.birthday case Some(b) => b.value case None => "No birthday")
  }

  /** `show_all` (task.py:164-172): one line per record in book order, or
      the empty-book message when there is no record. */
  method ShowAll(book: AddressBook) returns (reply: Reply)
    requires book.Valid()
    ensures |book.order| == 0 <==> reply == Message(EmptyBook)
    ensures |book.order| > 0 ==> reply.Lines? && |reply.lines| == |book.order|
    ensures reply.Lines? ==> forall i :: 0 <= i < |book.order| ==>
      reply.lines[i] == ContactLine(book.order[i], book.Contacts()[book.order[i]])
  {
    if |book.order| == 0 {
      return Message(EmptyBook);
    }
    var result: seq<string> := [];
    for i := 0 to |book.order|
      invariant |result| == i
      invariant forall j :: 0 <= j < i ==> result[j] == ContactLine(book.order[j], book.Contacts()[book.order[j]])
    {
      var record := book.data[book.order[i]];
      result := result + [ContactLine(record.name, record.Snapshot())];
    }
    return Lines(result);
  }

  /** `add_birthday` (task.py:175-188). For a name already in the book the
      record's birthday is replaced; for a new name the date is checked
      before the new record is stored, so an invalid date adds nothing. */
  method AddBirthdayCommand(args: seq<string>, book: AddressBook) returns (reply: string)
    requires book.Valid()
    modifies book, book.data.Values
    ensures book.Valid()
    ensures |args| != 2 ==>
      && reply == InputError(ValueError)
      && book.order == old(book.order)
      && book.Contacts() == old(book.Contacts())
    ensures |args| == 2 && ParseBirthday(args[1]).Err? ==>
      && reply == InputError(ValueError)
      && book.order == old(book.order)
      && book.Contacts() == old(book.Contacts())
    ensures |args| == 2 && ParseBirthday(args[1]).Ok? ==>
      && reply == BirthdayAdded
      && book.order == (if args[0] in old(book.data) then old(book.order) else old(book.order) + [args[0]])
      && book.Contacts() == old(book.Contacts())[args[0] :=
           Contact(if args[0] in old(book.data) then old(book.Contacts())[args[0]].phones else [],
                   Some(ParseBirthday(args[1]).value))]
  {
    if |args| != 2 {
      return InputError(ValueError);
    }
    var name, text := args[0], args[1];
    var found := book.Find(name);
    if found.Some? {
      reply := SetBirthday(book, found.value, text);
    } else {
      var record := new Record(name);
      var outcome := record.AddBirthday(text);
      if outcome.Raised? {
        return InputError(outcome.error);
      }
      book.AddRecord(record);
      reply := BirthdayAdded;
    }
  }

  /** `add_birthday` for a record already in the book (task.py:179-181). */
  method SetBirthday(book: AddressBook, record: Record, text: string) returns (reply: string)
    requires book.Valid() && record.name in book.data && book.data[record.name] == record
    modifies record
    ensures book.Valid()
    ensures reply == if ParseBirthday(text).Ok? then BirthdayAdded else InputError(ValueError)
    ensures book.Contacts() == old(book.Contacts())[record.name :=
      Contact(old(record.phones), if ParseBirthday(text).Ok? then Some(ParseBirthday(text).value) else old(record.birthday))]
  {
    ghost var before := book.Contacts();
    var outcome := record.AddBirthday(text);
    OneRecordChanged(book, before, record);
    reply := if outcome.Raised? then InputError(outcome.error) else BirthdayAdded;
  }

  /** `show_birthday` (task.py:190-197): the stored Birthday of the record,
      or the retry message when the name is unknown or has no birthday. */
  function ShowBirthday(args: seq<string>, book: AddressBook): (reply: Reply)
    reads book, book.data.Values
    requires book.Valid()
    ensures |args| == 0 ==> reply == Message(InputError(IndexError))
    ensures |args| > 0 ==>
      (reply.Shown? <==> args[0] in book.data && book.Contacts()[args[0]].birthday.Some?)
    ensures reply.Shown? ==> Some(reply.birthday) == book.Contacts()[args[0]].birthday
    ensures |args| > 0 && !reply.Shown? ==> reply == Message(CheckDataAndRetry)
  {
    if |args| == 0 then Message(InputError(IndexError))
    else
      match book.Find(args[0])
      case Some(record) =>
        if record.birthday.Some? then Shown(record.birthday.value) else Message(CheckDataAndRetry)
      case None => Message(CheckDataAndRetry)
  }

  /** `birthdays` (task.py:199-205): the upcoming-birthday lines, or a
      single line saying nobody is due; the arguments are ignored. A
      29 February birthday that cannot be moved to the needed year makes
      the query raise ValueError, which is answered with the ValueError
      message. */
  method Birthdays(args: seq<string>, book: AddressBook, today: CalendarDate) returns (reply: Reply)
    requires book.Valid() && InClockRange(today)
    ensures match Upcoming(book.Entries(), today)
      case Err(_) => reply == Message(InputError(ValueError))
      case Ok(lines) => reply == Lines(if lines == [] then [NoBirthdays] else lines)
    ensures reply.Message? <==> exists i :: 0 <= i < |book.order| && EntryResult(book.Entries()[i], today).Err?
  {
    UpcomingFails(book.Entries(), today);
    var upcoming := book.GetUpcomingBirthdays(7, today);
    if upcoming.Err? {
      return Message(InputError(upcoming.error));
    }
    if upcoming.value == [] {
      return Lines([NoBirthdays]);
    }
    return Lines(upcoming.value);
  }
}

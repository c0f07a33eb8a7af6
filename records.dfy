/** One contact (task.py:35-62): a name fixed at creation, an ordered list
    of phones that the methods change in place, and an optional birthday. */
module Records {
  import opened Errors
  import opened Fields

  /** The state of a record at one moment, as a value. */
  datatype Contact = Contact(phones: seq<Phone>, birthday: Option<Birthday>)

  /** The position of the first phone whose text is `text`: the search that
      both `find_phone` and `edit_phone` perform. */
  function FirstMatch(phones: seq<Phone>, text: string): (r: Option<nat>)
    ensures r.Some? ==> r.value < |phones| && phones[r.value].value == text
    ensures r.Some? ==> forall j :: 0 <= j < r.value ==> phones[j].value != text
    ensures r.None? <==> forall j :: 0 <= j < |phones| ==> phones[j].value != text
  {
    if |phones| == 0 then None
    else if phones[0].value == text then Some(0)
    else match FirstMatch(phones[1..], text)
      case None => None
      case Some(i) => Some(i + 1)
  }

  /** Python's `p != phone` for a Phone object `p` and a str `phone`. The
      field classes define no equality, so the comparison falls back to
      object identity, and a Phone is never the same object as a str. */
  predicate DiffersFromText(p: Phone, text: string) {
    true
  }

  /** `[p for p in phones if p != text]`. */
  function KeepDiffering(phones: seq<Phone>, text: string): (kept: seq<Phone>)
    ensures |kept| <= |phones|
    ensures forall p :: p in kept ==> p in phones && DiffersFromText(p, text)
  {
    if |phones| == 0 then []
    else (if DiffersFromText(phones[0], text) then [phones[0]] else []) + KeepDiffering(phones[1..], text)
  }

  /** Removing a phone by its text keeps every phone. */
  lemma {:induction false} RemoveByTextKeepsAll(phones: seq<Phone>, text: string)
    ensures KeepDiffering(phones, text) == phones
  {
    if |phones| > 0 {
      RemoveByTextKeepsAll(phones[1..], text);
      assert [phones[0]] + phones[1..] == phones;
    }
  }

  class Record {
    const name: string
    var phones: seq<Phone>
    var birthday: Option<Birthday>

    function Snapshot(): Contact
      reads this
    {
      Contact(phones, birthday)
    }

    constructor (name: string)
      ensures this.name == name
      ensures phones == [] && birthday == None
    {
      this.name := name;
      phones := [];
      birthday := None;
    }

    /** `add_phone`: a valid number is appended after the existing ones; an
        invalid one raises ValueError before the list is touched. */
    method AddPhone(phone: string) returns (outcome: Outcome)
      modifies this
      ensures outcome == Done <==> NewPhone(phone).Ok?
      ensures outcome == Done ==> phones == old(phones) + [Phone(phone)]
      ensures outcome.Raised? ==> outcome == Raised(ValueError) && phones == old(phones)
      ensures birthday == old(birthday)
    {
      var p := NewPhone(phone);
      if p.Err? {
        return Raised(p.error);
      }
      phones := phones + [p.value];
      return Done;
    }

    /** `remove_phone` with a str argument: the comprehension keeps every
        phone, because no phone compares equal to a str. */
    method RemovePhone(phone: string)
      modifies this
      ensures phones == old(phones)
      ensures birthday == old(birthday)
    {
      RemoveByTextKeepsAll(phones, phone);
      phones := KeepDiffering(phones, phone);
    }

    /** `edit_phone`: the first phone whose text is `oldPhone` gets the text
        `newPhone`, which is not validated; every other entry and the
        length stay as they were. Without a match it raises ValueError and
        changes nothing. */
    method EditPhone(oldPhone: string, newPhone: string) returns (outcome: Outcome)
      modifies this
      ensures |phones| == |old(phones)|
      ensures match FirstMatch(old(phones), oldPhone)
        case None => outcome == Raised(ValueError) && phones == old(phones)
        case Some(i) => outcome == Done && phones == old(phones)[i := Phone(newPhone)]
      ensures birthday == old(birthday)
    {
      var i := 0;
      while i < |phones|
        invariant 0 <= i <= |phones|
        invariant phones == old(phones)
        invariant forall j :: 0 <= j < i ==> phones[j].value != oldPhone
      {
        if phones[i].value == oldPhone {
          phones := phones[i := Phone(newPhone)];
          return Done;
        }
        i := i + 1;
      }
      return Raised(ValueError);
    }

    /** `find_phone`: the first phone whose text is `phone`, or None. */
    method FindPhone(phone: string) returns (r: Option<Phone>)
      ensures r.Some? ==> r.value.value == phone
      ensures r.None? <==> forall j :: 0 <= j < |phones| ==> phones[j].value != phone
      ensures r == (match FirstMatch(phones, phone) case None => None case Some(i) => Some(phones[i]))
    {
      for i := 0 to |phones|
        invariant forall j :: 0 <= j < i ==> phones[j].value != phone
      {
        if phones[i].value == phone {
          return Some(phones[i]);
        }
      }
      return None;
    }

    /** `add_birthday`: a valid text replaces any earlier birthday; an
        invalid one raises ValueError and keeps the earlier one. */
    method AddBirthday(text: string) returns (outcome: Outcome)
      modifies this
      ensures match ParseBirthday(text)
        case Ok(b) => outcome == Done && birthday == Some(b)
        case Err(_) => outcome == Raised(ValueError) && birthday == old(birthday)
      ensures phones == old(phones)
    {
      var b := ParseBirthday(text);
      if b.Err? {
        return Raised(b.error);
      }
      birthday := Some(b.value);
      return Done;
    }
  }
}

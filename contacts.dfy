/**
 * The contact book's mutable objects: a `Record` (a name and a phone list
 * changed in place) and an `AddressBook` (a dictionary from a contact's name
 * to its record, changed in place). Each method's new state is tied to the
 * functions of module RecordSpec, where its properties are proved.
 */
module Contacts {
  import opened Fields
  import RecordSpec

  class Record {
    const name: Name
    var phones: seq<Phone>

    /** The name and every phone passed their checks. */
    ghost predicate Valid()
      reads this
    {
      ValidName(name) && RecordSpec.AllValid(phones)
    }

    /** Allocates a record for a name that already passed its check. */
    constructor (name: Name)
      requires ValidName(name)
      ensures Valid()
      ensures this.name == name && phones == []
    {
      this.name := name;
      phones := [];
    }

    /** `Record(name)`: raises when the name is too short, else a record with no phones. */
    static method Create(raw: string) returns (r: Result<Record>)
      ensures r.Ok? <==> |raw| >= NameMinLength
      ensures r.Err? ==> r.error == ValueError(NameTooShort)
      ensures r.Ok? ==> fresh(r.value) && r.value.Valid()
      ensures r.Ok? ==> r.value.name == Name(raw) && r.value.phones == []
    {
      var n := MakeName(raw);
      if n.Err? {
        return Err(n.error);
      }
      var record := new Record(n.value);
      return Ok(record);
    }

    /** `get_name`: the key the record is filed under, a string that passed the name check. */
    function GetName(): (r: string)
      ensures ValidName(name) ==> MakeName(r) == Ok(name)
    {
      name.value
    }

    /** `__str__`: starts with the contact's name; with no phones, that header is all. */
    function ToString(): (r: string)
      reads this
      ensures "Contact name: " + GetName() + ", phones: " <= r
      ensures phones == [] ==> r == "Contact name: " + GetName() + ", phones: "
    {
      RecordSpec.Render(name, phones)
    }

    /** `add_phone`: appends a valid number; a short one raises and the list is unchanged. */
    method AddPhone(raw: string) returns (outcome: Outcome)
      modifies this
      ensures match RecordSpec.AddPhone(old(phones), raw)
              case Ok(s) => outcome == Done && phones == s
              case Err(e) => outcome == Raised(e) && phones == old(phones)
      ensures old(Valid()) ==> Valid()
    {
      var p := MakePhone(raw);
      if p.Err? {
        return Raised(p.error);
      }
      phones := phones + [p.value];
      outcome := Done;
    }

    /** `find_phone`: scans the list and returns the first entry with value `raw`, or `None`. */
    method FindPhone(raw: string) returns (found: Option<Phone>)
      ensures found.None? <==> RecordSpec.IndexOf(phones, raw) == -1
      ensures found.Some? ==> found.value == phones[RecordSpec.IndexOf(phones, raw)]
      ensures found.Some? ==> found.value.value == raw
    {
      var j := 0;
      while j < |phones|
        invariant 0 <= j <= |phones|
        invariant forall k :: 0 <= k < j ==> phones[k].value != raw
      {
        if phones[j].value == raw {
          return Some(phones[j]);
        }
        j := j + 1;
      }
      return None;
    }

    /** `find_phone_index`: scans the list for the first entry with value `raw`; -1 on a miss. */
    method FindPhoneIndex(raw: string) returns (index: int)
      ensures index == RecordSpec.IndexOf(phones, raw)
    {
      index := 0;
      while index < |phones|
        invariant 0 <= index <= |phones|
        invariant forall k :: 0 <= k < index ==> phones[k].value != raw
      {
        if phones[index].value == raw {
          return;
        }
        index := index + 1;
      }
      index := -1;
    }

    /** `edit_phone`: replaces the first entry equal to `oldRaw` by a new phone built from `newRaw`. */
    method EditPhone(oldRaw: string, newRaw: string) returns (outcome: Outcome)
      modifies this
      ensures match RecordSpec.EditPhone(old(phones), oldRaw, newRaw)
              case Ok(s) => outcome == Done && phones == s
              case Err(e) => outcome == Raised(e) && phones == old(phones)
      ensures old(Valid()) ==> Valid()
    {
      var index := FindPhoneIndex(oldRaw);
      if index == -1 {
        return Raised(ValueError(RecordSpec.NotFoundMessage(oldRaw)));
      }
      var p := MakePhone(newRaw);
      if p.Err? {
        return Raised(p.error);
      }
      phones := phones[index := p.value];
      outcome := Done;
    }

    /** `remove_phone`: deletes the first entry equal to `raw`; raises when there is none. */
    method RemovePhone(raw: string) returns (outcome: Outcome)
      modifies this
      ensures match RecordSpec.RemovePhone(old(phones), raw)
              case Ok(s) => outcome == Done && phones == s
              case Err(e) => outcome == Raised(e) && phones == old(phones)
      ensures old(Valid()) ==> Valid()
    {
      var index := FindPhoneIndex(raw);
      if index == -1 {
        return Raised(ValueError(RecordSpec.NotFoundMessage(raw)));
      }
      phones := phones[..index] + phones[index + 1..];
      outcome := Done;
    }
  }

  class AddressBook {
    var data: map<string, Record>

    /** Every record is filed under its own name. */
    ghost predicate Valid()
      reads this
    {
      forall key :: key in data ==> data[key].GetName() == key
    }

    constructor ()
      ensures Valid()
      ensures data == map[]
    {
      data := map[];
    }

    /** `add_record`: files `record` under its name, replacing any record already there. */
    method AddRecord(record: Record)
      modifies this
      ensures data == old(data)[record.GetName() := record]
      ensures old(Valid()) ==> Valid()
    {
      data := data[record.GetName() := record];
    }

    /** `find`: the record filed under `name`, or `None`. */
    method Find(name: string) returns (found: Option<Record>)
      ensures found.None? <==> name !in data
      ensures found.Some? ==> name in data && found.value == data[name]
      ensures Valid() && found.Some? ==> found.value.GetName() == name
    {
      if name !in data {
        return None;
      }
      return Some(data[name]);
    }

    /** `delete`: removes the entry for `name` if there is one; otherwise nothing happens. */
    method Delete(name: string)
      modifies this
      ensures data == old(data) - {name}
      ensures old(Valid()) ==> Valid()
    {
      if name in data {
        data := data - {name};
      }
    }
  }

  /**
   * The program's own example session: John gets two phones, Jane one; John's
   * first phone is edited, his second one looked up, and Jane is deleted.
   */
  method ExampleSession() returns (rendered: string, found: Option<Phone>, janeAfterDelete: Option<Record>)
    ensures rendered == "Contact name: John, phones: 1112223333; 5555555555"
    ensures found == Some(Phone("5555555555"))
    ensures janeAfterDelete == None
  {
    var book := new AddressBook();

    var johnResult := Record.Create("John");
    var john := johnResult.value;
    var _ := john.AddPhone("1234567890");
    var _ := john.AddPhone("5555555555");
    book.AddRecord(john);

    var janeResult := Record.Create("Jane");
    var jane := janeResult.value;
    var _ := jane.AddPhone("9876543210");
    book.AddRecord(jane);

    var johnFound := book.Find("John");
    var johnAgain := johnFound.value;
    assert johnAgain == john && john.phones == [Phone("1234567890"), Phone("5555555555")];
    assert RecordSpec.IndexOf(john.phones, "1234567890") == 0;
    var _ := johnAgain.EditPhone("1234567890", "1112223333");
    assert john.phones == [Phone("1112223333"), Phone("5555555555")];
    RecordSpec.RenderExample();
    rendered := johnAgain.ToString();

    found := johnAgain.FindPhone("5555555555");

    book.Delete("Jane");
    janeAfterDelete := book.Find("Jane");
  }
}

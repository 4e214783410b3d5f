# Contact book data model in Dafny

This project models the in-memory data model of a small command-line contact
book (`main.py`). It has three parts:

- the validated field types `Name` (at least 3 characters) and `Phone` (at
  least 10 characters);
- `Record`, which holds a name and an ordered phone list that it changes in
  place: append, first-match lookup by value, replacement of the first match,
  deletion of the first match, and rendering as a string;
- `AddressBook`, a dictionary from a contact's name to its record: add (last
  write wins), find (`None` when absent) and delete (no-op when absent).

Files:

- `fields.dfy` (module `Fields`): the `ValueError` exception as an `Error`
  value, `Result`/`Outcome`/`Option`, the `Name` and `Phone` values and their
  checks. The error messages are the program's own strings, typos included.
- `record_spec.dfy` (module `RecordSpec`): each phone-list operation as a
  function from the list before the call to the list after it, or the error
  it raises. The lemmas about these functions live here too: inverses,
  first-match behaviour after an append, rendering.
- `contacts.dfy` (module `Contacts`): class `Record`, with `const name` and
  `var phones: seq<Phone>`, and class `AddressBook`, with
  `var data: map<string, Record>`. The methods change these fields in place.
  Their `ensures` tie the new state and the returned outcome to the
  `RecordSpec` functions. `find_phone` and `find_phone_index` are scanning
  loops with early exit, as in the source. The program's own example session
  is `ExampleSession`.

A raised exception is modelled as a returned `Raised(ValueError(msg))` (or
`Err(...)`), and a successful call as `Done` (or `Ok(...)`). On the error
path the state is proved unchanged.

Behaviour of `main.py` worth noting:

- A phone is accepted when it has 10 or more characters (main.py:20); the
  length is a lower bound only.
- `add_phone` appends without looking for an equal number, so duplicates are
  kept (main.py:29-31).
- A record has a name and phones only; there is no birthday field.
- The rendering reads `phones:` in lower case (main.py:60).
- `edit_phone` looks up the old number before it builds `Phone(new)`, so a
  missing old number is reported even when the new one is also too short
  (main.py:46-50).

## Model

| member | source | states |
|---|---|---|
| Fields.MakeName | main.py:11-16 | Building a name raises `ValueError` exactly when the string has fewer than 3 characters; otherwise the stored value is the string unchanged |
| Fields.MakePhone | main.py:18-22 | Building a phone raises `ValueError` exactly when the string has fewer than 10 characters; longer strings are accepted and stored unchanged |
| Fields.Name.ToString | main.py:8-9 | `Field.__str__` of a name returns the stored value unchanged, so building a name from it gives the same valid name back |
| Fields.Phone.ToString | main.py:8-9 | `Field.__str__` of a phone returns the stored value unchanged, so building a phone from it gives the same valid phone back |
| RecordSpec.NotFoundMessage | main.py:48 | The "not found" message raised at lines 48 and 55 is exactly "Phone number ", then the missing number, then " not found in this contact" |
| RecordSpec.IndexOf | main.py:39-43 | The result is -1 exactly when no entry has the value; otherwise it is an entry with that value and no earlier entry has it |
| RecordSpec.AddPhone | main.py:29-31 | A valid number is appended: the old list is a prefix and the new phone is last, duplicates allowed; a short number raises the phone error |
| RecordSpec.EditPhone | main.py:45-50 | A missing old number raises "not found"; otherwise a short new number raises; otherwise only the first match is replaced, the length and all other entries unchanged |
| RecordSpec.RemovePhone | main.py:52-57 | A missing number raises "not found"; otherwise the first match is deleted, the length drops by one and the other entries keep their order |
| RecordSpec.IndexOfAppend | main.py:29-43 | After an append, an earlier first match stays where it was; the new phone becomes the first match only when there was none |
| RecordSpec.AddThenRemove | main.py:29-57 | Removing a number that was just appended to a list not holding it restores the list |
| RecordSpec.EditThenRevert | main.py:45-50 | Editing old to new and then new back to old restores the list, provided new does not occur before the edited position |
| RecordSpec.RemoveTakesOneCopy | main.py:52-57 | Removal takes exactly one copy of the number out of the list's multiset |
| RecordSpec.JoinAppend | main.py:60 | `'; '.join` (function `Join`) with one more part appends the separator and the part; with no earlier parts, just the part |
| RecordSpec.Render | main.py:59-60 | The rendering starts with "Contact name: {name}, phones: "; a record without phones renders as exactly that |
| RecordSpec.RenderTwo | main.py:59-60 | A record with any two phones renders as the header, the first number, "; " and the second number |
| RecordSpec.RenderAfterAdd | main.py:29-60 | After `add_phone`, the rendering grows by "; " and the number (just the number when the list was empty) |
| RecordSpec.RenderExample | main.py:59-60 | John's record with phones 1112223333 and 5555555555 renders as "Contact name: John, phones: 1112223333; 5555555555" |
| Contacts.Record.constructor | main.py:25-27 | A record built from a valid name has that name and no phones |
| Contacts.Record.Create | main.py:25-27 | `Record(name)` raises exactly when the name is too short; otherwise a fresh valid record with that name and no phones |
| Contacts.Record.ToString | main.py:59-60 | The rendering of the record starts with "Contact name: " followed by `get_name()` and ", phones: "; with no phones that is the whole string |
| Contacts.Record.GetName | main.py:62-63 | The returned key rebuilds the record's own validated name |
| Contacts.Record.AddPhone | main.py:29-31 | The new list and the outcome are those of `RecordSpec.AddPhone`; on error the list is unchanged; validity is kept |
| Contacts.Record.FindPhone | main.py:33-37 | The scan returns `None` exactly when `find_phone_index` would give -1, else the entry at that index, whose value is the number asked for |
| Contacts.Record.FindPhoneIndex | main.py:39-43 | The scan returns the first index holding the number, or -1 |
| Contacts.Record.EditPhone | main.py:45-50 | The new list and the outcome are those of `RecordSpec.EditPhone`; on either error the list is unchanged; validity is kept |
| Contacts.Record.RemovePhone | main.py:52-57 | The new list and the outcome are those of `RecordSpec.RemovePhone`; on error the list is unchanged; validity is kept |
| Contacts.AddressBook.constructor | main.py:67 | A new book is empty |
| Contacts.AddressBook.AddRecord | main.py:68-71 | The map is updated at the record's name (last write wins), all other keys unchanged; every record stays filed under its own name |
| Contacts.AddressBook.Find | main.py:73-76 | Returns `None` exactly when the name is absent, else the record stored under it, whose name is the key |
| Contacts.AddressBook.Delete | main.py:78-80 | The key is removed if present and nothing else changes; an absent key is not an error |
| Contacts.ExampleSession | main.py:84-116 | The program's example session renders John as "Contact name: John, phones: 1112223333; 5555555555", finds 5555555555, and Jane is absent after deletion |

## Left out

- The `isinstance` check in `add_record` (main.py:69-70) is not modelled. Static typing means only a `Record` can be passed.
- The `UserDict` inheritance (main.py:67) is reduced to one `map` field. Other dictionary methods and iteration over the book are not modelled.
- The printing in the example script (main.py:84-116) is not modelled. Its expected outputs are the postconditions of `ExampleSession`.
- Object identity of the phone that `find_phone` returns is not modelled: the model returns a value equal to the stored entry. Python returns the stored `Phone` object itself; no code in `main.py` depends on that identity.
- The `Field.required` class attribute (main.py:4, main.py:12) is not modelled, because nothing reads it.
- Python's dynamic typing is not modelled: `len` is applied to a string here, whereas Python accepts any sized value.

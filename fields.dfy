/**
 * The validated value types of the contact book: a `Field` stores one string
 * and renders as that string; `Name` and `Phone` are the two kinds of field,
 * each with a length check made when it is built. Building one that fails its
 * check raises a `ValueError`, modelled here as an `Err` result.
 */
module Fields {

  /** The only exception the core raises, with its human-readable message. */
  datatype Error = ValueError(message: string)

  /** The value of a call that either returns or raises. */
  datatype Result<T> = Ok(value: T) | Err(error: Error)

  /** The value of a call that returns nothing or raises. */
  datatype Outcome = Done | Raised(error: Error)

  /** Python's `None` or a value. */
  datatype Option<T> = None | Some(value: T)

  /** Shortest accepted name, and the message raised for a shorter one (the typos are the program's). */
  const NameMinLength: nat := 3
  const NameTooShort: string := "Name lenght should has min 3 symbools"

  /** Shortest accepted phone: a lower bound only, longer strings are accepted. */
  const PhoneMinLength: nat := 10
  const PhoneTooShort: string := "Phone lenght should has 10 symbools"

  /** A contact's name; `value` is the string it was built from. */
  datatype Name = Name(value: string) {
    /** `Field.__str__`: the stored string, unchanged, so a valid name is rebuilt from it. */
    function ToString(): (r: string)
      ensures ValidName(this) ==> MakeName(r) == Ok(this)
    {
      value
    }
  }

  /** One phone number; `value` is the string it was built from. */
  datatype Phone = Phone(value: string) {
    /** `Field.__str__`: the stored string, unchanged, so a valid phone is rebuilt from it. */
    function ToString(): (r: string)
      ensures ValidPhone(this) ==> MakePhone(r) == Ok(this)
    {
      value
    }
  }

  ghost predicate ValidName(n: Name) { |n.value| >= NameMinLength }

  ghost predicate ValidPhone(p: Phone) { |p.value| >= PhoneMinLength }

  /** `Name(s)`: raises exactly when `s` has fewer than 3 characters, else keeps `s` as it is. */
  function MakeName(s: string): (r: Result<Name>)
    ensures r.Ok? <==> |s| >= NameMinLength
    ensures r.Ok? ==> r.value.value == s && ValidName(r.value)
    ensures r.Err? ==> r.error == ValueError(NameTooShort)
  {
    if |s| < NameMinLength then Err(ValueError(NameTooShort)) else Ok(Name(s))
  }

  /** `Phone(s)`: raises exactly when `s` has fewer than 10 characters, else keeps `s` as it is. */
  function MakePhone(s: string): (r: Result<Phone>)
    ensures r.Ok? <==> |s| >= PhoneMinLength
    ensures r.Ok? ==> r.value.value == s && ValidPhone(r.value)
    ensures r.Err? ==> r.error == ValueError(PhoneTooShort)
  {
    if |s| < PhoneMinLength then Err(ValueError(PhoneTooShort)) else Ok(Phone(s))
  }
}

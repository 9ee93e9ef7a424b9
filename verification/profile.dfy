/**
 The records the profile form and its mock server exchange
 (src/index.tsx:6-21): the profile itself, one field error, and the
 error set whose keys are restricted to the three text fields.
 */
module Profile {

  /** An optional value; `None` stands for an absent property. */
  datatype Option<+T> = None | Some(value: T)

  /** The values held by the form and sent to the server. */
  datatype ProfileRecord = ProfileRecord(
    firstName: string,
    lastName: string,
    phoneNumber: string,
    receiveNewsletter: bool
  )

  /** A message attached to one field. */
  datatype FieldError = FieldError(message: string)

  /** The keys an error set may carry; `receiveNewsletter` is never one of them. */
  datatype Field = FirstName | LastName | PhoneNumber

  /**
   An error set: one optional entry per text field. An absent entry
   means that the field has no error.
   */
  datatype ErrorSet = ErrorSet(
    firstName: Option<FieldError>,
    lastName: Option<FieldError>,
    phoneNumber: Option<FieldError>
  )

  /** The property name a field goes by, in records, events and error sets. */
  function FieldName(f: Field): string {
    match f
    case FirstName => "firstName"
    case LastName => "lastName"
    case PhoneNumber => "phoneNumber"
  }

  /** The property name of the one boolean field. */
  const NewsletterName: string := "receiveNewsletter"

  /** The current text of a field. */
  function TextValue(v: ProfileRecord, f: Field): string {
    match f
    case FirstName => v.firstName
    case LastName => v.lastName
    case PhoneNumber => v.phoneNumber
  }

  /** The entry an error set holds for a field, if any. */
  function Lookup(e: ErrorSet, f: Field): Option<FieldError> {
    match f
    case FirstName => e.firstName
    case LastName => e.lastName
    case PhoneNumber => e.phoneNumber
  }

  /** The keys present in an error set, as `Object.keys` lists them. */
  function ErrorKeys(e: ErrorSet): (keys: set<Field>)
    ensures forall f :: f in keys <==> Lookup(e, f).Some?
  {
    (if e.firstName.Some? then {FirstName} else {})
    + (if e.lastName.Some? then {LastName} else {})
    + (if e.phoneNumber.Some? then {PhoneNumber} else {})
  }

  /** An error set has no keys iff none of its three entries is present. */
  lemma ErrorKeysEmptyIff(e: ErrorSet)
    ensures ErrorKeys(e) == {} <==> e.firstName.None? && e.lastName.None? && e.phoneNumber.None?
  {
  }
}

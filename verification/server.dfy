/**
 The mock "server-side" validator `mockPost` (src/index.tsx:32-56).
 Its promise never rejects and resolves at once, so it is modelled as a
 function from the submitted profile to the resolved response.
 */
module MockServer {
  import opened Profile
  import opened PhoneDigits

  const MissingFirstName: string := "Missing first name!"
  const MissingLastName: string := "Missing last name!"
  const MissingPhone: string := "Missing phone number!"
  const PhoneNotEightDigits: string := "Phone number must be 8 digits"

  /**
   The resolved value `{ profile?, errors? }`: either property may be
   absent; the validator promises that exactly one is present.
   */
  datatype Response = Response(profile: Option<ProfileRecord>, errors: Option<ErrorSet>)

  /** The rule for a required text field: an empty string is falsy and gets the message. */
  function RequiredError(value: string, message: string): Option<FieldError> {
    if value == [] then Some(FieldError(message)) else None
  }

  /** The phone rule: missing, or not eight characters once the first non-digit is removed. */
  function PhoneError(phone: string): Option<FieldError> {
    if phone == [] then Some(FieldError(MissingPhone))
    else if |StripFirstNonDigit(phone)| != 8 then Some(FieldError(PhoneNotEightDigits))
    else None
  }

  /** The error set the three independent rules build up. */
  function Validate(p: ProfileRecord): (e: ErrorSet)
    ensures e.firstName.Some? <==> p.firstName == []
    ensures e.lastName.Some? <==> p.lastName == []
    ensures e.phoneNumber.Some? <==> !EightAfterStrip(p.phoneNumber)
    ensures e.firstName.Some? ==> e.firstName.value.message == MissingFirstName
    ensures e.lastName.Some? ==> e.lastName.value.message == MissingLastName
    ensures p.phoneNumber == [] ==> e.phoneNumber == Some(FieldError(MissingPhone))
    ensures p.phoneNumber != [] && e.phoneNumber.Some? ==> e.phoneNumber.value.message == PhoneNotEightDigits
  {
    StripLengthEightIff(p.phoneNumber);
    ErrorSet(
      RequiredError(p.firstName, MissingFirstName),
      RequiredError(p.lastName, MissingLastName),
      PhoneError(p.phoneNumber))
  }

  /** A profile every rule passes, stated without the validator's own steps. */
  predicate Acceptable(p: ProfileRecord) {
    p.firstName != [] && p.lastName != [] && EightAfterStrip(p.phoneNumber)
  }

  /** The validator: the errors if any rule fired, else the profile unchanged. */
  function MockPost(p: ProfileRecord): (r: Response)
    ensures r.profile.Some? != r.errors.Some?
    ensures r.profile.Some? <==> Acceptable(p)
    ensures r.profile.Some? ==> r.profile.value == p
    ensures r.errors.Some? ==> r.errors.value == Validate(p) && ErrorKeys(r.errors.value) != {}
  {
    var errors := Validate(p);
    ErrorKeysEmptyIff(errors);
    if ErrorKeys(errors) != {} then Response(None, Some(errors))
    else Response(Some(p), None)
  }

  /** The field a rule belongs to fails exactly when the validator reports an entry for it. */
  predicate RuleFails(p: ProfileRecord, f: Field) {
    match f
    case FirstName => p.firstName == []
    case LastName => p.lastName == []
    case PhoneNumber => !EightAfterStrip(p.phoneNumber)
  }

  /** Each reported key is a field whose own rule failed, and every failed rule is reported. */
  lemma ErrorKeysAreFailedRules(p: ProfileRecord, f: Field)
    ensures MockPost(p).errors.Some? ==> (f in ErrorKeys(MockPost(p).errors.value) <==> RuleFails(p, f))
    ensures MockPost(p).profile.Some? ==> !RuleFails(p, f)
  {
  }

  /** Each field's verdict depends on that field alone, never on the others. */
  lemma RulesIndependent(p: ProfileRecord, q: ProfileRecord, f: Field)
    requires TextValue(p, f) == TextValue(q, f)
    ensures Lookup(Validate(p), f) == Lookup(Validate(q), f)
  {
  }

  /** The newsletter flag is never validated: changing it changes no error and no verdict. */
  lemma NewsletterNeverValidated(p: ProfileRecord, b: bool)
    ensures MockPost(p.(receiveNewsletter := b)).errors == MockPost(p).errors
    ensures MockPost(p.(receiveNewsletter := b)).profile.Some? == MockPost(p).profile.Some?
  {
  }

  /** Resubmitting an accepted profile is accepted again with the same response. */
  lemma ResubmitAccepted(p: ProfileRecord)
    requires MockPost(p).profile.Some?
    ensures MockPost(MockPost(p).profile.value) == MockPost(p)
  {
  }

  /** The sample phone numbers of the form and the quirk of the single removal. */
  lemma PhoneSamples()
    ensures PhoneError("99882233") == None
    ensures PhoneError("1234") == Some(FieldError(PhoneNotEightDigits))
    ensures PhoneError("") == Some(FieldError(MissingPhone))
    ensures PhoneError("1234-5678") == None
    ensures PhoneError("12 34 5678") == Some(FieldError(PhoneNotEightDigits))
    ensures PhoneError("abcdefghi") == None
  {
  }
}

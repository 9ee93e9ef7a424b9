/**
 The form controller `ProfileForm` (src/index.tsx:78-117): its state is
 the current values and the current, nullable, error set; change events
 and submit events are pure transitions of that state. TextInput's
 error line (src/index.tsx:68-69) is a predicate over the error set.
 */
module ProfileForm {
  import opened Profile
  import opened MockServer

  /** The two pieces of component state; `None` errors is the `null` of `setErrors(null)`. */
  datatype FormState = FormState(values: ProfileRecord, errors: Option<ErrorSet>)

  /** The fields of a change event's target that the handler reads. */
  datatype ChangeEvent = ChangeEvent(inputType: string, name: string, value: string, checked: bool)

  /** The state at mount: empty strings, newsletter unchecked, no errors. */
  function InitialState(): (s: FormState)
    ensures forall f :: TextValue(s.values, f) == [] && !ShowsError(s.errors, f)
    ensures !s.values.receiveNewsletter
  {
    FormState(ProfileRecord("", "", "", false), None)
  }

  predicate IsTextEvent(ev: ChangeEvent) {
    ev.inputType == "text" || ev.inputType == "tel"
  }

  predicate IsCheckboxEvent(ev: ChangeEvent) {
    ev.inputType == "checkbox"
  }

  /** `{ ...values, [name]: value }` for the text fields; any other name leaves the four fields as they were. */
  function SetText(v: ProfileRecord, name: string, value: string): ProfileRecord {
    if name == FieldName(FirstName) then v.(firstName := value)
    else if name == FieldName(LastName) then v.(lastName := value)
    else if name == FieldName(PhoneNumber) then v.(phoneNumber := value)
    else v
  }

  /** `{ ...values, [name]: checked }` for the boolean field. */
  function SetFlag(v: ProfileRecord, name: string, checked: bool): ProfileRecord {
    if name == NewsletterName then v.(receiveNewsletter := checked) else v
  }

  /**
   A change event: a text or tel event replaces the named text field, a
   checkbox event replaces the named flag, and nothing else changes.
   */
  function OnInputChange(s: FormState, ev: ChangeEvent): (t: FormState)
    ensures t.errors == s.errors
    ensures forall f :: TextValue(t.values, f)
                        == (if IsTextEvent(ev) && ev.name == FieldName(f) then ev.value else TextValue(s.values, f))
    ensures t.values.receiveNewsletter ==
      (if IsCheckboxEvent(ev) && ev.name == NewsletterName then ev.checked else s.values.receiveNewsletter)
    ensures !IsTextEvent(ev) && !IsCheckboxEvent(ev) ==> t == s
  {
    if IsTextEvent(ev) then s.(values := SetText(s.values, ev.name, ev.value))
    else if IsCheckboxEvent(ev) then s.(values := SetFlag(s.values, ev.name, ev.checked))
    else s
  }

  /**
   A submit: errors are cleared, the current values are posted, and the
   response's errors or profile are applied.
   */
  function OnSubmit(s: FormState): (t: FormState)
    ensures t.values == s.values
    ensures t.errors.None? <==> Acceptable(s.values)
    ensures t.errors.Some? ==> t.errors.value == Validate(s.values)
  {
    var cleared := s.(errors := None);
    var response := MockPost(cleared.values);
    if response.errors.Some? then cleared.(errors := response.errors)
    else if response.profile.Some? then cleared.(values := response.profile.value)
    else cleared
  }

  /** TextInput renders an error line for a field iff the error set has that key. */
  predicate ShowsError(errors: Option<ErrorSet>, f: Field) {
    errors.Some? && f in ErrorKeys(errors.value)
  }

  /** The text of the error line TextInput renders for a field, if it renders one. */
  function ErrorLine(errors: Option<ErrorSet>, f: Field): (line: Option<string>)
    ensures line.Some? <==> ShowsError(errors, f)
    ensures line.Some? ==> Some(FieldError(line.value)) == Lookup(errors.value, f)
  {
    if errors.Some? && Lookup(errors.value, f).Some? then Some(Lookup(errors.value, f).value.message)
    else None
  }

  /** After a submit, a field shows an error exactly when its own rule failed on the submitted values. */
  lemma SubmitShowsFailedRules(s: FormState, f: Field)
    ensures ShowsError(OnSubmit(s).errors, f) <==> RuleFails(s.values, f)
  {
  }

  /** Submitting twice in a row gives the same state as submitting once. */
  lemma SubmitIdempotent(s: FormState)
    ensures OnSubmit(OnSubmit(s)) == OnSubmit(s)
  {
  }

  /** Edits leave the error lines of the last submit on display, stale or not. */
  lemma EditKeepsErrorLines(s: FormState, ev: ChangeEvent, f: Field)
    ensures ErrorLine(OnInputChange(s, ev).errors, f) == ErrorLine(s.errors, f)
  {
  }

  /** A text event followed by reading its own field gives back the typed value. */
  lemma EditThenRead(s: FormState, f: Field, inputType: string, value: string, checked: bool)
    requires inputType == "text" || inputType == "tel"
    ensures TextValue(OnInputChange(s, ChangeEvent(inputType, FieldName(f), value, checked)).values, f) == value
    ensures OnInputChange(s, ChangeEvent(inputType, FieldName(f), value, checked)).values.receiveNewsletter
      == s.values.receiveNewsletter
  {
  }

  /**
   The scenario of a failed submit, an edit, and a successful resubmit:
   first only the first name is reported, the edit keeps that report on
   display, and the final submit clears it and keeps the edited values.
   */
  lemma FailEditResubmitScenario()
    ensures var s0 := FormState(ProfileRecord("", "Lee", "99882233", false), None);
      var s1 := OnSubmit(s0);
      var s2 := OnInputChange(s1, ChangeEvent("text", "firstName", "Ann", false));
      var s3 := OnSubmit(s2);
      && s1.values == s0.values
      && s1.errors == Some(ErrorSet(Some(FieldError(MissingFirstName)), None, None))
      && s2.errors == s1.errors
      && s2.values == ProfileRecord("Ann", "Lee", "99882233", false)
      && s3.errors == None
      && s3.values == s2.values
  {
  }
}

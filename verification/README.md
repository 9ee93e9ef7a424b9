# Profile form with a mock validating server

A Dafny model of the logic in `src/index.tsx` of a small React profile
form. The form holds four values (first name, last name, phone number
and a newsletter flag) and an optional set of field errors. Submitting
posts the values to an in-process mock server, `mockPost`. The server
either returns error messages keyed by field or returns the profile
unchanged. The model has four modules:

- `Profile` (`profile.dfy`): the records of lines 6-21. These are
  `ProfileRecord`, `FieldError` and `ErrorSet`. An `ErrorSet` has one
  optional entry per text field, so its keys can only be `firstName`,
  `lastName` and `phoneNumber`; the type enforces this.
- `PhoneDigits` (`phone.dfy`): the `replace(/[^0-9]/, "")` call of line 44.
  The regular expression has no `g` flag, so only the *first* non-digit
  is removed. `StripFirstNonDigit` models exactly that.
  `EightAfterStrip` restates the accepted shape without the strip:
  eight digits, or nine characters of which at least one is not a digit.
  `DigitsOnly` removes every non-digit. It serves only as a comparison:
  the two agree exactly when the phone has at most one non-digit.
- `MockServer` (`server.dfy`): `mockPost` as a total function. Its
  response is `{ profile?, errors? }`, a record of two optional parts,
  and the contract proves that exactly one of them is present.
- `ProfileForm` (`form.dfy`): the component state `(values, errors)`.
  `onInputChange` and `onSubmit` are pure transitions of it. TextInput's
  error-line rule is a predicate over the error set.

The regular expression has no `g` flag, so only the first non-digit is
removed, not all of them. The model follows the code, so `"1234-5678"`
and `"abcdefghi"` pass, while `"12 34 5678"` fails
(`MockServer.PhoneSamples`).

## Model

| member | source | states |
|---|---|---|
| Profile.ErrorKeys | src/index.tsx:50 | the key set lists exactly the fields whose entry is present |
| Profile.ErrorKeysEmptyIff | src/index.tsx:50 | `Object.keys(errors).length > 0` fails exactly when none of the three entries is present |
| PhoneDigits.StripFirstNonDigit | src/index.tsx:44 | an all-digit phone is left unchanged; otherwise the result is exactly one character shorter |
| PhoneDigits.StripRemovesFirstNonDigit | src/index.tsx:44 | the result is the text before the first non-digit joined to the text after it |
| PhoneDigits.FindFirstNonDigit | src/index.tsx:44 | finds the first position holding a non-digit, or reports that every character is a digit |
| PhoneDigits.StripByIndex | src/index.tsx:44 | removing the character at the position found by the search equals the single-removal strip |
| PhoneDigits.StripLengthEightIff | src/index.tsx:44 | the stripped phone has length 8 iff it is eight digits, or nine characters that include a non-digit |
| PhoneDigits.DigitsOnlyAppend | src/index.tsx:44 | removing every non-digit from a concatenation gives the concatenation of the two results, so the reference removal keeps the digits in order |
| PhoneDigits.StripFirstMatchesDigitsOnlyIff | src/index.tsx:44 | removing only the first non-digit equals removing all of them iff the phone has at most one non-digit |
| MockServer.Validate | src/index.tsx:36-48 | each field has an entry iff its own rule fails; the messages are "Missing first name!", "Missing last name!" and "Missing phone number!"; the 8-digit message appears only for a non-empty phone |
| MockServer.MockPost | src/index.tsx:32-56 | exactly one of profile and errors is present; the profile is present iff every rule passes, and then it equals the input, newsletter flag included; otherwise the errors are the non-empty rule results |
| MockServer.ErrorKeysAreFailedRules | src/index.tsx:39-55 | a field is a key of the returned errors iff its rule failed; an accepted profile fails no rule |
| MockServer.RulesIndependent | src/index.tsx:39-47 | a field's entry depends on that field's value alone |
| MockServer.NewsletterNeverValidated | src/index.tsx:36-48 | changing the newsletter flag changes neither the errors nor whether the profile is accepted |
| MockServer.ResubmitAccepted | src/index.tsx:50-55 | posting the returned profile of an accepted post again yields the same response |
| MockServer.PhoneSamples | src/index.tsx:42-47 | "99882233" and "1234-5678" pass; "1234" and "12 34 5678" get the 8-digit message; "" gets the missing message; "abcdefghi" passes |
| ProfileForm.InitialState | src/index.tsx:79-85 | at mount every text field is empty, the flag is unchecked and no field shows an error |
| ProfileForm.OnInputChange | src/index.tsx:89-97 | a text/tel event replaces only the named text field; a checkbox event replaces only the named flag; errors never change; any other event type changes nothing |
| ProfileForm.EditThenRead | src/index.tsx:89-97 | after a text event on a field, that field reads back the typed value and the flag is unchanged |
| ProfileForm.EditKeepsErrorLines | src/index.tsx:89-97 | an edit keeps every error line of the last submit on display |
| ProfileForm.OnSubmit | src/index.tsx:99-117 | values are unchanged after a submit; stale errors are cleared exactly when the values pass every rule; otherwise they are replaced by the validator's errors |
| ProfileForm.SubmitIdempotent | src/index.tsx:99-117 | submitting twice gives the same state as submitting once |
| ProfileForm.ErrorLine | src/index.tsx:68-69 | a field has an error line iff the error set has its key, and the line is that entry's message |
| ProfileForm.SubmitShowsFailedRules | src/index.tsx:99-117 | after a submit, a field shows an error iff its own rule failed on the submitted values |
| ProfileForm.FailEditResubmitScenario | src/index.tsx:99-117 | a submit with an empty first name reports only that field; the edit keeps the report; a valid resubmit clears it and keeps the values |

## Left out

- The asynchronous Promise and the unguarded second submit while one is pending: scheduling and concurrency. The post is modelled as a synchronous function.
- Validator determinism has no lemma of its own. `MockPost` is a Dafny function, so equal inputs give equal results by construction. `ResubmitAccepted` and `SubmitIdempotent` state the resubmission properties.
- `console.log` calls (lines 38 and 103): output only.
- React rendering, JSX markup, `ReactDOM.render` and the stylesheet import: presentation, with nothing to state beyond the error-line rule.
- The browser's `required` and `pattern="[0-9]{8}"` attributes: the browser enforces them, not the program's own code.
- ProfileForm.OnInputChange: a text event naming `receiveNewsletter`, or a checkbox event naming a text field, would store a value of the wrong type in JavaScript. The rendered form cannot produce such events, so the model leaves the values unchanged. An event whose name is not a field adds only an extra property, which the model drops; submit never reads that property.
- Strings are sequences of characters. UTF-16 code units behind JavaScript's `.length` are not modelled.

# User list form — a Dafny model

This project models the logic of the single React component `App` of a
user-settings page. The page keeps an ordered list of user records in
memory and shows it as a table with a per-row "Remove User" action. An
"Add New User" dialog collects nine fields. The form's field rules decide
whether a submission is accepted. An accepted submission is appended to
the list with a generated id `"UID" + n`, the form is cleared and the
dialog closes.

The model has five parts:

- `Numerals` (`numerals.dfy`): decimal digit strings, the decimal form of a
  number and its value.
- `Validation` (`validation.dfy`): the nine fields and the rules declared in
  each `register(...)` call. Every field is required. The email must match
  `^[a-zA-Z0-9._%+-]+@[a-zA-Z0-9.-]+\.[a-zA-Z]{2,4}$`, the mobile number
  `^[0-9]{7,15}$`, and the payment limit may not be below 0. The email
  decision procedure is proved equal to the pattern read as a language.
- `UserIds` (`user_ids.dfy`): `generateUserId`, with the `Math.random`
  draw as a parameter.
- `UserList` (`user_list.dfy`): the record (`{ ...data, userId }`) and the
  index filter used by `handleDelete`.
- `Page` (`app.dfy`): class `App` with the component state `openModal`,
  `tableData` and the field messages, and one method per event handler.
  Its invariant `Valid()` says every listed record passed the rules and
  has an id of the generator's form.

`scenarios.dfy` walks the handlers through concrete inputs: add one record,
delete out of range, delete it, and a rejected submit.

The code, not the usual expectations of such a form, decides what the
model does:

- Submitted values are stored exactly as entered. Nothing is trimmed, and
  the payment limit is not converted to a number.
- "Required" rejects only the empty string. Whitespace-only text passes.
- `userRole` and `supervisor` have only the required rule. Any non-empty
  text passes, not just the `role1..3` / `sup1..3` options of the selects.
- Each field shows the message of its first failing rule. The required
  rule is checked before the pattern or the minimum.

## Model

| member | source | states |
|---|---|---|
| `Numerals.DecimalString` | src/App.js:45 | The decimal form of a number is non-empty, all digits, without a leading zero, and one digit long exactly below 10 |
| `Numerals.DecimalStringValue` | src/App.js:45 | Reading the decimal form back gives the number |
| `Numerals.DecimalStringLength` | src/App.js:45 | The decimal form has at most four digits exactly when the number is below 10000 |
| `Numerals.DigitsValueZero` | src/App.js:168-171 | A digit string is worth 0 exactly when every digit is '0' |
| `Validation.FieldError` | src/App.js:70-184 | An empty field reports its own required message; otherwise the email reports "Invalid email address" exactly outside the email pattern, the mobile number "Invalid mobile number" exactly when not 7 to 15 ASCII digits, the payment limit "Payment limit must be a positive number" exactly when below 0, and the required-only fields nothing |
| `Validation.IsValidForm` | src/App.js:65 | The submit gate passes exactly when no field reports a message |
| `Validation.FormErrors` | src/App.js:65-184 | The messages of a submit attempt hold an entry for a field exactly when that field's rules fail, with that field's message |
| `Validation.EmailWithTldSound` | src/App.js:97 | Every string the email decision procedure accepts for a given final-label length matches the email pattern |
| `Validation.IsValidEmailComplete` | src/App.js:97 | Every string matching the email pattern is accepted by the decision procedure |
| `Validation.IsValidEmailCorrect` | src/App.js:97 | The email decision procedure accepts exactly the strings of the pattern |
| `Validation.BelowMinimumBySign` | src/App.js:168-171 | Integer text is below the minimum 0 exactly when it has a '-' sign and a non-zero digit, so "0" and "-0" pass |
| `Validation.ValidFormRules` | src/App.js:65-184 | The form is accepted exactly when all nine fields are non-empty, the email and mobile number match their patterns, and the payment limit is not below 0 |
| `Validation.EmptyFieldIsRequired` | src/App.js:70-184 | An empty field reports its own "… is required" message and the form is rejected |
| `Validation.EmailRule` | src/App.js:94-99 | A non-empty email reports "Invalid email address" exactly when it does not match the pattern |
| `Validation.MobileRule` | src/App.js:149-154 | A non-empty mobile number reports "Invalid mobile number" exactly when it is not 7 to 15 ASCII digits |
| `Validation.PaymentLimitRule` | src/App.js:166-172 | A payment limit in integer form reports "Payment limit must be a positive number" exactly when its value is below 0 |
| `Validation.RulesArePerField` | src/App.js:70-184 | A field's message depends only on that field's text; no rule looks across fields |
| `Validation.OtherFieldsOnlyRequired` | src/App.js:70-191 | The six fields other than email, mobile number and payment limit fail exactly when empty |
| `UserIds.Roll` | src/App.js:45 | `Math.floor(x * 10000)` for a draw x in [0, 1) is the integer part of x * 10000 and lies in [0, 10000) |
| `UserIds.ParseUserId` | src/App.js:44-46 | The inverse of the generator: an id carries a number exactly when it has the generator's form, and then it is "UID" plus the decimal form of that number, which is below 10000 |
| `UserIds.GenerateUserId` | src/App.js:44-46 | A generated id has the generator's form ("UID" and one to four digits without a leading zero) and parses back to the rolled number |
| `UserList.NewUser` | src/App.js:28-31 | The stored record carries the submitted values unaltered and the given id |
| `UserList.FilterIndex` | src/App.js:38-40 | Filtering out an index in range gives the list without that element, the others in their order; filtering out an index outside the list leaves it unchanged |
| `UserList.FilterIndexPositions` | src/App.js:38-40 | After removal at an index in range the list is one shorter; earlier records keep their positions and later ones move down by one |
| `UserList.FilterIndexSubset` | src/App.js:39 | Removal never introduces a record that was not in the list |
| `Page.App.constructor` | src/App.js:17-18 | The page starts with the dialog closed, an empty list and no messages |
| `Page.App.OpenAddDialog` | src/App.js:53 | "+ Add New User" opens the dialog and changes nothing else |
| `Page.App.OnHide` | src/App.js:60 | The dialog's hide action closes it and changes nothing else |
| `Page.App.Cancel` | src/App.js:197 | Cancel closes the dialog and changes nothing else |
| `Page.App.OnSubmit` | src/App.js:27-35 | A valid submission is appended as the last record with a generated id, earlier records unchanged; messages are cleared and the dialog closes; the invariant is kept |
| `Page.App.HandleSubmit` | src/App.js:65 | The submit handler runs exactly when every rule declared in the `register` calls passes; a rejected submit shows the messages and leaves the list and the dialog unchanged |
| `Page.App.HandleDelete` | src/App.js:38-41 | Delete replaces the list by its index filter, leaving the dialog and messages unchanged and keeping the invariant |
| `Scenarios.AnnIsValid` | src/App.js:70-184 | A complete, well-formed sample submission passes every rule |
| `Scenarios.RuleExamples` | src/App.js:97-171 | "not-an-email" fails the email pattern; "123", a 17-digit number and "12a4567" fail the mobile pattern; "-5" is below the minimum and "0" and "-0" are not |

## Left out

- JSX rendering, Bootstrap styling and the table markup are presentation.
- The unused imports (`axios`, `useEffect`, `Spinner`, `Alert`) have no effect.
- react-hook-form internals are not modelled. `reset()` is modelled only as clearing the shown field messages. The input values it also clears live inside the library.
- `Math.random` is a parameter: a real number in [0, 1). Floating-point rounding of `x * 10000` is not modelled. Ids are not claimed to be distinct, because nothing in the code checks that.
- The browser's own checks of the inputs are not modelled. The email input has `type="email"` and the form does not turn native validation off, so the browser may stop a submit that the `register` rules accept (for example "a@b..com") and strips surrounding whitespace from the email. `HandleSubmit` states what the `register` rules decide, not these browser checks.
- `expiryBy` is checked only for being non-empty. The date input's parsing is browser behaviour.
- PaymentLimitRule: the minimum rule is modelled only for integer text (an optional '-' and digits). Fractional and exponent forms, which the number input also accepts, are treated as passing, because the model has no floating-point numbers.
- The order in which the form reports messages and focuses fields is library behaviour and is not modelled; only the set of messages is.

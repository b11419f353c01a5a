# Patient-intake form: a verified model of its interaction core

This project models the interaction logic of a browser patient-intake form, written in
Dafny. The form keeps an entry of name, age and attached file, validates it, and posts
it once to a submission endpoint. Around the entry it keeps a list of notifications
("alerts") that expire on timers, and an age dropdown with its own open/closed state.
The model covers the controller `HealthcareDashboard` in `src/components/Dashboard.jsx`
and the dropdown in `src/components/ui/select.jsx`.

- `wrappers.dfy` (`Wrappers`): `Option`.
- `text.dfy` (`Text`): JavaScript's `trim`, the `s || fallback` idiom on strings, and
  the decimal numerals of the age options.
- `alerts.dfy` (`Alerts`): alerts, removal by id (`filter`), and what the pending
  expiry timers leave behind.
- `select.dfy` (`Select`): the `Dropdown` class (the `open` flag), the selected-item
  mark and the trigger's label.
- `dashboard.dfy` (`Dashboard`): the entry, the validator, the failure message, the age
  options, and the `HealthcareDashboard` class. Its methods are the form's handlers. It
  also holds three end-to-end scenarios: an accepted submission, a submission the server
  rejects with "Duplicate record", and an empty submission. `NamedForm`,
  `FilledForm` and `SubmittedForm` build, step by step, the form they start from.

How the model treats the form's environment:

- Alert ids are clock readings (`Date.now()`). They are parameters, and nothing assumes
  they are fresh. Two alerts pushed in the same millisecond share an id, and dismissing
  one dismisses both (`EmptySubmissionScenario`).
- Every `setTimeout` uses the same 5000 ms delay, so the timers fire in the order they
  were scheduled. The pending timers are a field `timers`, oldest first. `Expire` fires
  the oldest one.
- `handleSubmit` waits twice: for `fetch` (`Dashboard.jsx:131`) and for
  `response.json()` (`Dashboard.jsx:136`). No state changes between the two waits, so
  one split suffices: `BeginSubmit` runs up to the request and `FinishSubmit` from the
  parsed reply on. Other events can happen in between, while the form is busy.
  `handleSubmit` itself does not check `isLoading`; the only guard is the submit button,
  which is disabled while busy (`Dashboard.jsx:340`). The model states that guard as
  `BeginSubmit`'s precondition `!isLoading`.
- The request's outcome is an input: `Ok`, `HttpError(error)` (the `error` field of the
  JSON body, if any), or `Thrown(message)`. `Thrown` also covers a body that is not JSON,
  because `response.json()` runs before the status check and throws, and a failed reply
  whose body is the JSON `null`, because reading `data.error` then throws.

Facts about the code that the model keeps:

- The age is kept as the picked option's text, `""` while unset. The options are the
  numerals of 1 to 100 (`age.toString()`), so a set age is always one of them; this is
  part of `Valid()`.
- The file entry is written in two places only: the accepted branch of the file handler
  (at most 5 MiB) and the reset after success. So an attached, and a posted, file is
  always within the limit; this is part of `Valid()`.
- A failed HTTP reply whose `error` field is absent or the empty string gets "Failed to
  submit patient data".
  The catch block's own fallback, "Failed to submit patient information. Please try
  again.", is reached only when the caught exception's message is empty.
- No code moves the step indicator forward, so `currentStep` is always 1. This is part of
  `Valid()`.

## Model

| member | source | states |
|---|---|---|
| `Text.TrimStart` | src/components/Dashboard.jsx:95 | the result is the longest suffix not starting with white space; everything dropped is white space |
| `Text.TrimEnd` | src/components/Dashboard.jsx:95 | the result is the longest prefix not ending with white space; everything dropped is white space |
| `Text.Trim` | src/components/Dashboard.jsx:95 | `trim` drops the leading then the trailing white space, and neither end of the result is white space |
| `Text.TrimEmptyIffBlank` | src/components/Dashboard.jsx:95 | the trimmed name is empty exactly when the name is all white space |
| `Text.OrElse` | src/components/Dashboard.jsx:139 | `value or fallback` on strings (here and at line 159) gives the value when it is non-empty and the fallback when it is empty |
| `Text.NatToString` | src/components/Dashboard.jsx:285 | an age's `toString()` is a non-empty string of decimal digits whose value (`DecimalValue`) is the age, with a leading `0` only for zero |
| `Alerts.WithoutId` | src/components/Dashboard.jsx:51-53 | removal keeps only alerts that were in the list and do not carry the id, and never grows the list |
| `Alerts.WithoutIdCount` | src/components/Dashboard.jsx:51-53 | removal drops every copy of every alert with the id and keeps every copy of every other alert |
| `Alerts.WithoutIdAppend` | src/components/Dashboard.jsx:51-53 | removal distributes over concatenation, so survivors keep their relative order |
| `Alerts.WithoutIdAbsent` | src/components/Dashboard.jsx:51-53 | removing an id that no alert carries leaves the list unchanged |
| `Alerts.WithoutIdIdempotent` | src/components/Dashboard.jsx:51-53 | removing the same id twice gives the same list as removing it once |
| `Alerts.RemoveAfterAdd` | src/components/Dashboard.jsx:41-53 | removing the id of the alert just added leaves the earlier alerts minus those sharing its id |
| `Alerts.AfterTimers` | src/components/Dashboard.jsx:44-47 | after the pending timers fire, every alert left was there before and carries no fired timer's id |
| `Alerts.TimersClearTransients` | src/components/Dashboard.jsx:44-48 | once all pending timers fire, no transient alert remains, and every alert whose id no timer carries is still there |
| `Select.Dropdown.constructor` | src/components/ui/select.jsx:7-8 | a dropdown starts closed |
| `Select.Dropdown.Trigger` | src/components/ui/select.jsx:19-25 | each trigger activation negates `open`, so two activations restore it |
| `Select.Dropdown.Content` | src/components/ui/select.jsx:49-52 | the item list is produced exactly while open, and nothing is produced while closed |
| `Select.Dropdown.ClickItem` | src/components/ui/select.jsx:70-78 | an item click reports exactly that item's value and leaves the dropdown closed |
| `Select.MarkedAtMostOnce` | src/components/ui/select.jsx:73 | over items with distinct values, no two items are marked as selected, and some item is marked exactly when the current value is among the items |
| `Select.DisplayedValue` | src/components/ui/select.jsx:39-44 | the trigger shows the value when it is non-empty and the placeholder otherwise |
| `Dashboard.Validate` | src/components/Dashboard.jsx:93-102 | "Name is required" appears iff the name is blank, and "Age is required" iff the age is empty; the list is empty iff both checks pass; with both, the name message comes first |
| `Dashboard.ValidationAlerts` | src/components/Dashboard.jsx:110-115 | one error alert per validation message, in order: alert i carries message i and the i-th clock reading |
| `Dashboard.ThrownMessage` | src/components/Dashboard.jsx:138-139 | the message thrown for a failed HTTP reply is the server's non-empty `error` field, else "Failed to submit patient data"; a thrown exception keeps its own message |
| `Dashboard.FailureDescription` | src/components/Dashboard.jsx:136-160 | the error alert's text is the server's non-empty `error` field, or "Failed to submit patient data"; for an exception, its non-empty message, or the generic fallback; never empty |
| `Dashboard.AgeOptions` | src/components/Dashboard.jsx:39 | there are 100 age options, and option i is the numeral of the age i + 1 |
| `Dashboard.AgeOptionsAreTheAges` | src/components/Dashboard.jsx:39 | a string is an age option exactly when it is the numeral of an age from 1 to 100 |
| `Dashboard.AgeMarkedExactlyOnce` | src/components/ui/select.jsx:70-73 | with age k picked, the item at position k - 1 is the only age item marked as selected |
| `Dashboard.FortyTwoIsAnAgeOption` | src/components/Dashboard.jsx:39 | "42", the value of the 42nd age item, is an age option |
| `Dashboard.SampleEntryIsValid` | src/components/Dashboard.jsx:93-102 | the entry {name "Jane", age "42"} passes validation, and its name is unchanged by `trim` |
| `Dashboard.HealthcareDashboard.constructor` | src/components/Dashboard.jsx:28-36 | the form starts with an empty entry, no alerts, no timers, not busy, no file name, on step 1, with the dropdown closed |
| `Dashboard.HealthcareDashboard.AddAlert` | src/components/Dashboard.jsx:41-49 | the alert, with the supplied id, is appended after the unchanged earlier alerts; an expiry timer is scheduled exactly when it is not persistent |
| `Dashboard.HealthcareDashboard.RemoveAlert` | src/components/Dashboard.jsx:51-53 | a dismissal filters the list by id and changes nothing else |
| `Dashboard.HealthcareDashboard.Expire` | src/components/Dashboard.jsx:45-47 | the oldest timer fires, leaves the pending timers, and removes the alerts carrying its id; every remaining transient alert still has a timer |
| `Dashboard.HealthcareDashboard.HandleInputChange` | src/components/Dashboard.jsx:55-61 | typing in the name input sets the entry's name and changes nothing else |
| `Dashboard.HealthcareDashboard.HandleAgeChange` | src/components/Dashboard.jsx:63-68 | picking an age option sets the entry's age to it and changes nothing else; the age stays an option |
| `Dashboard.HealthcareDashboard.HandleFileChange` | src/components/Dashboard.jsx:70-91 | without a file nothing changes; above 5,242,880 bytes only one "File too large" alert is added; otherwise the file and its name are set and one success alert is added |
| `Dashboard.HealthcareDashboard.SelectAge` | src/components/Dashboard.jsx:279-289 | picking an age closes the dropdown, sets only the entry's age, shows it on the trigger and clears the age error |
| `Dashboard.HealthcareDashboard.AddValidationAlerts` | src/components/Dashboard.jsx:110-115 | one error alert per validation message, in order, each stamped with its own clock reading, each with a timer |
| `Dashboard.HealthcareDashboard.BeginSubmit` | src/components/Dashboard.jsx:104-128 | with validation errors, sends nothing, pushes their alerts and leaves the entry, file name, step and busy flag unchanged; otherwise becomes busy and sends the trimmed non-blank name, the age (one of the age options) and the file (at most 5 MiB) |
| `Dashboard.HealthcareDashboard.FinishSubmit` | src/components/Dashboard.jsx:130-164 | success resets the entry, file name and step and adds one persistent success alert; any failure adds one error alert and keeps the entry; the form always ends not busy |

## Left out

- Dashboard.ThrownMessage: the server's `error` field is taken to be a string or absent.
  Other JSON values go through `||` before any conversion. A falsy one (`null`, `false`,
  `0`) acts as an absent field, `HttpError(None)`, and gets "Failed to submit patient
  data". A truthy one is converted with `String()`: a non-empty conversion (`42`, `{}`,
  `true`) acts as `HttpError(Some(...))` with that text, and an empty one (`[]`) reaches
  the catch block's fallback, as `Thrown("")` does.
- Dashboard.HealthcareDashboard.HandleInputChange: models only the name input, the one
  input wired to `handleInputChange` (`Dashboard.jsx:261-263`). The source's
  `[name]: value` would set whichever field the event's target names.
- Markup, styling, animations and icons are presentation only. This covers the JSX of
  `Dashboard.jsx` and most of `select.jsx`, including the step-indicator rendering.
- `src/components/ui/alert.jsx` is not part of this model. It only maps a variant to
  classes and an icon, and forwards a dismiss callback. The callback's effect is
  `RemoveAlert`.
- Building the `FormData` body and calling `fetch` and `response.json()` are network I/O.
  `BeginSubmit` returns the fields that would be posted, and the reply is the `Response`
  input of `FinishSubmit`.
- `setTimeout`'s real-time behaviour is left out. Only the firing order is modelled
  (`Expire`), not the 5000 ms delay.
- `Date.now()` is left out; its readings are parameters.
- `console.error` and the `document.getElementById('file').click()` call are side
  effects with no effect on the form's state.
- React batches state updates and re-renders between events. The model applies each
  handler's updates in order, as one step.
- A picked file is modelled by its name and size only. Its MIME type and contents play
  no part in the form's logic.
- The file input's `accept` filter only guides the browser's file picker and is not
  modelled.

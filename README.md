# Fahrplanauskunft: navigation-form validation and page decisions in Dafny

This project models the core of a small public-transport journey planner
page. The user types a start address, picks one stop from a result list,
chooses a date and a time, and presses a button. The page then opens a deep
link into an external timetable app, leading from the chosen stop to a fixed
destination.

Two parts of the program are modelled:

- **The form validation** (`src/utils/validate.js`):
  - the single-field checkers for address, date and time, each returning a
    verdict and a German message;
  - the navigation check, which builds a JavaScript error object one
    assignment at a time and then reads its key count and its first value.
- **The decisions of the page script** (`src/main.js`):
  - the blank-address guard in front of the stop search;
  - the update of the module-level destination id at start-up;
  - the single selection in the stop list;
  - the validation gate in front of the deep link, and the time formatting
    inside it.

Modules:

- `Wrappers`: `Option`.
- `JsString`: JavaScript string built-ins the code relies on.
  - `trim`, with the exact WhiteSpace and LineTerminator code points of the
    language standard;
  - `length`, counted in UTF-16 code units;
  - `replace` with a one-character pattern, which removes only the first
    occurrence.
- `JsObject`: a plain object used as a dictionary, for keys that are not
  array indices (such as `fromAddress`, `date`, `time`). Such keys keep
  insertion order: assigning to a present key changes its value in place, and
  assigning to a new key appends it.
- `Validate`: `validate.js`.
  - The time regular expression `^([0-1]?[0-9]|2[0-3]):[0-5][0-9]$` is written
    out as `MatchesTimePattern`, with its two alternatives for the hour group.
  - It is proved equal to an independent reference, `IsClockTime`: an hour of
    one or two digits worth at most 23, a colon, and two digits worth at most
    59.
  - `ValidateNavigation` is a method. `CollectErrors` performs its sequence of
    conditional assignments, and the functions `AddressError`, `DateError`,
    `TimeError` and `ErrorKeys` state what those assignments amount to.
- `App`: `main.js`, as a class `Page` that holds the input values, the
  destination id, the list items with their `aria-selected` flags, and the
  two text areas the handlers write.

The helpers that `main.js` imports from `src/utils/utils.js` are parameters of
the methods that call them: `findBestStop`, `formatDateForDeepLink` and
`generateDeepLink`. Their results are not constrained. `findBestStop` returns
an `Option`, whose `None` stands for an error thrown while choosing the stop
or reading its fields; the start-up handler catches that error. The other two
are taken to return normally (see "## Left out"). The stop finder query is
returned as a value, and network replies are passed in as values. The `new Date(...)` parse test is the parameter `parsesAsDate`.

## Model

| member | source | states |
|---|---|---|
| JsString.TrimSpec | src/utils/validate.js:7 | `trim()` removes exactly the leading and trailing whitespace: the result is a slice of the input, the parts cut off are all whitespace, and the result neither starts nor ends with whitespace |
| JsString.BlankIffAllWhitespace | src/utils/validate.js:7 | `s.trim() === ''` holds exactly when every character of `s` is whitespace |
| JsString.Utf16Length | src/utils/validate.js:14 | `length` lies between the number of code points and twice that, and equals it when no code point is above U+FFFF |
| JsString.IndexOf | src/main.js:133 | the index found holds the character and no earlier index does |
| JsString.RemoveFirst | src/main.js:133 | `replace(c, '')` leaves a string without `c` unchanged, and otherwise removes exactly the first occurrence of `c` |
| JsObject.Empty | src/utils/validate.js:120 | `{}` is a well-formed object with no keys |
| JsObject.AssignKeepsValid | src/utils/validate.js:122-146 | assignment keeps the keys distinct and in step with the stored values; a present key keeps its position, a new key goes last |
| JsObject.AssignThenLookup | src/utils/validate.js:122-146 | after `o[k] = v`, `o[k]` is `v` and every other key reads as before |
| JsObject.Values | src/utils/validate.js:150 | `Object.values` lists the value of each key, in key order |
| JsObject.FirstValue | src/utils/validate.js:150 | `Object.values(o)[0]` is absent exactly when there are no keys, and is otherwise the first key's value |
| Validate.Text | src/utils/validate.js:10-145 | every message text is non-empty, so `firstError \|\| ''` never confuses a message with no error |
| Validate.ValidateAddress | src/utils/validate.js:6-25 | invalid with the enter-address message exactly when the address is all whitespace; invalid with the minimum-length message exactly when it is not blank but its trimmed length is under 3 UTF-16 units; otherwise valid with the empty message |
| Validate.ValidateDate | src/utils/validate.js:32-52 | a blank date is valid; a non-blank date is valid exactly when it parses; the only failure message is the invalid-date one |
| Validate.TwoDigitValue | src/utils/validate.js:67 | the value of two digits is ten times the first plus the second |
| Validate.TimePatternIsClockTime | src/utils/validate.js:67-68 | the regular expression accepts exactly the one- or two-digit hours up to 23, followed by a colon and two-digit minutes up to 59 |
| Validate.ValidateTime | src/utils/validate.js:59-79 | a blank time is valid; a non-blank time is valid exactly when it is a clock time, untrimmed; the only failure message is the invalid-time one |
| Validate.AcceptedTimes | src/utils/validate.js:67-78 | "0:00", "09:30" and "23:59" are accepted |
| Validate.RejectedTimes | src/utils/validate.js:67-72 | "24:00", "9:60", "abc" and " 9:30" are rejected with the invalid-time message |
| Validate.DateError | src/utils/validate.js:126-133 | the date field gets the choose-date message exactly when blank, the invalid-date message exactly when non-blank and unparsable, and no message otherwise; the two messages exclude each other |
| Validate.TimeError | src/utils/validate.js:135-142 | the time field gets the choose-time message exactly when blank, the invalid-time message exactly when non-blank and not a clock time, and no message otherwise |
| Validate.FieldErrorsAgreeWithCheckers | src/utils/validate.js:40-46 | on non-blank input the navigation check and the single-field checkers give the same verdict and the same message |
| Validate.AddressError | src/utils/validate.js:122-124 | a missing stop selection gives the choose-stop message whether or not the address is blank; otherwise a blank address gives the enter-start-address message |
| Validate.DateErrorAsCoded | src/utils/validate.js:126-133 | the date message follows the code's own conditionals: trim, then the parse check |
| Validate.TimeErrorAsCoded | src/utils/validate.js:135-142 | the time message follows the code's own conditionals: trim, then the regular expression |
| Validate.ClockTimeIsNotBlank | src/utils/validate.js:135-141 | a time that matches the pattern is never blank |
| Validate.FormCompleteIffNoFieldError | src/utils/validate.js:122-148 | the form is complete (stop selected, address, date and time filled and well-formed) exactly when no field has a message |
| Validate.KeyOrderFacts | src/utils/validate.js:144-146 | the key order lists each failed field once; the address key leads when the blank-address test set it, or when the missing stop is the only error; otherwise date, then time, lead |
| Validate.KeyOrderSteps | src/utils/validate.js:122-146 | the key order grows by one conditional key per step, in source order, and the no-stop assignment appends the address key only when it is not already present |
| Validate.ErrorKeys | src/utils/validate.js:120-148 | the error keys are distinct; a field is a key exactly when it has a message; there are no keys exactly when the form is complete; the first key is the address when it is blank, otherwise the first failing of date, time, and the address |
| Validate.MissingStopReportedLast | src/utils/validate.js:126-146 | for every form with a blank date, a valid time, a non-blank address and no stop selected, the keys are date then address, so the date message comes first |
| Validate.ErrorObjectValid | src/utils/validate.js:120-146 | an object holding exactly the field messages under the error keys is well formed |
| Validate.CodedErrorsAreFieldErrors | src/utils/validate.js:122-146 | the object built by the code's conditionals holds exactly the field messages, in error-key order |
| Validate.CollectErrors | src/utils/validate.js:120-146 | the conditional assignments leave, in insertion order, the address key if blank, the date key if failed, the time key if failed, and the address key if there is no stop and it is not yet present, each holding its message, the no-stop message overwriting |
| Validate.ValidateNavigation | src/utils/validate.js:119-157 | the errors hold exactly the field messages in insertion order; `isValid` holds exactly when there are no keys, and exactly when the form is complete; `firstError` is empty exactly when valid, and is otherwise the first key's message |
| App.SearchOutcome | src/main.js:80-94 | the results panel shows a failure exactly when the request failed, the no-stops message exactly when the reply has no or an empty list, and the searching text otherwise |
| App.FirstSelected | src/main.js:112 | `querySelector` finds an item exactly when some item is selected, and then finds the first selected one |
| App.FirstSelectedIsOnlySelected | src/main.js:112-118 | with at most one item selected, the item found is the selected one |
| App.FirstSelectedIsSelection | src/main.js:112-118 | with at most one item selected, every selected item is the one found |
| App.AppendDigit | src/main.js:133 | appending a digit multiplies the value by ten and adds the digit |
| App.FormattedClockTime | src/main.js:133 | for a validated time, `time.replace(':', '')` is three or four digits, one character shorter than the time, worth the hour times 100 plus the minute, and putting the colon back before the last two digits gives the time again |
| App.Page.constructor | src/main.js:7 | the page starts with an empty destination id, a fresh flag array with no item selected, and nothing written to the panels |
| App.Page.FetchInitialData | src/main.js:37-59 | the destination's stops are queried; the destination id becomes the best stop's id only when the reply has a non-empty list and the best stop is chosen without an error, and is otherwise unchanged; a failed request or a failed choice leaves the best-stop line unchanged; the page stays valid |
| App.Page.HandleSearch | src/main.js:66-95 | a blank address sends no query and changes nothing; otherwise the address is queried and the panel shows the outcome; the page stays valid |
| App.Page.HandleLocationSelection | src/main.js:15-30 | the address input takes the stop's name, and afterwards the clicked item is the only selected one and is the one `querySelector` finds |
| App.Page.HandleNavigation | src/main.js:106-140 | the click is blocked, with the navigation check's errors, exactly when the form is incomplete; an opened link is built from the selected stop's id, the formatted date, the time with its colon removed, and the destination id, and the stop it uses is the clicked one |

## Left out

- DOM rendering is not modelled. This covers `showValidationErrors`, `clearValidationErrors`, the `classList` and `innerHTML` updates, the best-stop coordinates text and the event-listener wiring. Only the `aria-selected` flags, the input values and which message a panel shows are kept.
- `src/utils/utils.js` is not part of this model. `findBestStop`, `formatDateForDeepLink` and `generateDeepLink` are uninterpreted function parameters. `getStopFinderURL` is represented by the query string handed to it. `debounce` and the 500 ms delay of the search are left out.
- `updateLocationsList` is left out. It renders the stop list, but its effect is not visible in the code. The page's list items are given to the constructor, and the search does not replace them.
- `new Date(...)` parsing is the parameter `parsesAsDate`, because its leniency belongs to the JavaScript runtime.
- `JSON.parse` of an item's `data-location-info` is read as the stop stored with that item.
- `axios` requests, `console` output and `window.open` are I/O. Replies are parameters, and the opened URL is the result.
- The asynchronous interleaving of the start-up lookup, the debounced search and the button click is not modelled. Each handler runs to completion. There is no guard against stale search replies, because the code has none.
- Missing form values are not modelled. `!value` on an undefined input is left out: the inputs are always strings, as a DOM `value` is.
- App.Page.HandleSearch: does not model the searching text being replaced by the rendered list, because that is done by `updateLocationsList`.
- App.Page.HandleSearch: assumes `updateLocationsList` (called at `src/main.js:84` before the empty-list test) returns normally for every `locations` value, including a missing one. If it threw, the catch at `src/main.js:91-94` would show the search-failed text instead of the no-stops text. The helper is not visible, so when it throws is unknown.
- App.Page.HandleNavigation: states the link only in terms of the uninterpreted `generateDeepLink`. The deep-link format is not modelled.
- App.Page.HandleNavigation: assumes `formatDateForDeepLink` and `generateDeepLink` return normally. An error thrown there, or by `JSON.parse` at `src/main.js:130`, would leave the click handler with no link opened, but the model opens a link for every complete form. These helpers are not visible, so when they throw is unknown.
- The time formatting is `time.replace(':', '')`. For an accepted one-digit hour such as "9:30", it gives three digits ("930"), not the four an `HHMM` layout would have.
- The code does not keep the destination id non-empty. A reply without stops, or a failed start-up request, leaves it "". The button still builds a link with that empty id once the form is complete.
- The first error follows the code's key insertion order, not a fixed field order. When the address is filled in but no stop is selected, the address key is created by the last assignment. Any date or time message then comes first (`Validate.MissingStopReportedLast`).

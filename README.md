# Sleep-assessment form: a Dafny model

This project models the sleep-assessment page of the SleepDisorderPrediction
front end (`src/pages/Predict.js`). The page holds a survey record with eleven
fields. A validator checks six of them and yields an error message per failing
field. The submit handler posts a valid record to a prediction service and
stores the returned label. When that label is non-empty the page draws it with
at most one guidance block (none for a label it does not recognise). When the
form is also valid and the sleep duration is positive, it draws a comparison
chart: recommended sleep by age band next to the user's own sleep.

Modules, one per part of the page:

- `Wrappers`: the optional value (`null` or a value).
- `JsNumbers`: the JavaScript number semantics the page relies on.
  - `Number(string)` as `StringToNumber`: white-space trimming, signs, `Infinity`, decimals, exponents, and `0x`/`0o`/`0b` integers. An empty or blank string converts to 0; anything else outside the grammar converts to NaN.
  - `<`, `<=` and `>` with NaN comparing false; `*`; and `Math.min`.
- `BloodPressurePattern`: the pattern `^\d{2,3}\/\d{2,3}$` as a small anchored matcher over quantified atoms (`Test`), with a declarative reference shape (`HasShape`).
- `Survey`: the record (`Record`, `Get`, `Update`), the four rule predicates, `Validate` (`validateForm`) and `IsFormValid` (`isFormValid`).
- `Presentation`: the pure selectors.
  - `DisplayLabel`: the `"None"` → `"No disorder"` mapping.
  - `ResultShown`, `GuidanceShown` and `SelectedGuidance`: the result block and its guidance.
  - `VisualizationShown`: the chart gate.
  - `BandOf`/`Band` with `BandLabel`, `RecommendedHours` and `RecommendedWidth`: the age band.
  - `UserBarOf`/`UserBar`: the user's bar.
- `Assessment`: `class Controller` with the component state.
  - Fields: `record`, `errors`, `loading` and `result`, plus ghost fields `requests` (posted records) and `alerts` (raised failure alerts).
  - `OnChange` models `handleChange`.
  - `handleSubmit` is split at its `await`: `StartSubmit` runs up to the request and `Settle(reply)` after it. `Submit` runs both with no event in between.
  - `SubmitEnabled` is the button's enable condition.

Field values typed into inputs are strings. The four sliders start as numbers (`Num`) and hold the string a change event delivers once they are moved (`Str`).

The network reply is a parameter of the model, `Prediction(label) | Failure`.

A non-numeric age, sleep duration or step count passes its check: `Number(v)` is NaN for such a value, and every comparison with NaN is false (`Survey.NonNumericAccepted`, `Survey.NotANumberExample`). That path is a property of `validateForm` alone: age, sleep duration and daily steps are `<input type="number">` fields, which deliver `""` for text the browser cannot parse, so neither a NaN value nor the blank `" "` of `Survey.BlankValue` can be typed into them.

## Model

| member | source | states |
|---|---|---|
| Survey.Update | src/pages/Predict.js:42-47 | the changed record holds the event's value, as a string, in the named field; every other field keeps its value |
| Survey.UpdateSameValue | src/pages/Predict.js:44 | writing a field's current string value back leaves the record as it was |
| Survey.GenderReported | src/pages/Predict.js:25 | gender has an entry exactly when it is the empty string |
| Survey.AgeReported | src/pages/Predict.js:26 | age has an entry exactly when it is empty or converts to a number below 1 |
| Survey.OccupationReported | src/pages/Predict.js:27 | occupation has an entry exactly when it is the empty string |
| Survey.SleepDurationReported | src/pages/Predict.js:28-29 | sleep duration has an entry exactly when it is empty or converts to a number at most 0 |
| Survey.BloodPressureReported | src/pages/Predict.js:31-34 | blood pressure has an entry exactly when it is empty or fails the pattern |
| Survey.DailyStepsReported | src/pages/Predict.js:36-37 | daily steps has an entry exactly when it is empty or converts to a number below 0 |
| Survey.UncheckedNeverReported | src/pages/Predict.js:23-40 | quality of sleep, activity, stress, BMI category and heart rate never get an entry |
| Survey.MessagesAreFieldOwn | src/pages/Predict.js:25-37 | every entry holds its own field's message |
| Survey.ValidateReportsFailures | src/pages/Predict.js:23-40 | for every field, an entry exists iff that field's own check fails on that field's own value; entries are only for the six checked fields and hold their messages |
| Survey.RulesIndependent | src/pages/Predict.js:23-40 | changing one field never changes whether another field is reported |
| Survey.NoRuleFailsValid | src/pages/Predict.js:23-40 | a record passing all six rules yields the empty error object |
| Survey.SomeRuleFailsInvalid | src/pages/Predict.js:23-40 | a record failing any one rule yields a non-empty error object |
| Survey.ValidIffAllRulesPass | src/pages/Predict.js:72 | the form is valid iff all six rules pass |
| Survey.InitialRecordInvalid | src/pages/Predict.js:5-17 | the initial record is reported on exactly the six checked fields |
| Survey.AgeOfNumber | src/pages/Predict.js:26 | a non-empty age converting to a finite number is rejected iff that number is below 1 |
| Survey.AgeRuleOnNumerals | src/pages/Predict.js:26 | a whole-number age numeral is rejected iff it is 0 |
| Survey.AgeRuleOnNegatives | src/pages/Predict.js:26 | a negative age numeral is always rejected |
| Survey.SleepRuleOnNumerals | src/pages/Predict.js:28-29 | a whole-number sleep duration is rejected iff it is 0 |
| Survey.SleepRuleOnTenths | src/pages/Predict.js:28-29 | a duration `n.d` with one decimal is rejected iff it is 0.0 |
| Survey.SleepRuleOnNegatives | src/pages/Predict.js:28-29 | a negative sleep duration, `-0` included, is always rejected |
| Survey.DailyStepsRuleOnNumerals | src/pages/Predict.js:36-37 | every non-negative step count passes, `"0"` included |
| Survey.DailyStepsRuleOnNegatives | src/pages/Predict.js:36-37 | a negative step count fails unless it is `-0` |
| Survey.NonNumericAccepted | src/pages/Predict.js:26-37 | a non-empty value converting to NaN passes all three numeric rules |
| Survey.NotANumberExample | src/pages/Predict.js:26-37 | `"abc"` converts to NaN and passes the age, sleep and steps rules |
| Survey.BlankValue | src/pages/Predict.js:26-37 | `" "` is truthy and converts to 0: the age and sleep rules fail, the steps rule passes |
| Survey.ExampleAgePasses | src/pages/Predict.js:26 | age `"25"` passes |
| Survey.ExampleSleepDurationPasses | src/pages/Predict.js:28-29 | sleep duration `"7"` passes |
| Survey.ExampleDailyStepsPass | src/pages/Predict.js:36-37 | daily steps `"5000"` pass |
| Survey.ValidExample | src/pages/Predict.js:23-40 | the initial record with Male/25/Engineer/7/"120/80"/5000 typed into the six checked fields is valid |
| Survey.ZeroAgeReported | src/pages/Predict.js:26 | age `"0"` is reported whatever the other fields hold |
| Survey.SlashlessBloodPressureReported | src/pages/Predict.js:31-34 | blood pressure `"12080"` is reported whatever the other fields hold |
| BloodPressurePattern.RepeatConsumes | src/pages/Predict.js:31 | a matched `{lo,hi}` repetition consumes a prefix of allowed length whose characters all match, and the rest of the pattern matches what follows |
| BloodPressurePattern.RepeatAccepts | src/pages/Predict.js:31 | conversely, any such prefix followed by a match of the rest is a match |
| BloodPressurePattern.RepeatSplits | src/pages/Predict.js:31 | both directions together |
| BloodPressurePattern.SlashThenDigits | src/pages/Predict.js:31 | the tail of the pattern matches exactly a slash followed by 2 or 3 digits and nothing else |
| BloodPressurePattern.TestMeansShape | src/pages/Predict.js:31-32 | the test passes iff the string is 2-3 ASCII digits, `/`, then 2-3 ASCII digits, with nothing before or after |
| BloodPressurePattern.AcceptsTypical | src/pages/Predict.js:31-32 | `"120/80"` passes |
| BloodPressurePattern.AcceptsOutOfRange | src/pages/Predict.js:31-32 | `"999/000"` passes, as there is no range check |
| BloodPressurePattern.RejectsNoSlash | src/pages/Predict.js:31-32 | `"12080"` fails |
| BloodPressurePattern.RejectsShortSystolic | src/pages/Predict.js:31-32 | `"1/80"` fails |
| BloodPressurePattern.RejectsLongSystolic | src/pages/Predict.js:31-32 | `"1234/80"` fails |
| BloodPressurePattern.RejectsTrailingSpace | src/pages/Predict.js:31-32 | `"120/80 "` fails, as `$` is the end of input |
| BloodPressurePattern.RejectsEmpty | src/pages/Predict.js:31-32 | the empty string fails |
| JsNumbers.TrimStart | src/pages/Predict.js:26 | `Number` drops exactly the leading white space: the result is a suffix, starts with a non-space, and everything removed is white space |
| JsNumbers.TrimEnd | src/pages/Predict.js:26 | likewise for trailing white space |
| JsNumbers.DigitStringToNumber | src/pages/Predict.js:26 | a string of decimal digits converts to its positional value |
| JsNumbers.DecimalToNumber | src/pages/Predict.js:26 | the decimal numeral of a natural number converts back to that number |
| JsNumbers.NegativeDecimalToNumber | src/pages/Predict.js:26 | `"-"` followed by such a numeral converts to its negation |
| JsNumbers.PointNumeralToNumber | src/pages/Predict.js:28 | `w.f` with digit strings `w` and `f` converts to its value |
| JsNumbers.TenthsToNumber | src/pages/Predict.js:28 | `n.d` with one decimal converts to n + d/10 |
| JsNumbers.LessTrichotomy | src/pages/Predict.js:26-36 | comparisons with NaN are all false; otherwise exactly one of `<`, `>` and equality holds |
| Presentation.DisplayLabelRenames | src/pages/Predict.js:63 | the stored label is never `"None"`; any other prediction is stored verbatim |
| Presentation.DisplayLabelIdempotent | src/pages/Predict.js:63 | mapping a stored label again changes nothing |
| Presentation.DisplayLabelCollides | src/pages/Predict.js:63 | two predictions are stored alike iff they are equal or are `"None"` and `"No disorder"` |
| Presentation.GuidanceIsSelection | src/pages/Predict.js:221-246 | a guidance block is drawn iff it is the one choice the label selects |
| Presentation.AtMostOneGuidance | src/pages/Predict.js:221-246 | at most one guidance block is drawn at a time |
| Presentation.UnknownLabelHasNoGuidance | src/pages/Predict.js:214-246 | a label other than the three draws no guidance block |
| Presentation.NonePredictionAdvice | src/pages/Predict.js:63 | a server answer of `"None"` draws the no-disorder block |
| Presentation.ChartTestOnValidRecord | src/pages/Predict.js:251 | on a valid record the chart's `sleepDuration > 0` test only excludes a duration that is NaN |
| Presentation.BandOfFinite | src/pages/Predict.js:255-257 | a finite age is in band `<18` iff below 18, `18-64` iff between 18 and 64, `65+` iff above 64 |
| Presentation.NaNAgeIsSenior | src/pages/Predict.js:255-257 | an age that is not a number is shown the `65+` band |
| Presentation.BandMonotone | src/pages/Predict.js:255-257 | a larger age never gets a younger band |
| Presentation.BandOfNumeral | src/pages/Predict.js:255-257 | a whole-number age numeral is in band `<18` below 18, `18-64` up to 64, `65+` from 65 |
| Presentation.RecommendedWidthShape | src/pages/Predict.js:272 | the recommended bar is within 0-100 and narrower for older bands |
| Presentation.UserBarAtMostFull | src/pages/Predict.js:265 | the user's bar is NaN only for a NaN duration and otherwise at most 100 |
| Presentation.UserBarProportional | src/pages/Predict.js:265 | up to ten hours the bar is ten percent per hour; beyond it is 100 |
| Presentation.UserBarOfPositive | src/pages/Predict.js:265 | a duration above zero, infinity included, gives a finite bar above 0 and at most 100 |
| Presentation.UserBarWhenShown | src/pages/Predict.js:251-265 | whenever the chart is drawn, the user's bar is finite, above 0 and at most 100 |
| Presentation.ChartExample | src/pages/Predict.js:255-272 | seven hours draw a 70 percent bar; age 25 is in the adult band with an 80 percent bar; age 17 is labelled `<18` with 8-10 hours recommended |
| Assessment.Controller.constructor | src/pages/Predict.js:5-21 | the component mounts with the initial record, no errors, not loading and no result |
| Assessment.Controller.OnChange | src/pages/Predict.js:42-50 | the record is the old one with the named field replaced; the errors are revalidated from scratch; loading and result are unchanged |
| Assessment.Controller.StartSubmit | src/pages/Predict.js:52-60 | the current record's errors are shown; a request is sent iff there are none; if sent, loading is on, the result is cleared, the record is posted and the submit button is disabled; if not, nothing else changes |
| Assessment.Controller.Settle | src/pages/Predict.js:61-69 | loading is off on both paths; a prediction is stored under its display label; a failure raises an alert and leaves the result alone |
| Assessment.Controller.Submit | src/pages/Predict.js:52-70 | an invalid record only has its errors shown; a valid one is posted once, loading ends off, and the result is the display label, or unset after a failure |
| Assessment.ExampleSession | src/pages/Predict.js:42-70 | typing the example's six fields and submitting with answer `"None"`: no errors, one request, result `"No disorder"` with its guidance drawn |
| Assessment.MountedState | src/pages/Predict.js:5-21 | right after mounting no error is shown although the record is invalid, and the submit button is disabled |

## Left out

- Survey.Validate: the order in which `validateForm` inserts keys is not kept. The error object is modelled by its key set and messages, which is all the page reads (`Object.keys(...).length` and `errors.<field>`).
- IEEE-754 doubles: numbers are exact reals, so rounding, overflow to Infinity, underflow to 0 and the sign of zero are not modelled. `"-0"` converts to 0 and compares equal to it, as it does in JavaScript.
- Non-string predictions: the reply carries a string label. A number, `null` or object in `response.data.prediction`, and how JSX renders it, are not modelled.
- The HTTP request itself: the endpoint at line 62, the payload encoding and the response shape. The outcome is a parameter `Reply`, and the posted record is recorded in the ghost sequence `requests`.
- `console.error` and the text of `alert` (lines 65-66): only the number of alerts is kept, as the ghost field `alerts`.
- React scheduling: state updates apply at once, one event at a time. Under that assumption the stale `formData` read at line 47 and the `prev` used at line 44 agree, so both are the current record.
- `handleSubmit` does not itself check `loading`; only the button does. The model does the same: `StartSubmit` has no loading guard.
- `e.preventDefault()`, JSX layout, CSS classes, the button text at line 210, the slider `min`/`max` attributes and the slider disablement at line 140: presentation only.
- Field names are the eleven of the record: an event naming any other input is not modelled.
- `src/pages/Home.js`, `src/components/Header.js` and `src/App.js` are not part of this model: static markup and routing, with no logic.

# EOB calculator: dose projector model

A Dafny model of the end-of-beam (EOB) calculator, a desk utility for an
operator watching one irradiation run. From the dose delivered in earlier
runs, the dose the screen shows for the run in progress, the target total
(all in µA·h) and the on-target beam current (µA), it derives the total so
far, the dose still to add, the screen reading at which to stop, and, when
the beam current is positive, the projected time at which the target is
reached.

Modules:

- `Projector` (`projector.dfy`): `compute_remaining_and_stop` and the
  three-way decision of the calculate handler, pulled out of the Tk callback
  into a pure function `Decide` returning an `Outcome`: `TargetMet(total, stop)`,
  `Eta(total, remaining, stop, hours, eta)` or `NeedBeam(total, remaining, stop)`.
  Doses are `real`; the clock reading `now` is a parameter, in hours.
- `InputText` (`input_text.dfy`): the clean-up `parse_float` applies to each
  entry before converting it: Python's `str.strip()` (with the full set of
  characters `str.isspace` accepts), then deletion of every comma.
- `Calculator` (`calculator.dfy`): the calculate handler end to end. Every
  entry is cleaned up (`Clean`), then converted and evaluated (`Evaluate`).
  The number converter (`float`) is a parameter `seq<char> -> Option<real>`;
  the entries are read in the order previous, screen, target, beam, and the
  first one that does not convert ends the calculation with an `InvalidInput`
  error naming it, with no partial result.
- `FirstIteration` (`first_iteration.dfy`): the arithmetic of the earlier
  one-screen version, which has no target-met branch and no guard on the beam
  current, and how it relates to `Projector`.
- `Results` (`results.dfy`): the `Option` and `Result` types.

Normalising an entry is not idempotent: deleting a comma can expose
whitespace that the strip before it could not reach (`", 5"` becomes `" 5"`,
which normalises again to `"5"`). `InputText.NormalizeIdempotentIff` pins down
exactly when it is. This is harmless in the program, because `float` accepts
surrounding whitespace.

An unreadable entry makes the program show `float`'s message, which quotes
the cleaned-up text and does not name the field; the model's error carries
both.

## Model

| member | source | states |
|---|---|---|
| Projector.ComputeRemainingAndStop | main.py:8-17 | the total exceeds the previous dose by the screen reading, total plus remaining is the target, stop plus previous is the target, and stop minus remaining is the screen reading |
| Projector.StopIndependentOfScreen | main.py:12-16 | the stop reading is the same whatever the current screen reading |
| Projector.Decide | main.py:110-128 | target met exactly when the total reaches the target; an ETA exactly when the total is short and the beam is positive, with positive hours that times the beam give the remaining dose and an ETA that many hours after now; a beam-current request exactly when the total is short and the beam is not positive; total and stop reported in every outcome |
| Projector.ReportedRemaining | main.py:113-119 | the remaining figure shown is zero exactly when the target is met and is the positive remaining dose otherwise |
| Projector.ReportedRemainingIsShortfall | main.py:113-119 | the remaining figure shown is the shortfall of the total below the target, floored at zero |
| Projector.StopIsThreshold | main.py:14-16 | the target counts as met exactly when the screen reading has reached the stop reading |
| Projector.TargetMetIgnoresBeam | main.py:113-117 | once the target is met the outcome is the same for every beam current and clock reading |
| Projector.EtaReachesStop | main.py:121-123 | running at the beam current for the projected hours brings the screen to the stop reading and the total to the target |
| Projector.EtaEarlierWithMoreBeam | main.py:121-123 | a strictly larger positive beam current gives a strictly earlier ETA |
| Projector.WorkedExamples | main.py:103-130 | a fresh run, a run part way through, a target already exceeded and a zero beam current give the expected outcomes |
| InputText.IsSpace | main.py:89 | the characters `str.strip()` removes: exactly those Python's `str.isspace` accepts (ASCII tab to carriage return, space, U+001C-U+001F, U+0085, U+00A0, U+1680, U+2000-U+200A, U+2028, U+2029, U+202F, U+205F, U+3000) |
| InputText.LeadingSpaces | main.py:89 | the count covers only whitespace, and the character after it, if any, is not whitespace |
| InputText.TrailingSpaces | main.py:89 | the count covers only whitespace at the end, and the character before it, if any, is not whitespace |
| InputText.Strip | main.py:89 | the result is the input from the first non-whitespace character on, every character outside it is whitespace, and it has no whitespace at either end |
| InputText.RemoveCommas | main.py:89 | the result has no comma and holds every other character as often as the input |
| InputText.Normalize | main.py:89 | the cleaned-up entry holds no comma and is no longer than the raw entry |
| InputText.RemoveCommasKeepsCommaFree | main.py:89 | a text without commas is left unchanged |
| InputText.RemoveCommasIdempotent | main.py:89 | deleting commas twice equals deleting them once |
| InputText.RemoveCommasDistributes | main.py:89 | comma deletion works character by character: it distributes over concatenation |
| InputText.StripKeepsTrimmed | main.py:89 | stripping a text with no whitespace at either end leaves it unchanged |
| InputText.StripKeepsCommaFree | main.py:89 | stripping cannot introduce a comma |
| InputText.NormalizeTwice | main.py:89 | normalising a normalised entry only strips it again |
| InputText.NormalizeIdempotentIff | main.py:89 | normalising is idempotent on an entry exactly when its normalised form has no whitespace at either end |
| InputText.NormalizeNotIdempotent | main.py:89 | ", 5" normalises to " 5", which normalises to "5" |
| Calculator.Clean | main.py:89 | every entry is cleaned up before conversion, so no cleaned entry holds a comma |
| Calculator.ParseField | main.py:89 | a cleaned entry converts exactly when the converter accepts it, to the converter's value; otherwise the error names that entry and quotes its cleaned text |
| Calculator.ParseInputs | main.py:104-108 | success exactly when all four entries convert, with the four converted values; otherwise the error names an entry that does not convert, quotes its text, and every entry read before it converted |
| Calculator.Evaluate | main.py:104-130 | success exactly when all four entries convert, with the projector's outcome on the converted values; otherwise the first unreadable entry is named, its text is quoted, and nothing is computed |
| Calculator.EvaluateReadable | main.py:104-130 | with four readable entries the result is the projector's outcome on their values: stop is target minus previous, and an ETA is given exactly when the total is short and the beam is positive |
| Calculator.UnreadablePreviousNamed | main.py:104-105 | an unreadable previous-dose entry yields an error naming that entry, whatever the other entries hold |
| Calculator.OnCalculate | main.py:103-132 | the handler succeeds exactly when all four cleaned entries convert, with the projector's outcome on the converted values; otherwise it names an unreadable entry, every entry before it converted, and it quotes that entry's cleaned-up text, which holds no comma |
| Calculator.OnCalculateReadable | main.py:103-130 | when the four raw entries read as numbers once cleaned up, the handler returns the projector's outcome on those numbers |
| FirstIteration.Calculate | iteration1.py:10-12 | the total exceeds the previous dose by the current dose, total plus remaining is the maximum, and the hours times the beam current give the remaining dose |
| FirstIteration.NegativeHoursPastTarget | iteration1.py:10-13 | with a positive beam current and a total past the maximum, the hours are negative |
| FirstIteration.NegativeHoursExample | iteration1.py:10-13 | 100000 before, 5000 on screen, maximum 100000 and 300 µA give -50/3 hours where the later calculator reports the target met |
| FirstIteration.AgreesWithProjector | iteration1.py:10-12 | wherever the later calculator projects an ETA, the first version has the same total, remaining dose and hours |
| FirstIteration.NegativeCurrentDisagrees | iteration1.py:10-12 | a negative beam current with dose still to add gives negative hours, where the later calculator asks for a beam current |

## Left out

- The Tk window, entry widgets, layout, key bindings, the Clear button, the error dialog and the 30-second clock refresh (main.py:19-101, main.py:131-148, iteration1.py:15-53): user-interface plumbing.
- Reading the wall clock: `now` is a parameter, a real number of hours, and the ETA is `now` plus the hours. The conversion through `timedelta`, its microsecond rounding, and the overflow error Python raises when the ETA falls past year 9999 (caught by the handler and shown as an error) are not modelled.
- The number converter `float` is a parameter of `Calculator`. Its results are reals, so the `nan` and `inf` it also accepts are outside the model.
- IEEE-754 double arithmetic and its rounding: all arithmetic is over the reals.
- The `.1f`, `.2f` and `strftime` display formatting and the status and sanity-line texts: presentation only. The status is represented by the `Outcome` constructor.
- The handler's catch-all also catches exceptions other than a failed conversion. For finite entries the only other one reachable is the date overflow above. Non-finite entries reach more: a target of `inf` with a beam current of `inf` gives `nan` hours, and `timedelta(hours=nan)` raises `ValueError`. Non-finite values are outside the model.
- FirstIteration.Calculate: asks for a non-zero beam current, because the first version divides without a guard and Python raises on a zero divisor, leaving the result label unchanged.
- The first version converts its entries with `float` directly, without stripping or deleting commas; its `Calculate` starts from the four numbers.

## Findings

| source | as written | input that shows it | evidently intended | confidence | as-written member | corrected member |
|---|---|---|---|---|---|---|
| iteration1.py:10-13 | the hours to go are the remaining dose over the beam current even when the total already exceeds the target | previous 100000, current 5000, maximum 100000, current 300 µA: "EOB in -16.667 h" | report that the target is already met instead of a negative time | not executed | FirstIteration.NegativeHoursExample | Projector.Decide |

# Running tracker core, modelled in Dafny

This project models the computational core of a browser running tracker (`script.js`).
A raw GPS fix is smoothed per axis by a one-dimensional Kalman filter. The smoothed
point is added to a path, and the distance from the previous point is added to the
run total. A kilometre announcement is made once the total reaches the next
whole kilometre. A one-second timer shows the elapsed time and the pace as `M:SS`.

Modules, leaf first:

- `Wrappers` (`wrappers.dfy`): `Option`, standing in for `null`.
- `Kalman` (`kalman.dfy`): the filter as a class with mutable state, written over `real`.
  `Next` is the pure specification of one `update`. The lemmas cover the gain bounds,
  the error after an update, the convex blend and monotone approach to a constant
  measurement.
- `TimeFormat` (`time_format.dfy`): `formatTime` with JavaScript's floor division and
  truncating `%`, `toString` and `padStart(2, '0')`, plus the `ParseTime` reader that
  undoes it.
- `TimerTick` (`timer_tick.dfy`): the elapsed time and the guarded pace of the timer tick.
- `Tracking` (`tracking.dfy`): the session globals as a `Track` value. `Started` models
  the start handler and `ObserveStep` the position callback. `Run` folds whole
  sequences of fixes.
- `Session` (`session.dfy`): class `TrackingSession`. Its fields are the globals and the
  two filters, and its methods are `Start`, `Observe`, `OnPosition` and `Tick`. Each
  method is proved against the functions above.

`getDistance` (a haversine formula) is a parameter of the session, `distance`. The only
thing the model asks of it is that it is never negative. The clock (`Date.now()`) is an
integer count of milliseconds passed in as `now`.

The milestone rule is a single `if` (script.js line 86). One fix therefore announces at
most one kilometre, even when the total jumps past several (`Tracking.OneMilestonePerFix`).
Announcing every kilometre crossed would take a loop; the code has a single `if`, and
the model follows it.

## Model

| member | source | states |
|---|---|---|
| `Kalman.Gain` | script.js:15 | the gain lies in [0, 1), times `P'+R` it gives `P'`, and it is 0 exactly when `P'` is 0; the denominator is positive whenever the measurement noise is |
| `Kalman.ErrorAfterUpdate` | script.js:12-17 | after an update the error equals `P'·R/(P'+R)` with `P'` = old error + process noise, so it is non-negative and strictly below the measurement noise |
| `Kalman.EstimateBetween` | script.js:15-16 | the new estimate lies between the old estimate and the measurement (inclusive); a measurement equal to the estimate leaves it unchanged |
| `Kalman.MovesToward` | script.js:15-16 | the distance from estimate to measurement is multiplied by `1 - gain`: it never grows, and it strictly shrinks when the estimate is off and the predicted error is positive |
| `Kalman.ErrorShrinksWithoutProcessNoise` | script.js:12-17 | with zero process noise, an update strictly lowers a positive error |
| `Kalman.Repeat` | script.js:10-20 | any number of updates keeps the error non-negative, so every later update stays well defined |
| `Kalman.ConstantInputApproaches` | script.js:10-20 | fed a constant measurement, each update moves the estimate toward it without crossing it, and the estimate is never farther from it than at the start |
| `Kalman.KalmanFilter.constructor` | script.js:2-8 | the defaults (1, 1, 1, 0) and the given noises, error and prior become the state, with gain 0 |
| `Kalman.KalmanFilter.Update` | script.js:10-20 | the state becomes `Next` of the old state and the gain that of the predicted error; the noises are constant; the result is the new estimate; the new error stays below the measurement noise; the estimate stays between old estimate and measurement |
| `TimeFormat.NatToString` | script.js:133 | `toString` of a non-negative integer is a non-empty string of digits, one digit exactly below 10, with no leading zero |
| `TimeFormat.JsRemainder` | script.js:132 | `seconds % 60` takes the sign of `seconds`: for non-negative input it is Dafny's `seconds % 60`, in [0, 60); in (-60, 0] with the magnitude of `(-a) % 60` for negative input |
| `TimeFormat.PadStart2` | script.js:133 | `padStart(2, '0')` leaves strings of two or more characters alone and left-fills shorter ones with '0' to length 2 |
| `TimeFormat.DigitsValueOfNatToString` | script.js:133 | reading the printed digits of `n` gives back `n` |
| `TimeFormat.SecondsDigits` | script.js:132-133 | seconds below 60, printed and padded, are exactly two digits whose value is the seconds |
| `TimeFormat.FormatTimeShape` | script.js:130-134 | for `seconds >= 0` the text is the minutes, ':', then exactly two digits; the seconds are below 60 and `mins*60 + secs == seconds` |
| `TimeFormat.FormatTimeRoundTrip` | script.js:130-134 | `ParseTime(FormatTime(s)) == Some(s)` for every non-negative `s` |
| `TimeFormat.FormatTimeNegative` | script.js:130-134 | a negative input (-5) prints as "-1:-5", which does not read back as a time |
| `TimerTick.ElapsedFloor` | script.js:119-120 | `Math.floor` of the elapsed seconds is the elapsed milliseconds divided by 1000, rounded down |
| `TimerTick.TimeLabelReadsBack` | script.js:119-120 | when the clock has not gone back, the time label reads back as the whole seconds since the start |
| `TimerTick.Pace` | script.js:124 | pace times distance equals elapsed seconds times 1000; it is non-negative for a non-negative elapsed time |
| `TimerTick.PaceLabel` | script.js:123-125 | there is a pace text exactly when the total distance is positive, so the division never sees zero |
| `TimerTick.PaceLabelReadsBack` | script.js:123-125 | the pace text is `M:SS` of the floored seconds per kilometre followed by " /km", and reads back as that floor |
| `Tracking.Started` | script.js:53-59 | the start handler leaves distance 0, no previous position, next milestone 1000, both times equal to `now`, an empty path and elapsed time 0, which satisfy the session invariant |
| `Tracking.RoundToSeconds` | script.js:88 | `toFixed(0)` of milliseconds/1000 is the nearest whole second, halves away from zero; the result has the sign of the input |
| `Tracking.RoundToSecondsNegativeTies` | script.js:88 | -500 ms rounds to -1 and -1500 ms to -2, as `toFixed(0)` rounds the magnitude; 500 ms rounds to 1 and -499 ms to 0 |
| `Tracking.ObserveStep` | script.js:75-96 | the first fix only records the position; a later one adds exactly `distance(prev, cur)` and appends exactly one point; a milestone fires exactly when the new total reaches the next one, advancing it by 1000 and setting the milestone time to `now`, and otherwise both stay; the previous position always ends as the current point |
| `Tracking.ObservePreservesInv` | script.js:75-94 | one callback keeps the invariant (non-negative total, next milestone a whole positive kilometre no more than 1000 past the total); the total and next milestone never decrease; an announced kilometre is the one that was due |
| `Tracking.RunPath` | script.js:75-80 | after a start and any fixes, the path is every fix but the first, the total is the length of the path through all fixes, and the previous position is the last fix |
| `Tracking.RunMilestones` | script.js:86-94 | after a start and any fixes, the invariant holds, there are fewer announcements than fixes, the kilometres are announced as 1, 2, 3, … with none skipped, the next milestone is one past the last announced, and no kilometre is announced before it was covered |
| `Tracking.RunTimes` | script.js:86-93 | with a clock that never goes back, the last milestone time lies between the start and the latest fix, and every announced time is non-negative |
| `Tracking.OneMilestonePerFix` | script.js:86-94 | a single 3000 m jump announces only kilometre 1, leaving the next milestone at 2000 |
| `Session.TrackingSession.constructor` | script.js:25-35 | the globals' initial values and two fresh filters with noises 0.0001 and 0.0005, error 1, the Dubai prior and gain 0 |
| `Session.TrackingSession.Start` | script.js:52-59 | the state becomes `Started(now)` and neither filter changes |
| `Session.TrackingSession.Observe` | script.js:75-96 | the new state and the event are those of `ObserveStep`; the invariant holds; the total and next milestone never decrease; the filters do not change |
| `Session.TrackingSession.OnPosition` | script.js:68-97 | each filter takes exactly one `Next` step on its raw axis and its gain becomes that of its predicted error, and the smoothed point is then observed as by `ObserveStep` |
| `Session.TrackingSession.Tick` | script.js:118-126 | the elapsed time becomes `(now - startTime)/1000`, the time text is its floored `M:SS`, and the pace text is the guarded pace label |

## Left out

- `getDistance` (script.js:136-145) is not modelled. It needs `sin`, `cos`, `sqrt` and `atan2`, so it is the session parameter `distance`, assumed non-negative. Its floating-point NaN and rounding behaviour is not modelled.
- Floating point: the filter, the distances and the pace are exact `real`s. IEEE rounding and convergence speed are not modelled.
- Kalman.KalmanFilter.constructor: requires a non-negative process noise and error and a positive measurement noise. The source accepts any numbers, and with other values `update` can divide by zero and produce NaN or Infinity, which `real` cannot represent. Both filters of the script use positive constants.
- Session.TrackingSession.constructor: `startTime` and `lastMilestoneTime` are `undefined` in the source until the first start. They read as 0 here. No callback can read them before a start.
- Session.TrackingSession.Tick: the link to the round-trip reading of the time label is stated separately as `TimerTick.TimeLabelReadsBack`, not in the method's contract.
- The map (Leaflet) setup and view updates (script.js:37-50, 81-84) are UI calls into another library.
- DOM text and button updates (script.js:61-63, 78, 99-100, 106-107, 120, 125) are UI. This includes the `toFixed(2)` distance text.
- `watchPosition`, `clearWatch`, `setInterval` and `clearInterval` (script.js:65-68, 104-105, 116-118, 127) are event plumbing. The stop handler (script.js:103-108) only unsubscribes, so it has no model. Fixes and clock readings are parameters.
- `speakText` and the sentence it speaks (script.js:90, 110-114) are speech I/O. `Observe` returns the announcement as `Milestone(km, seconds)`.
- `formatTime` receives the `toFixed(0)` string in the source and coerces it to a number. The milestone carries the rounded seconds as an integer; the string-to-number coercion is not modelled.
- The time-series recorder, run comparator, run store, history paging and pause/resume belong to other variants of the program. They are not part of this source file.

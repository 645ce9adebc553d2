# Stillness detector — a Dafny model

The stillness detector is a browser component. It listens to the device's
motion sensor and counts the whole seconds since the device last moved. It
maps that count to one of five alert stages ("Movement detected" in green up
to "Stillness for 2 minutes" in dark red). This project models its logic,
all of it in `src/App.js`:

- `alerts.dfy` (module `Alerts`): the `ALERT_STAGES` table and the resolver.
  The resolver picks the last stage whose threshold has been reached
  (`findLast`) and falls back to the first stage when none has. The lemmas
  prove the table ascending, the pick maximal, the resolution monotone, and the
  stage boundaries at 10, 59, 60 and 120 seconds.
- `ticker.dfy` (module `Ticker`): the interval callback's arithmetic,
  `floor((now - lastMovementTime) / 1000)`. The wall clock is a parameter.
- `session.dfy` (module `Session`): the component state as a value
  (`Monitor`). Each operation is a function from the old state to the new
  one: `handleMotion`, the tick, `startDetection`, `stopDetection`,
  `toggleDetection` and the effect body that guards the start. `Step` and `Run`
  apply events and sequences of events.
- `detector.dfy` (module `Detector`): the same state as a class whose fields
  are updated in place. Each method is proved to produce exactly the state its
  `Session` function describes.

A motion sample is abstracted to two booleans: whether it carries
`accelerationIncludingGravity`, and whether the gravity-compensated magnitude
is strictly above 0.1. The answer to a permission request is a parameter:
no `DeviceMotionEvent` global (line 39 then throws before anything changes),
no request API, a response string, or a rejected promise.

The code is modelled as written, quirks included:

- `startDetection` runs only when `isStarted && permissionGranted`.
- `permissionGranted` starts `false`, and only `startDetection` sets it.
- `Session.MountedStaysDormant` proves the consequence. From mount, no
  sequence of samples, interval firings, toggles, stops and effect runs
  grants permission, attaches the listener or starts the interval. The
  duration stays 0 and the green stage stays shown.
- `startDetection` starts the interval whatever the permission answer is
  (`Session.DeniedStartStillTicks`).
- The first stage's threshold is 2. `findLast` finds nothing only below 2
  seconds. For 2 to 9 seconds it picks the first stage itself, so the fallback
  and the match give the same stage.

## Model

| member | source | states |
|---|---|---|
| Alerts.FindLast | src/App.js:78 | The index returned names a stage whose threshold the duration has reached, and no later stage has been reached; None means no stage has been reached |
| Alerts.ResolveAlert | src/App.js:78-79 | The stage shown is a stage of the table, and either its threshold has been reached or it is the first stage (the fallback to ALERT_STAGES[0]) |
| Alerts.AlertStagesAscending | src/App.js:4-10 | The table has five stages with strictly ascending thresholds, from 2 to 120 |
| Alerts.FindLastIsMaximal | src/App.js:78 | On an ascending table, the stage `findLast` picks has the largest threshold that has been reached |
| Alerts.FindLastMonotone | src/App.js:78 | A larger duration never makes `findLast` find nothing or an earlier index |
| Alerts.ResolveIsMaximalReached | src/App.js:78-79 | If any threshold has been reached, the stage shown has been reached and has the maximal such threshold; otherwise the first stage is shown |
| Alerts.ResolveMonotone | src/App.js:78-79 | For d1 <= d2 the threshold of the stage shown for d1 is at most that for d2 |
| Alerts.FallbackOnlyBelowFirstThreshold | src/App.js:78-79 | `findLast` finds nothing exactly when the duration is below 2 |
| Alerts.ResolveClosedForm | src/App.js:4-10 | The stage shown is the first stage below 10 s, then the 10, 30, 60 and 120 s stages on [10,30), [30,60), [60,120) and from 120 on |
| Alerts.ResolveBelowTen | src/App.js:5-6 | Every duration below 10 shows "Movement detected" in green |
| Alerts.ResolveFromTwoMinutes | src/App.js:9 | Every duration of 120 or more shows "Stillness for 2 minutes" in darkred |
| Alerts.ResolveBoundaries | src/App.js:5-9 | 0 and 1 show the first stage; 10 shows yellow, 59 orange and 60 red |
| Ticker.ElapsedSeconds | src/App.js:56 | The result is the floor of the millisecond difference divided by 1000: result*1000 <= now - last < result*1000 + 1000 |
| Ticker.ElapsedSecondsUnique | src/App.js:56 | Any whole number of seconds bracketing the difference that way equals the result |
| Ticker.ElapsedNonNegative | src/App.js:56 | When now >= lastMovementTime the duration is non-negative |
| Ticker.ElapsedZeroWithinSecond | src/App.js:56 | The duration is 0 exactly when now is 0 to 999 ms after the last movement |
| Ticker.ElapsedMonotone | src/App.js:56 | For a fixed last movement the duration is non-decreasing in now |
| Ticker.ElapsedOneSecondLater | src/App.js:55-58 | 1000 ms later the duration is exactly one more |
| Session.Publish | src/App.js:77-80 | Setting the duration re-resolves the alert, so the alert matches the new duration; nothing else changes |
| Session.Mount | src/App.js:13-19 | Initial state: duration 0, first stage shown, not started, not granted, no listener, no interval, last movement = mount instant |
| Session.HandleMotion | src/App.js:22-36 | A sample without acceleration or not above threshold changes nothing; movement sets lastMovementTime to now, the duration to 0 and shows the first stage, leaving the session flags alone; the alert stays consistent |
| Session.Tick | src/App.js:55-58 | The published duration is the floor of the elapsed seconds since the last movement; the alert matches it; flags and last movement unchanged |
| Session.StopDetection | src/App.js:61-66 | Not started, no listener, no interval, duration 0 with the first stage; permissionGranted and lastMovementTime kept |
| Session.ToggleDetection | src/App.js:82-88 | isStarted is flipped and every other field is unchanged |
| Session.Granted | src/App.js:39-42 | The listener is attached when there is no request function, or when the request answers exactly "granted"; never on a rejected request or without a `DeviceMotionEvent` global |
| Session.StartDetection | src/App.js:38-59 | Without a `DeviceMotionEvent` global the access at line 39 throws and nothing changes; otherwise the interval runs afterwards, and on a grant the listener is attached and both flags are set, while on any other answer nothing but the interval changes |
| Session.RunEffect | src/App.js:18-70 | The last movement becomes now; unless started and granted, nothing else changes; when both hold, the result is startDetection applied to the renewed state |
| Session.Step | src/App.js:43-63 | A sample changes nothing while the listener is not attached, a firing changes nothing while the interval is not running, and every event keeps the alert consistent with the duration |
| Session.Run | src/App.js:43-63 | No events leave the state alone; with neither listener nor interval attached, any sequence of samples and firings leaves the state alone |
| Session.RunAppend | src/App.js:43-63 | Delivering two event sequences one after the other equals delivering their concatenation |
| Session.StopIdempotent | src/App.js:61-66 | Stopping twice gives the same state as stopping once |
| Session.ToggleTwiceRestores | src/App.js:82-88 | Toggling twice restores the state |
| Session.MotionIgnoredAfterStop | src/App.js:61-62 | After a stop, a device-motion sample leaves the state unchanged |
| Session.TicksCountSeconds | src/App.js:55-58 | With the interval running and no movement, two ticks 1000 ms apart publish durations that differ by exactly 1 |
| Session.DeniedStartStillTicks | src/App.js:39-58 | A denied or failed permission request from a stopped state leaves it not started, not granted and unsubscribed, but with the interval running (it runs afterwards unless the `DeviceMotionEvent` global is missing) |
| Session.StepKeepsAlertCurrent | src/App.js:77-80 | Every event keeps the alert consistent with the duration |
| Session.RunKeepsAlertCurrent | src/App.js:77-80 | Every sequence of events keeps the alert consistent with the duration |
| Session.StepKeepsDormant | src/App.js:68-70 | From a state that has never started, no event grants permission, attaches the listener, starts the interval or changes the duration and alert; only toggle and stop move isStarted |
| Session.RunKeepsDormant | src/App.js:68-70 | The same for every sequence of events |
| Session.MountedStaysDormant | src/App.js:16-70 | From mount, every sequence of events leaves permission ungranted, no listener, no interval, duration 0 and the first stage shown |
| Detector.StillnessDetector.constructor | src/App.js:13-19 | The fields take the mount state and the alert is consistent |
| Detector.StillnessDetector.SetStillnessDuration | src/App.js:77-80 | The duration is updated in place and the alert re-resolved, as Session.Publish |
| Detector.StillnessDetector.HandleMotion | src/App.js:22-36 | Updates the fields in place to Session.HandleMotion of the old state |
| Detector.StillnessDetector.Tick | src/App.js:55-58 | Updates the fields in place to Session.Tick of the old state |
| Detector.StillnessDetector.StartDetection | src/App.js:38-59 | Updates the fields in place to Session.StartDetection of the old state |
| Detector.StillnessDetector.StopDetection | src/App.js:61-66 | Updates the fields in place to Session.StopDetection of the old state |
| Detector.StillnessDetector.RunEffect | src/App.js:18-70 | Updates the fields in place to Session.RunEffect of the old state |
| Detector.StillnessDetector.ToggleDetection | src/App.js:82-88 | Updates the fields in place to Session.ToggleDetection of the old state |
| Detector.StillnessDetector.Deliver | src/App.js:43-63 | Delivers one event, with samples reaching the handler only while it is registered and ticks only while the interval runs, as Session.Step |
| Detector.StillnessDetector.DeliverAll | src/App.js:43-63 | Delivering a sequence of events in order gives Session.Run of the old state |
| Detector.MountAndDeliver | src/App.js:13-70 | A freshly mounted detector, after any events, shows duration 0 and the first stage |

## Left out

- The magnitude `sqrt(x² + y² + z²) − 9.8` and its comparison with 0.1 are floating-point. A sample is reduced to "has acceleration" and "exceeds threshold".
- `Date.now()` is not modelled. The instant is passed as `now`.
- `setInterval` timing is not modelled. A firing of the interval is one `IntervalFired` event.
- `ElapsedSeconds` uses exact integer division. JavaScript divides in floating point before `Math.floor`. The two agree for timestamp differences far beyond any real clock, but the rounding is not modelled.
- `DeviceMotionEvent.requestPermission` is asynchronous. The model treats its promise as settled at once, with the answer as a parameter. The `console.error` logging of a rejection is left out.
- Without a `DeviceMotionEvent` global, the `ReferenceError` thrown at line 39 leaves the state unchanged in the model. Its propagation out of the effect, into React, is not modelled.
- `addEventListener`, `removeEventListener` and `clearInterval` are modelled only as the flags `listening` and `ticking`.
- Each effect run in the source has its own `lastMovementTime`, handler and `intervalId`. The model keeps one of each.
- Overwriting `intervalId` when a start runs twice without a stop is not modelled. That would leak a timer.
- React's render and effect scheduling is not modelled. This includes when the effect re-runs and the cleanup (lines 72-75) that runs before each re-run and on unmount. The cleanup is available as the separate `Stop` event, and an effect run as the `EffectRun` event, in any order.
- The JSX rendering (lines 90-140) is presentation only.

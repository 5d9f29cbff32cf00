# Detection-loop tracking and alert throttling, in Dafny

This project models the core of the object-detection assistant in
`object_detection/app.py`. Each camera frame goes through a detector. For
every detected box the loop:

- estimates the distance with a pinhole formula;
- names the detection by the identity key `label_x1_y1`;
- decides whether the key is new to the identity registry (`tracked_objects`).

A new key gets a spoken alert ("New cat detected at distance 2.5 meters").
One global cooldown throttles these alerts (`speak_object`,
`last_speak_time`). At the end of the frame, the loop drops every registry
entry whose key was not detected in that frame.

Modules:

- `Distance` (distance.dfy): `calculate_distance` over `real`. Its constants
  are `KNOWN_WIDTH = 0.5` and `FOCAL_LENGTH = 500`. A zero width yields
  `DivisionByZero`, which stands for the `ZeroDivisionError` the code raises.
- `ObjectKey` (object_key.dfy): Python's `str` on integers and the key
  `label + "_" + str(x1) + "_" + str(y1)`. It also has a parser that splits a
  key at its last two underscores. Parsing proves that keys are injective,
  even for labels that contain underscores.
- `Throttle` (throttle.dfy): one call of `speak_object` as a function of the
  last alert time, the call's clock reading and whether the dispatch
  succeeded. It also defines `Spaced`, which says that a sequence of alert
  times respects the cooldown.
- `Registry` (registry.dfy): the frame loop as functions on values.
  - `ScanBox` is one detection of the inner loop and `ScanBoxes` the whole
    inner loop.
  - `Reconcile` is the end-of-frame filter, `FrameStep` one iteration of the
    main loop and `Run` a sequence of iterations.
  - Independent reference definitions give what a frame should do:
    `SeenKeys`, `ConfidentKeys` and `NewArrivals`, and `FirstConfidentAt`
    for the detection whose label and distance an alert carries.
  - The lemmas connect the loop functions to these reference definitions.
- `DetectionLoop` (tracker.dfy): the class `Tracker`. Its fields `tracked`
  and `lastSpeakTime` are the program's two globals. Its methods change them
  step by step: `SpeakObject`, `ScanDetection` (the body of the inner loop),
  `ScanFrame` (the inner loop), `ProcessFrame` (one frame) and `Run` (the
  main loop). The constructor starts from an empty registry and a last alert
  time of 0. `SpeakObject` is proved to compute `Throttle.Speak`. Each of the
  other methods is proved to compute the matching function in `Registry`:
  `ScanBox`, `ScanBoxes`, `FrameStep` and `Run`.

The model treats some inputs differently from the program:

- The detector's output for a frame is a sequence of `Box` values: class name,
  `x1`, `y1`, `x2` and confidence. `y2` is left out because it only feeds the
  drawing.
- The frame's own `time.time()` reading is the parameter `now`.
- Each call of `speak_object` reads the clock again and then dispatches
  speech. Detection `i` therefore gets a `SpeakEnv`, which holds that clock
  reading and whether the dispatch succeeds.
- Times, confidences and distances are `real`.

Where the design description and the code disagree, the model follows the
code:

- **Registry after a frame.** The design description says the registry ends
  up as exactly the confident keys of the frame. The code filters the dict by
  the keys of *every* box it processed (app.py:134, 154-155), at any
  confidence. So the registry becomes
  (previous keys ∪ confident keys) ∩ keys seen this frame, and a
  low-confidence sighting keeps an existing entry alive (`FrameKeys`).
- **Zero-width box.** The design description says a zero width yields a
  sentinel "unknown distance". The code raises in `calculate_distance`, and
  the `except` at app.py:149-151 skips the box before its key is recorded
  (`ZeroWidthSkipped`). A frame made only of zero-width boxes therefore empties
  the registry.
- **Last alert time.** The design description says it is updated whenever an
  alert is allowed. The code updates it only after synthesis and dispatch
  succeed (app.py:97); a failure leaves it unchanged.
- **Order of alerts.** The design description reconciles first and alerts
  afterwards. The code calls `speak_object` inline, during the scan, just
  before it inserts the key (app.py:140-141). The model keeps that order.
- **Negative width.** A box with `x2 < x1` is not rejected. It yields a
  negative distance and is processed like any other box
  (`DistanceNegativeWidth`).
- **Cooldown spacing.** Alerts stay at least `SPEAK_COOLDOWN` apart even if
  the clock goes backwards (`RunThrottle` assumes nothing about the clock).
  The reason is that the last alert time changes only when an alert goes out.

## Model

| member | source | states |
|---|---|---|
| `Distance.CalculateDistance` | object_detection/app.py:49-51 | the estimate fails (division by zero) exactly when the pixel width is 0 |
| `Distance.DistanceTimesWidth` | object_detection/app.py:40-51 | for a non-zero width, distance × width = KNOWN_WIDTH × FOCAL_LENGTH = 250 |
| `Distance.DistancePositive` | object_detection/app.py:49-51 | a positive width gives a positive distance |
| `Distance.DistanceStrictlyDecreasing` | object_detection/app.py:49-51 | for 0 < w1 < w2 the distance at w1 is strictly greater than at w2 |
| `Distance.DistanceNegativeWidth` | object_detection/app.py:127-128 | a negative width is not rejected and yields a negative distance |
| `ObjectKey.IntToString` | object_detection/app.py:133 | Python's `str` of an int, a minus sign for a negative value followed by its decimal digits without leading zeros; what it promises is stated by `IntToStringRoundTrip` |
| `ObjectKey.Key` | object_detection/app.py:133 | the identity key `label + "_" + str(x1) + "_" + str(y1)`; what it promises is stated by `KeyRoundTrip` and `KeyInjective` |
| `ObjectKey.IntToStringRoundTrip` | object_detection/app.py:133 | the decimal rendering of any integer is non-empty, has no underscore and parses back to that integer |
| `ObjectKey.KeyRoundTrip` | object_detection/app.py:133 | parsing the key `label_x1_y1` gives back label, x1 and y1, even when the label contains underscores |
| `ObjectKey.KeyInjective` | object_detection/app.py:133 | two detections share a key only if label, x1 and y1 all agree |
| `Throttle.Speak` | object_detection/app.py:63-99 | an alert goes out only past the cooldown and with a successful dispatch; it then sets the last alert time to the call's clock; otherwise that time is unchanged |
| `Throttle.SpeakInCooldown` | object_detection/app.py:69-70 | inside the cooldown window the call changes nothing, whatever the dispatch would do |
| `Throttle.SpeakAfterCooldown` | object_detection/app.py:72-99 | past the cooldown, the call alerts exactly when the dispatch succeeds |
| `Throttle.SpacedExtend` | object_detection/app.py:69-97 | one more call keeps a history of alert times spaced by the cooldown and moves the last alert time to its latest entry |
| `Throttle.SpacedConcat` | object_detection/app.py:69-97 | two spaced alert histories, the second starting where the first ended, join into one spaced history |
| `Registry.ScanBox` | object_detection/app.py:121-151 | one pass of the inner loop's body; it appends at most one call and never drops one (each case is spelled out by `ScanBoxEffect`) |
| `Registry.ScanBoxes` | object_detection/app.py:118-151 | the inner loop over a frame's detections in order; it appends at most one call per detection |
| `Registry.Reconcile` | object_detection/app.py:154-155 | the kept keys are the registry keys that were seen this frame, with unchanged values |
| `Registry.FrameStep` | object_detection/app.py:112-155 | one iteration of the main loop, the inner loop followed by `Reconcile`; the registry afterwards holds only keys seen in the frame, and there is at most one call per detection |
| `Registry.Run` | object_detection/app.py:103-161 | the main loop over a sequence of frames, with the calls of all frames in order; after a non-empty run the registry holds only keys seen in the last frame, and an empty run changes nothing |
| `Registry.ScanBoxEffect` | object_detection/app.py:127-151 | one detection, case by case: a zero width changes nothing; otherwise the key is seen; a confident key is refreshed at frame time; an unknown one first gets a call that carries its key, label, estimated distance, clock reading and `Speak` outcome |
| `Registry.ZeroWidthSkipped` | object_detection/app.py:127-151 | a zero-width box leaves seen keys, registry, last alert time and calls exactly as they were |
| `Registry.LowConfidenceOnlySeen` | object_detection/app.py:133-137 | a box at or below 0.5 confidence only adds its key to the seen keys |
| `Registry.NewArrivalsMembers` | object_detection/app.py:137-141 | the new arrivals are exactly the confident keys that were not known |
| `Registry.NewArrivalsDistinct` | object_detection/app.py:137-141 | no key arrives twice in one frame |
| `Registry.NewArrivalsNoneWhenKnown` | object_detection/app.py:138-144 | if every confident key is already known, nothing arrives |
| `Registry.ScanBoxCalls` | object_detection/app.py:137-141 | one box appends a call for its key exactly when it is measurable, confident and unregistered |
| `Registry.ScanBoxThrottle` | object_detection/app.py:137-141 | one box keeps the alert history spaced by the cooldown and the last alert time at its latest entry |
| `Registry.ScanKeys` | object_detection/app.py:115-144 | the inner loop adds every measurable box's key to the seen keys and every confident one's to the registry |
| `Registry.ScanCalls` | object_detection/app.py:137-141 | the inner loop calls `speak_object` once per new arrival, in box order |
| `Registry.ScanThrottle` | object_detection/app.py:137-141 | the alerts raised in the inner loop are spaced by the cooldown, and the last alert time ends at the latest one |
| `Registry.ScanNames` | object_detection/app.py:138-144 | every registry entry's class name stays the one its key was built from |
| `Registry.ScanStamps` | object_detection/app.py:138-144 | entries of confident keys get the frame time; every other entry is untouched |
| `Registry.FrameKeys` | object_detection/app.py:115-155 | after a frame the registry keys are (previous keys ∪ confident keys) ∩ seen keys |
| `Registry.FrameValues` | object_detection/app.py:138-155 | surviving entries refreshed this frame carry the frame time; the others keep their old value; class names match keys |
| `Registry.FrameCalls` | object_detection/app.py:137-141 | `speak_object` is called exactly for the confident keys not previously registered, each once, in order of first detection |
| `Registry.ScanCallDetails` | object_detection/app.py:118-141 | every call made by the inner loop announces the first confident detection of its key: its label, its estimated distance and the clock reading it met |
| `Registry.FrameCallDetails` | object_detection/app.py:137-141 | each call of `speak_object` in a frame carries the label and distance of the detection that triggered it, the first confident detection of its key |
| `Registry.CalledKeysRegistered` | object_detection/app.py:138-141 | every key `speak_object` was called for is registered after the frame, even if its alert was suppressed |
| `Registry.FrameThrottle` | object_detection/app.py:137-141 | a frame's alerts are spaced by the cooldown from the last alert before it |
| `Registry.FrameIdempotent` | object_detection/app.py:115-155 | the same boxes processed twice in a row: the second pass calls `speak_object` for nothing and keeps the registry keys and last alert time |
| `Registry.FrameCallCount` | object_detection/app.py:137-155 | in a frame that sees a key, the key triggers no call if registered and at most one otherwise, and is registered afterwards |
| `Registry.RunLowConfidence` | object_detection/app.py:104-155 | a key never detected above 0.5 confidence and not registered at the start is never registered and never announced |
| `Registry.RunContinuouslyVisible` | object_detection/app.py:104-155 | a registered key detected in every frame stays registered and is never announced again |
| `Registry.RunCalledAtMostOnceWhileVisible` | object_detection/app.py:104-155 | a key detected in every frame of a run triggers at most one call over the run (none if already registered) and then stays registered |
| `Registry.RunThrottle` | object_detection/app.py:104-155 | across any run of frames and any clock readings, consecutive alerts are at least SPEAK_COOLDOWN apart |
| `Registry.SingleBoxFrame` | object_detection/app.py:115-155 | a frame with one confident box registers exactly its key and calls `speak_object` only if the key was unknown |
| `Registry.ScenarioVanishAndReturn` | object_detection/app.py:115-155 | an object seen, seen again, gone for one frame and back is announced on first sight and again on its return, never in between |
| `Registry.ScenarioTwoArrivalsOneAlert` | object_detection/app.py:137-141 | two new objects in one frame within one cooldown window: only the first is announced; both are registered |
| `DetectionLoop.Tracker.constructor` | object_detection/app.py:44-45 | the program starts with an empty registry and last alert time 0 |
| `DetectionLoop.Tracker.SpeakObject` | object_detection/app.py:63-99 | the last alert time changes as `Throttle.Speak` says; inside the cooldown nothing changes |
| `DetectionLoop.Tracker.ScanDetection` | object_detection/app.py:121-151 | the loop body for one box changes the registry, seen keys, last alert time and calls exactly as `ScanBox` says |
| `DetectionLoop.Tracker.ScanFrame` | object_detection/app.py:115-151 | the inner loop changes the registry and last alert time, and returns the seen keys and calls, exactly as `ScanBoxes` says |
| `DetectionLoop.Tracker.ProcessFrame` | object_detection/app.py:112-155 | one frame, the inner loop then `Reconcile`, yields `FrameStep`: the registry keys, entry values, calls (exactly the new arrivals, each then registered, each with the label and distance of the detection that triggered it) and spaced alerts above |
| `DetectionLoop.Tracker.Run` | object_detection/app.py:103-161 | the main loop over a run of frames computes `Registry.Run`; its alerts are spaced by the cooldown |

## Left out

- Camera, detector and display are left out: `cap.read`, YOLO inference,
  `model.names`, the `int`/`float` conversions of the box fields, drawing,
  `imshow`/`waitKey`, and the cleanup in `finally` (app.py:14-37, 105-111,
  122-124, 146-148, 157-170). Boxes arrive already converted. The end of the
  frame sequence given to `Run` stands for both a failed frame read and ESC.
- Exceptions in the per-box `try` other than the zero-width division are not
  modelled. This includes a failure in the drawing calls, which run after the
  registry update.
- Speech synthesis, the temporary file, the playback and deletion threads,
  and their error handling are not modelled (app.py:53-61, 72-96). They
  collapse into the input `dispatchOk`: whether the `try` in `speak_object`
  reaches `last_speak_time = current_time`. Playback errors inside the
  background thread do not affect that outcome, as in the code.
- `Registry.RunThrottle` spaces only the alerts the model records, those whose
  `try` reached `last_speak_time = current_time` (app.py:97). In the code the
  playback thread starts at app.py:85, and starting the deletion thread at
  app.py:96 can still raise. That sound then plays but the last alert time is
  not updated, so the next sound may come inside the cooldown. The model
  records such a call as not alerting.
- The text of the alert and of the overlay (`{distance:.1f}`, `{conf:.2f}`)
  is not modelled. `Tracker.SpeakObject` therefore takes no label or
  distance; the distance a call would announce is recorded in `SpeakCall`.
- Floating point is modelled by `real` for distance, confidence and time, so
  no IEEE rounding or `inf` is modelled.
- `OBJECT_TIMEOUT` (app.py:47) is defined but never read, so no time-based
  expiry is modelled. The timestamps in the registry are stored but never
  consulted, as in the code.
- sign_processing/get_signs.py is not part of this model. It is browser
  automation and a web form handler, all of it I/O.

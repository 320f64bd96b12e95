# Car telematics event engine, modelled in Dafny

A model of the event engine of the car-telematics backend in `assignment.js`.
Vehicles post events (`data`, `ignition_on`, `ignition_off`) to `POST /events`.
The server validates each event and appends an accepted one to its vehicle's log.
A `data` event is checked against three alert thresholds, and only a speeding
alert is handed to the notification service. Every accepted event then drives a
per-vehicle trip state machine (no trip / active trip, plus a history of
completed trips). `GET /data/:vehicleId` returns a vehicle's newest ten events
and its event count. `GET /trips/:vehicleId` returns a vehicle's trips.
`POST /admin/cleanup` drops events older than the retention period.

Modules:

- `JsValues`: JSON field values and the JavaScript coercions the handler
  applies to them (truthiness, `== null`, `parseInt`, `parseFloat`, numeric
  comparison with NaN).
- `Events`: the payload, the vehicle-id pattern and the event type.
- `Validation`: `validateIncomingData`.
- `Alerts`: the threshold rules and the notification mock.
- `Trips`: the trip state machine, stated on values.
- `EventLog`: the per-vehicle log and the retention sweep, stated on values.
- `Engine`: the class `TelematicsEngine`. It holds `vehicleDataStore` and
  `vehicleTrips` and updates them in place. Each method is proved against the
  value-level functions above.
- `Scenarios`: the requests of the repository's test client (`validate.js`),
  written as lemmas and small client methods.

The source is a deliberately buggy exercise. The model follows the evident
intent in these places, each also noted in a comment where it is modelled:

- assignment.js:53 tests the misspelt field `data.vehicleI`. The model tests
  `vehicleId` (see Findings).
- assignment.js:63 compares `typeof data.lat` with the unquoted identifier
  `number`. The model reads it as the string `'number'`.
- assignment.js:129 writes `validateIncomingData(...) = false`, an assignment.
  The model rejects exactly the events the validator rejects.
- assignment.js:45 calls `parsefloat`. The distance is a parameter anyway (see
  Left out).
- assignment.js:9 writes the normal limit as `'120km/h'`. `parseInt` at
  assignment.js:145 reads 120 from it, and `Alerts.NormalSpeedLimitParses`
  proves that.
- assignment.js:16 writes the retention period as `"30_days"`. `parseInt` at
  assignment.js:281 reads 30 from it, and `EventLog.RetentionPeriodParses`
  proves that.
- assignment.js:24 calls `new date()`, which throws on every call; every
  log call would then fail, including the one before validation at
  assignment.js:127 and the one inside the notification mock at
  assignment.js:88. The model reads it as `new Date()`, so logging has no
  effect on the outcome.
- assignment.js:113 treats `bodyParser` as a module although it is a string.
  The model takes the body as already parsed.

## Model

| member | source | states |
|---|---|---|
| JsValues.ParseInt | assignment.js:145 | for a string without leading blanks, sign or `0x` prefix, `parseInt` is NaN exactly when the string does not start with a digit, and otherwise the value of the longest run of leading digits |
| JsValues.ParseIntOfDigitsThenText | assignment.js:145 | `parseInt` of digits followed by text that does not start with a digit is the value of those digits |
| JsValues.ToNumber | assignment.js:159-166 | the relational comparison converts a number to itself and undefined to NaN |
| JsValues.ParseFloat | assignment.js:144 | `parseFloat` of a number is that number; of undefined, null or a boolean it is NaN |
| Events.KindOf | assignment.js:125 | the event type is `data` when `type` is falsy or `"data"`, and ignition on/off exactly for those two strings |
| Validation.CheckTypeFields | assignment.js:58-82 | the type-specific checks accept exactly when the type's required fields are present and of the right type; their rejection reasons are never the id or timestamp reasons |
| Validation.Validate | assignment.js:48-83 | accept iff the id is truthy, a timestamp is present, the id matches `^[A-Z0-9]{3}-[0-9]{4}$` and the type's fields are in order; a missing id/timestamp and a bad id format each give their own reason, both ways |
| Validation.AsWrittenRejectsEveryEvent | assignment.js:53 | the validator as written rejects every event, and rejects every valid one for its id format |
| Validation.OutOfRangeIsOnlyAWarning | assignment.js:67-70 | moving numeric coordinates anywhere, in or out of range, never changes the verdict |
| Validation.IgnitionNeedsOnlyIdAndTimestamp | assignment.js:76-77 | an ignition event is accepted iff it has a truthy id, a timestamp and a well-formed id |
| Validation.IdFormatDecides | assignment.js:53-56 | with the other fields in order, an event is rejected iff its id fails the pattern |
| Alerts.AlertsFor | assignment.js:143-170 | at most three alerts; each kind is present iff its strict threshold is crossed, with the value that crossed it, and they come in the order speeding, low fuel, overheating |
| Alerts.Forwarded | assignment.js:147-169 | exactly the speeding alerts go to the notification service |
| Alerts.ForwardedOfAlertsFor | assignment.js:147-169 | a data event hands the notification service exactly one alert, the speeding one, when it is speeding, and none otherwise |
| Alerts.SendAlert | assignment.js:86-94 | the mock fails exactly for vehicle `FAIL-0000` |
| Alerts.NormalSpeedLimitParses | assignment.js:145 | `parseInt('120km/h')` is 120 |
| Alerts.FailureIdIsNotAVehicleId | assignment.js:90 | `FAIL-0000` does not match the id pattern, so the mock never fails for an accepted event |
| Alerts.SpeedingThresholdIsStrict | assignment.js:147-166 | a value equal to a threshold raises no alert, and a speed one above the limit does |
| Trips.CalculateDistance | assignment.js:32-35 | the distance is 0 when a coordinate is null or undefined, and the supplied great-circle distance when all four are numbers |
| Trips.CloseTrip | assignment.js:193-199 | the closed trip ends at the event's time, its duration is end minus start (negative allowed), and its distance is the distance from the start position to the last reported position when a data event reported one, and stays as it was otherwise |
| Trips.TripStep | assignment.js:172-203 | the entry exists iff it existed or the event is ignition_on; a trip is open iff ignition_on, or it was open and the event is not ignition_off; the history is kept as a prefix and grows by one exactly when an open trip is closed |
| Trips.IgnitionOnWhileActiveIsNoOp | assignment.js:179 | ignition_on while a trip is open changes nothing, whatever events came since it opened |
| Trips.IgnitionOnIsIdempotent | assignment.js:179 | in particular a second ignition_on right after the first changes nothing |
| Trips.IgnitionOffWithoutTripIsNoOp | assignment.js:192 | ignition_off with no open trip changes nothing |
| Trips.IgnitionOnOpensTrip | assignment.js:179-188 | ignition_on with no open trip starts one at the event's time and place with distance 0, keeping the history |
| Trips.DataEventMovesLastPosition | assignment.js:172-175 | a data event changes only the last position of an open trip, and nothing without one |
| Trips.IgnitionOffClosesTrip | assignment.js:192-203 | ignition_off on an open trip appends that trip, closed at the event's time, to the history and clears the open slot |
| Trips.HistoryIsAppendOnly | assignment.js:187-201 | over any run of events the earlier history stays a prefix of the later one |
| Trips.DurationsStayConsistent | assignment.js:195 | over any run of events every completed trip's duration stays end minus start |
| EventLog.AppendEvent | assignment.js:136-140 | the event goes to the end of its vehicle's log, created if absent; no other vehicle's log changes |
| EventLog.TotalAfterAppend | assignment.js:140 | appending adds exactly one event to the store |
| EventLog.Recent | assignment.js:239 | the window holds min(10, length) events and is the tail of the log, in order |
| EventLog.Retained | assignment.js:287-290 | the filter keeps exactly the events younger than the retention period, never adds any, and keeps the whole log when all are young |
| EventLog.RetainedAppend | assignment.js:287-290 | the filter works event by event: the survivors of a concatenation are the survivors of each part in turn, so order and multiplicity are kept |
| EventLog.Swept | assignment.js:285-295 | after the sweep a vehicle remains iff some event survives, and it holds exactly its surviving events |
| EventLog.SweepRemovesOnly | assignment.js:285-295 | the sweep never increases the number of stored events |
| EventLog.RetentionPeriodParses | assignment.js:281 | `parseInt("30_days")` is 30, so the retention period is 2592000000 ms |
| Engine.OutcomeOf | assignment.js:125-213 | accepted iff the validator accepts; a rejection carries the validator's reason; an accepted event keeps its id and type; only a data event raises alerts, exactly those of the rules |
| Engine.ApplyTrip | assignment.js:172-203 | only the event's vehicle's trip entry changes, and it takes one step of the trip machine |
| Engine.SweepKeepsLogsWellFormed | assignment.js:292-294 | after the sweep every log is still non-empty and holds only accepted events of its own vehicle |
| Engine.TelematicsEngine.constructor | assignment.js:19-20 | both stores start empty |
| Engine.TelematicsEngine.ProcessEvent | assignment.js:119-214 | a rejected event changes no store and dispatches nothing; an accepted one is appended to its log, advances its trip entry and dispatches exactly the forwarded alerts; the store invariants are kept |
| Engine.TelematicsEngine.AppendToLog | assignment.js:136-140 | the store becomes the append of the entry, and stays well formed |
| Engine.TelematicsEngine.EvaluateAlerts | assignment.js:143-170 | the alerts built step by step are those of the rules, and those handed to the notification service are the forwarded ones, whether or not delivery fails |
| Engine.TelematicsEngine.AdvanceTrip | assignment.js:172-203 | the trip store becomes the one-step update, and every entry keeps a valid id, an open or completed trip, and consistent durations |
| Engine.TelematicsEngine.RecentEvents | assignment.js:229-248 | 400 iff the id is malformed; 404 iff it is well formed and has no log; otherwise the count and the newest-ten window of its log |
| Engine.TelematicsEngine.TripsFor | assignment.js:250-269 | "not found" iff the vehicle has no trip entry; otherwise its history and its open trip |
| Engine.TelematicsEngine.Cleanup | assignment.js:280-298 | the store becomes the sweep of the old one, the returned count plus the events left equals the events before, and the trip store is untouched |
| Engine.TelematicsEngine.SweepAll | assignment.js:285-295 | the loop over every vehicle produces the sweep and counts the dropped events |
| Engine.TelematicsEngine.SweepVehicle | assignment.js:286-294 | one vehicle's log is replaced by its survivors, or removed when none survive, and the count of dropped events is returned |
| Scenarios.UrbanSpeedAtLimitRaisesNothing | validate.js:53-64 | the client's valid urban event at exactly 60 km/h is accepted without alerts |
| Scenarios.NonUrbanSpeedingIsForwarded | validate.js:66-67 | 130 km/h outside town raises one speeding alert against 120, and it is forwarded |
| Scenarios.OverheatingIsNotForwarded | validate.js:69-70 | 100 degrees raises one overheating alert, which is not forwarded |
| Scenarios.NotificationFailureVehicleIsRejected | validate.js:72-73 | the `FAIL-0000` event is rejected for its id format |
| Scenarios.MissingSpeedIsRejected | validate.js:76-86 | a data event without speed is rejected for missing fields |
| Scenarios.TextualLatitudeIsRejected | validate.js:88-89 | a textual latitude is rejected for the coordinate type |
| Scenarios.MalformedIdIsRejected | validate.js:91-92 | `INVALIDID` is rejected for its id format |
| Scenarios.OutOfRangeGpsIsAccepted | validate.js:94-95 | coordinates (200, -300) are out of range, and the event is accepted |
| Scenarios.EarlyIgnitionOffGivesNegativeDuration | validate.js:98-121 | the early ignition_off closes the trip with a duration of minus five minutes and the distance from start to the last data point |
| Scenarios.NormalTripDurationAndDistance | validate.js:123-137 | on, data, off gives one completed trip of fourteen minutes, with the distance from start to the data point |
| Scenarios.RepeatedIgnitionOnThroughTheEngine | assignment.js:177-203 | through the engine, on, on, off gives one trip that starts at the first ignition_on, lasts fourteen minutes and has distance 0 |
| Scenarios.MalformedVehicleHasNoTrips | validate.js:147-151 | the `ACTIVE-TRIP` ignition_on is rejected, so the vehicle has no trips and its data query is a 400 |

## Left out

- The Express setup, body parsing, API-key middleware, `/status`, `startServer` and the error middleware (assignment.js:98-113, 271-278, 300-324) are HTTP plumbing and process lifecycle.
- The 503 guard at assignment.js:120-122 never fires, because `isServerActive` is the constant non-empty string `"true"`. It is not modelled.
- `saveToExternalLog` (assignment.js:216-227) fails at random after a timer. It is not part of this model.
- `logTimestamp` and all console output are I/O only, once `new date()` is read as `new Date()` (see above). The out-of-range coordinate check exists only to log, so it becomes the predicate `CoordinatesOutOfRange`.
- The haversine trigonometry and `toFixed(2)` rounding (assignment.js:28-46) are floating point. The distance is the parameter `haversine` of the engine, and only the guard that returns 0 is modelled.
- `Trips.CalculateDistance`: when an ignition_on carried a string or boolean coordinate, the source would compute with the coerced value or NaN. The model gives 0 whenever a coordinate is not a number.
- The `/trips` display formatting (assignment.js:261-267) is float formatting and string output. `TripsFor` returns the stored records.
- Timestamps are already-parsed instants in milliseconds. An absent or falsy timestamp is `None`. A timestamp string that `new Date` cannot parse (an invalid date) is not modelled.
- `receivedAt` and the cleanup's `now` come from the server clock. They are parameters of `ProcessEvent` and `Cleanup`.
- `JsValues.ToNumber` and `JsValues.ParseFloat` give strings their JavaScript value only when the string is all decimal digits. Strings with a sign, a decimal point, an exponent, blanks or a trailing suffix are treated as NaN.
- JSON objects and arrays as field values are not modelled. `type` and `vehicleId` are compared as strings, and a non-string `vehicleId` never matches the id pattern.
- JsValues.ParseInt: JavaScript's `parseInt` also skips leading blanks, reads a sign and reads a `0x` prefix as hexadecimal (`parseInt("0x1A")` is 26). The model reads decimal digits only, which covers the two configuration strings it is applied to.
- Engine.TelematicsEngine.TripsFor: `vehicleTrips` is a plain object, so a path id such as `constructor`, `toString` or `__proto__` finds an inherited property, skips the 404 and fails on `history.map` with a 500. The model's map has no such entries and answers "not found" for them. `/data` is not affected, because the id pattern is checked first.
- `alertsDuringTrip` (assignment.js:185) is written once and never read. Alert messages are text, so the alerts are datatype values instead.
- The handler is async, but nothing in it awaits before responding. Interleaving of concurrent requests is not modelled.

## Findings

| source | as written | input that shows it | evidently intended | confidence | as-written member | corrected member |
|---|---|---|---|---|---|---|
| assignment.js:53 | the id pattern is tested against `data.vehicleI`, which is undefined for every payload, so every event is rejected with "Invalid vehicleId format" | the client's valid event for `CAR-1234` (validate.js:53-63) | test `data.vehicleId` | not executed | Validation.AsWrittenRejectsEveryEvent | Validation.Validate |

/**
  The inbound telemetry event as the `POST /events` handler receives it, the
  vehicle-id format, and the event type the handler derives from the payload.
*/
module Events {
  import opened Wrappers
  import opened JsValues

  /** `[A-Z0-9]`. */
  predicate IsUpperAlnum(c: char) {
    'A' <= c <= 'Z' || IsDigit(c)
  }

  /**
    `^[A-Z0-9]{3}-[0-9]{4}$` (assignment.js:13): three upper-case letters or
    digits, a hyphen and four digits, nothing before or after.
  */
  predicate IsVehicleId(s: string) {
    && |s| == 8
    && IsUpperAlnum(s[0]) && IsUpperAlnum(s[1]) && IsUpperAlnum(s[2])
    && s[3] == '-'
    && AllDigits(s[4..])
  }

  /**
    `VEHICLE_ID_REGEX.test(v)`. The test converts its argument to a string
    first; undefined, null, booleans and numbers convert to strings ("null",
    "true", "-12.5", "1e-7", ...) that never fit the pattern, so only a string
    value can pass.
  */
  predicate IdMatches(v: JsValue) {
    v.Str? && IsVehicleId(v.s)
  }

  /**
    The request body of `POST /events`. Absent keys are `Undefined`.
    `timestamp` is the instant the ISO-8601 string denotes, in milliseconds
    since the epoch, and `None` when the field is absent or falsy.
  */
  datatype Payload = Payload(
    kind: JsValue,          // the `type` field
    vehicleId: JsValue,
    timestamp: Option<int>,
    lat: JsValue,
    lon: JsValue,
    speed: JsValue,
    fuelLevel: JsValue,
    engineTemp: JsValue,
    isUrbanArea: JsValue)

  datatype EventKind = DataEvent | IgnitionOn | IgnitionOff | UnknownKind

  /**
    The event type: `incomingEvent.type || 'data'`, then compared by strict
    equality with the three known type names.
  */
  function KindOf(p: Payload): (k: EventKind)
    ensures k == DataEvent <==> !Truthy(p.kind) || p.kind == Str("data")
    ensures k == IgnitionOn <==> p.kind == Str("ignition_on")
    ensures k == IgnitionOff <==> p.kind == Str("ignition_off")
  {
    var t := if Truthy(p.kind) then p.kind else Str("data");
    if t == Str("data") then DataEvent
    else if t == Str("ignition_on") then IgnitionOn
    else if t == Str("ignition_off") then IgnitionOff
    else UnknownKind
  }
}

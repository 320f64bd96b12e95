/**
  `validateIncomingData` (assignment.js:48-83): the accept/reject decision on
  one inbound event. It has no effect besides logging, which is left out.
*/
module Validation {
  import opened JsValues
  import opened Events

  /** Which check rejected the event, in the order the checks run. */
  datatype Reason =
    | MissingIdOrTimestamp
    | InvalidIdFormat
    | MissingDataFields
    | InvalidCoordinateType
    | InvalidEngineTemp
    | UnknownEventType

  datatype Verdict = Accept(kind: EventKind) | Reject(reason: Reason)

  /** What each event type needs beyond a vehicle id and a timestamp. */
  predicate HasRequiredFields(p: Payload) {
    match KindOf(p)
    case DataEvent =>
      && p.lat.Num? && p.lon.Num?
      && !p.speed.Undefined? && !p.fuelLevel.Undefined?
      && p.engineTemp.Num?
    case IgnitionOn => true
    case IgnitionOff => true
    case UnknownKind => false
  }

  /**
    Latitude outside [-90, 90] or longitude outside [-180, 180]. The source
    logs this and goes on (assignment.js:67-70): it is a warning only.
  */
  predicate CoordinatesOutOfRange(p: Payload) {
    || (p.lat.Num? && (p.lat.n < -90.0 || p.lat.n > 90.0))
    || (p.lon.Num? && (p.lon.n < -180.0 || p.lon.n > 180.0))
  }

  /** The type-specific checks that follow the id check (assignment.js:58-82). */
  function CheckTypeFields(p: Payload): (r: Verdict)
    ensures r.Accept? <==> HasRequiredFields(p)
    ensures r.Accept? ==> r.kind == KindOf(p)
    ensures r.Reject? ==> r.reason !in {MissingIdOrTimestamp, InvalidIdFormat}
  {
    match KindOf(p)
    case DataEvent =>
      if p.lat.Undefined? || p.lon.Undefined? || p.speed.Undefined? || p.fuelLevel.Undefined? then
        Reject(MissingDataFields)
      // the source compares `typeof data.lat` with the unquoted identifier
      // `number` (assignment.js:63); the evident intent is the string 'number'
      else if !p.lat.Num? || !p.lon.Num? then
        Reject(InvalidCoordinateType)
      // out-of-range coordinates are only logged (assignment.js:67-70)
      else if !p.engineTemp.Num? then
        Reject(InvalidEngineTemp)
      else
        Accept(DataEvent)
    case IgnitionOn => Accept(IgnitionOn)
    case IgnitionOff => Accept(IgnitionOff)
    case UnknownKind => Reject(UnknownEventType)
  }

  /**
    The validator as intended. The source tests the misspelt field
    `data.vehicleI` at assignment.js:53; this definition tests `vehicleId`
    (see ValidateAsWritten for the code as it stands).
  */
  function Validate(p: Payload): (r: Verdict)
    ensures r.Accept? <==>
      && Truthy(p.vehicleId) && p.timestamp.Some?
      && IdMatches(p.vehicleId)
      && HasRequiredFields(p)
    ensures r.Accept? ==> r.kind == KindOf(p) && r.kind != UnknownKind
    ensures r == Reject(MissingIdOrTimestamp) <==> !Truthy(p.vehicleId) || p.timestamp.None?
    ensures r == Reject(InvalidIdFormat) <==>
      Truthy(p.vehicleId) && p.timestamp.Some? && !IdMatches(p.vehicleId)
  {
    if !Truthy(p.vehicleId) || p.timestamp.None? then
      Reject(MissingIdOrTimestamp)
    else if !IdMatches(p.vehicleId) then
      Reject(InvalidIdFormat)
    else
      CheckTypeFields(p)
  }

  /**
    The validator exactly as written: the id test reads `data.vehicleI`, a
    field no payload has, so the regex is tested against undefined.
  */
  function ValidateAsWritten(p: Payload): (r: Verdict)
  {
    if !Truthy(p.vehicleId) || p.timestamp.None? then
      Reject(MissingIdOrTimestamp)
    else if !IdMatches(Undefined) then
      Reject(InvalidIdFormat)
    else
      CheckTypeFields(p)
  }

  /** As written, the validator rejects every event, well-formed or not. */
  lemma AsWrittenRejectsEveryEvent(p: Payload)
    ensures ValidateAsWritten(p).Reject?
    ensures Validate(p).Accept? ==> ValidateAsWritten(p) == Reject(InvalidIdFormat)
  {
  }

  /**
    Out-of-range coordinates never decide the verdict: moving a data event's
    numeric coordinates anywhere leaves it accepted or rejected as before.
  */
  lemma OutOfRangeIsOnlyAWarning(p: Payload, lat: real, lon: real)
    requires p.lat.Num? && p.lon.Num?
    ensures Validate(p.(lat := Num(lat), lon := Num(lon))) == Validate(p)
  {
  }

  /** Ignition events need only a well-formed vehicle id and a timestamp. */
  lemma IgnitionNeedsOnlyIdAndTimestamp(p: Payload)
    requires KindOf(p) in {IgnitionOn, IgnitionOff}
    ensures Validate(p).Accept? <==> Truthy(p.vehicleId) && p.timestamp.Some? && IdMatches(p.vehicleId)
  {
  }

  /**
    With the other fields in order, the id format alone decides: the event is
    rejected exactly when its id fails the pattern.
  */
  lemma IdFormatDecides(p: Payload)
    requires p.vehicleId.Str? && p.vehicleId.s != "" && p.timestamp.Some?
    requires HasRequiredFields(p)
    ensures Validate(p).Reject? <==> !IsVehicleId(p.vehicleId.s)
  {
  }
}

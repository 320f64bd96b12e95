/**
  The per-vehicle trip state machine that the `POST /events` handler drives
  (assignment.js:172-203), stated on values: one step takes the vehicle's
  entry in `vehicleTrips` (absent, or a record holding at most one active trip
  and the history of completed trips) to its entry after one accepted event.
  The engine's ProcessEvent performs the same step in place.
*/
module Trips {
  import opened Wrappers
  import opened JsValues
  import opened Events

  /** `{ lat, lon }` copied from an event; ignition events do not check them. */
  datatype Position = Position(lat: JsValue, lon: JsValue)

  /** `lastPosition`: a position with the instant of the data event that reported it. */
  datatype Fix = Fix(position: Position, time: int)

  /** `currentTrip` while the ignition is on. */
  datatype ActiveTrip = ActiveTrip(
    startTime: int,
    startPosition: Position,
    lastPosition: Option<Fix>,
    totalDistance: real)

  /** A trip moved into `tripHistory` by ignition-off. */
  datatype CompletedTrip = CompletedTrip(
    startTime: int,
    startPosition: Position,
    lastPosition: Option<Fix>,
    endTime: int,
    durationMs: int,
    totalDistance: real)

  /** `vehicleTrips[vehicleId]`. */
  datatype TripRecord = TripRecord(currentTrip: Option<ActiveTrip>, tripHistory: seq<CompletedTrip>)

  /** What one accepted event contributes to the trip machine. */
  datatype TripInput = TripInput(kind: EventKind, time: int, position: Position)

  /**
    The great-circle distance in km between two coordinate pairs
    (lat1, lon1, lat2, lon2), rounded to two decimals; supplied from outside.
  */
  type DistanceFn = (real, real, real, real) -> real

  /**
    `calculateDistance` (assignment.js:32-46): 0 when a coordinate is missing,
    otherwise the supplied great-circle distance.
  */
  function CalculateDistance(haversine: DistanceFn, a: Position, b: Position): (d: real)
    ensures IsNullish(a.lat) || IsNullish(a.lon) || IsNullish(b.lat) || IsNullish(b.lon) ==> d == 0.0
    ensures a.lat.Num? && a.lon.Num? && b.lat.Num? && b.lon.Num? ==>
      d == haversine(a.lat.n, a.lon.n, b.lat.n, b.lon.n)
  {
    if a.lat.Num? && a.lon.Num? && b.lat.Num? && b.lon.Num? then
      haversine(a.lat.n, a.lon.n, b.lat.n, b.lon.n)
    else
      0.0
  }

  predicate IsActive(rec: Option<TripRecord>) {
    rec.Some? && rec.value.currentTrip.Some?
  }

  function History(rec: Option<TripRecord>): seq<CompletedTrip> {
    if rec.Some? then rec.value.tripHistory else []
  }

  /**
    Ignition-off on an active trip: the end time is the event's, the duration
    is end minus start (negative when the events arrive out of order), and the
    distance is computed from the start and the last reported position only
    when a data event reported one.
  */
  function CloseTrip(trip: ActiveTrip, endTime: int, haversine: DistanceFn): (c: CompletedTrip)
    ensures c.durationMs == endTime - trip.startTime
    ensures c.endTime == endTime
    ensures c.startTime == trip.startTime && c.startPosition == trip.startPosition
    ensures c.lastPosition == trip.lastPosition
    ensures trip.lastPosition.None? ==> c.totalDistance == trip.totalDistance
    ensures trip.lastPosition.Some? ==>
      c.totalDistance == CalculateDistance(haversine, trip.startPosition, trip.lastPosition.value.position)
  {
    var distance :=
      if trip.lastPosition.Some? then
        CalculateDistance(haversine, trip.startPosition, trip.lastPosition.value.position)
      else trip.totalDistance;
    CompletedTrip(trip.startTime, trip.startPosition, trip.lastPosition,
                  endTime, endTime - trip.startTime, distance)
  }

  /**
    One transition of the two-state machine NoTrip / Active.
    ignition_on opens a trip unless one is open; a data event moves the last
    position of an open trip; ignition_off closes an open trip into the
    history. Every other case leaves the entry as it was.
  */
  function TripStep(rec: Option<TripRecord>, input: TripInput, haversine: DistanceFn): (r: Option<TripRecord>)
    // an entry is created only by ignition_on and is never removed
    ensures r.None? <==> rec.None? && input.kind != IgnitionOn
    // the state after the step: on opens, off closes, anything else keeps it
    ensures IsActive(r) <==> input.kind == IgnitionOn || (input.kind != IgnitionOff && IsActive(rec))
    // the history is append-only, and grows exactly when an open trip is closed
    ensures History(rec) <= History(r)
    ensures |History(r)| == |History(rec)| + (if input.kind == IgnitionOff && IsActive(rec) then 1 else 0)
  {
    match input.kind
    case DataEvent =>
      if IsActive(rec) then
        var trip := rec.value.currentTrip.value;
        Some(rec.value.(currentTrip := Some(trip.(lastPosition := Some(Fix(input.position, input.time))))))
      else rec
    case IgnitionOn =>
      if !IsActive(rec) then
        Some(TripRecord(Some(ActiveTrip(input.time, input.position, None, 0.0)), History(rec)))
      else rec
    case IgnitionOff =>
      if IsActive(rec) then
        var closed := CloseTrip(rec.value.currentTrip.value, input.time, haversine);
        Some(TripRecord(None, rec.value.tripHistory + [closed]))
      else rec
    case UnknownKind => rec
  }

  /** The entry after a run of events, oldest first. */
  function Replay(rec: Option<TripRecord>, inputs: seq<TripInput>, haversine: DistanceFn): Option<TripRecord>
    decreases |inputs|
  {
    if inputs == [] then rec else Replay(TripStep(rec, inputs[0], haversine), inputs[1..], haversine)
  }

  /** Every completed trip's duration is its end time minus its start time. */
  predicate DurationsConsistent(rec: Option<TripRecord>) {
    forall t :: t in History(rec) ==> t.durationMs == t.endTime - t.startTime
  }

  /** ignition_on while a trip is open changes nothing, whatever came since the trip opened. */
  lemma IgnitionOnWhileActiveIsNoOp(rec: Option<TripRecord>, input: TripInput, haversine: DistanceFn)
    requires input.kind == IgnitionOn && IsActive(rec)
    ensures TripStep(rec, input, haversine) == rec
  {
  }

  /** In particular, a second ignition_on right after the first changes nothing. */
  lemma IgnitionOnIsIdempotent(rec: Option<TripRecord>, first: TripInput, second: TripInput, haversine: DistanceFn)
    requires first.kind == IgnitionOn && second.kind == IgnitionOn
    ensures TripStep(TripStep(rec, first, haversine), second, haversine) == TripStep(rec, first, haversine)
  {
    IgnitionOnWhileActiveIsNoOp(TripStep(rec, first, haversine), second, haversine);
  }

  /** ignition_off with no open trip changes nothing, in particular not the history. */
  lemma IgnitionOffWithoutTripIsNoOp(rec: Option<TripRecord>, input: TripInput, haversine: DistanceFn)
    requires input.kind == IgnitionOff && !IsActive(rec)
    ensures TripStep(rec, input, haversine) == rec
  {
  }

  /** ignition_on opens a trip at the event's time and place with distance 0, keeping the history. */
  lemma IgnitionOnOpensTrip(rec: Option<TripRecord>, input: TripInput, haversine: DistanceFn)
    requires input.kind == IgnitionOn && !IsActive(rec)
    ensures TripStep(rec, input, haversine)
         == Some(TripRecord(Some(ActiveTrip(input.time, input.position, None, 0.0)), History(rec)))
  {
  }

  /** A data event moves only the last position of an open trip; with no open trip it does nothing. */
  lemma DataEventMovesLastPosition(rec: Option<TripRecord>, input: TripInput, haversine: DistanceFn)
    requires input.kind == DataEvent
    ensures !IsActive(rec) ==> TripStep(rec, input, haversine) == rec
    ensures IsActive(rec) ==>
      var trip := rec.value.currentTrip.value;
      TripStep(rec, input, haversine)
        == Some(TripRecord(Some(trip.(lastPosition := Some(Fix(input.position, input.time)))), History(rec)))
  {
  }

  /**
    ignition_off on an open trip appends exactly that trip, closed at the
    event's time, to the end of the history and clears the active slot.
  */
  lemma IgnitionOffClosesTrip(rec: Option<TripRecord>, input: TripInput, haversine: DistanceFn)
    requires input.kind == IgnitionOff && IsActive(rec)
    ensures var trip := rec.value.currentTrip.value;
      TripStep(rec, input, haversine)
        == Some(TripRecord(None, History(rec) + [CloseTrip(trip, input.time, haversine)]))
  {
  }

  /** Over any run of events, the history only grows at its end. */
  lemma {:induction false} HistoryIsAppendOnly(rec: Option<TripRecord>, inputs: seq<TripInput>, haversine: DistanceFn)
    ensures History(rec) <= History(Replay(rec, inputs, haversine))
    decreases |inputs|
  {
    if inputs != [] {
      var next := TripStep(rec, inputs[0], haversine);
      HistoryIsAppendOnly(next, inputs[1..], haversine);
    }
  }

  /** Over any run of events, every completed trip keeps duration = end - start. */
  lemma {:induction false} DurationsStayConsistent(rec: Option<TripRecord>, inputs: seq<TripInput>, haversine: DistanceFn)
    requires DurationsConsistent(rec)
    ensures DurationsConsistent(Replay(rec, inputs, haversine))
    decreases |inputs|
  {
    if inputs != [] {
      var next := TripStep(rec, inputs[0], haversine);
      assert DurationsConsistent(next);
      DurationsStayConsistent(next, inputs[1..], haversine);
    }
  }
}

/**
  The event-processing engine behind `POST /events`, `GET /data/:vehicleId`,
  `GET /trips/:vehicleId` and `POST /admin/cleanup`: the two in-memory maps
  `vehicleDataStore` and `vehicleTrips`, updated in place.
*/
module Engine {
  import opened Wrappers
  import opened JsValues
  import opened Events
  import opened Validation
  import opened Alerts
  import opened Trips
  import opened EventLog

  /** The answer to `POST /events`: 400 with a reason, or 201 with the alerts raised. */
  datatype Outcome =
    | Rejected(reason: Reason)
    | Accepted(kind: EventKind, vehicleId: string, alerts: seq<Alert>)

  /** The answer to `GET /data/:vehicleId`. */
  datatype DataQuery =
    | InvalidVehicleId
    | VehicleNotFound
    | VehicleData(count: nat, recentEvents: seq<LogEntry>)

  /** The answer to `GET /trips/:vehicleId`. */
  datatype TripsQuery =
    | NoTripData
    | TripData(tripHistory: seq<CompletedTrip>, currentTrip: Option<ActiveTrip>)

  /**
    The outcome a payload must get: rejected for the validator's reason, or
    accepted under its own vehicle id with the alerts of a data event (other
    event types raise none).
  */
  function OutcomeOf(p: Payload): (o: Outcome)
    ensures o.Accepted? <==> Validate(p).Accept?
    ensures o.Rejected? ==> o.reason == Validate(p).reason
    ensures o.Accepted? ==>
      && p.vehicleId == Str(o.vehicleId) && IsVehicleId(o.vehicleId)
      && o.kind == KindOf(p) && o.kind != UnknownKind
    ensures o.Accepted? && o.kind != DataEvent ==> o.alerts == []
    ensures o.Accepted? && o.kind == DataEvent ==> o.alerts == AlertsFor(p)
  {
    match Validate(p)
    case Reject(reason) => Rejected(reason)
    case Accept(kind) => Accepted(kind, p.vehicleId.s, if kind == DataEvent then AlertsFor(p) else [])
  }

  /** What an accepted payload feeds to the trip machine. */
  function TripInputOf(p: Payload, kind: EventKind): TripInput
    requires p.timestamp.Some?
  {
    TripInput(kind, p.timestamp.value, Position(p.lat, p.lon))
  }

  /** `vehicleTrips` after one vehicle's entry takes one step; no other entry changes. */
  function ApplyTrip(trips: map<string, TripRecord>, vehicleId: string, input: TripInput, haversine: DistanceFn)
    : (r: map<string, TripRecord>)
    ensures forall k :: k != vehicleId ==> (k in r <==> k in trips)
    ensures forall k :: k in r && k != vehicleId ==> r[k] == trips[k]
    ensures var step := TripStep(if vehicleId in trips then Some(trips[vehicleId]) else None, input, haversine);
      (vehicleId in r <==> step.Some?) && (vehicleId in r ==> r[vehicleId] == step.value)
  {
    match TripStep(if vehicleId in trips then Some(trips[vehicleId]) else None, input, haversine)
    case None => trips
    case Some(rec) => trips[vehicleId := rec]
  }

  /**
    Every stored key is a well-formed vehicle id, every log is non-empty and
    holds only accepted events of its own vehicle.
  */
  ghost predicate LogsWellFormed(store: EventStore) {
    && (forall k :: k in store ==> IsVehicleId(k) && store[k] != [])
    && (forall k, e :: k in store && e in store[k] ==>
          e.payload.vehicleId == Str(k) && Validate(e.payload).Accept?)
  }

  /** The sweep keeps the store well formed. */
  lemma SweepKeepsLogsWellFormed(store: EventStore, now: int)
    requires LogsWellFormed(store)
    ensures LogsWellFormed(Swept(store, now))
  {
  }

  /** A store that agrees with the sweep vehicle by vehicle is the sweep. */
  lemma SweptIsPointwise(store: EventStore, result: EventStore, now: int)
    requires result.Keys <= store.Keys
    requires forall k :: k in store ==> (k in result <==> Retained(store[k], now) != [])
    requires forall k :: k in result ==> result[k] == Retained(store[k], now)
    ensures result == Swept(store, now)
  {
    var swept := Swept(store, now);
    assert result.Keys == swept.Keys;
  }

  /** Forwarding distributes over concatenation. */
  lemma {:induction false} ForwardedAppend(a: seq<Alert>, b: seq<Alert>)
    ensures Forwarded(a + b) == Forwarded(a) + Forwarded(b)
    decreases |a|
  {
    if a != [] {
      assert (a + b)[1..] == a[1..] + b;
      ForwardedAppend(a[1..], b);
    } else {
      assert a + b == b;
    }
  }

  class TelematicsEngine {
    var vehicleDataStore: EventStore
    var vehicleTrips: map<string, TripRecord>
    /** The rounded great-circle distance the source computes in floating point. */
    const haversine: DistanceFn

    /** The event store is well formed (see LogsWellFormed). */
    ghost predicate LogsValid()
      reads this
    {
      LogsWellFormed(vehicleDataStore)
    }

    /**
      Every trip entry belongs to a well-formed vehicle id, has an open trip
      or a completed one, and every completed trip's duration is its end
      minus its start.
    */
    ghost predicate TripsValid()
      reads this
    {
      forall k :: k in vehicleTrips ==>
        && IsVehicleId(k)
        && (vehicleTrips[k].currentTrip.Some? || vehicleTrips[k].tripHistory != [])
        && DurationsConsistent(Some(vehicleTrips[k]))
    }

    ghost predicate Valid()
      reads this
    {
      LogsValid() && TripsValid()
    }

    constructor (haversine: DistanceFn)
      ensures Valid()
      ensures vehicleDataStore == map[] && vehicleTrips == map[]
      ensures this.haversine == haversine
    {
      vehicleDataStore := map[];
      vehicleTrips := map[];
      this.haversine := haversine;
    }

    /**
      The `POST /events` handler (assignment.js:119-214). A rejected event
      changes nothing. An accepted one is appended to its vehicle's log, is
      checked for alerts when it is a data event (the speeding alert is
      handed to the notification service, whose failure is swallowed), and
      is fed to the trip machine. `receivedAt` is the server clock at receipt;
      `dispatched` lists the alerts handed to the notification service.
    */
    method ProcessEvent(p: Payload, receivedAt: int) returns (outcome: Outcome, dispatched: seq<Alert>)
      requires Valid()
      modifies this
      ensures Valid()
      ensures outcome == OutcomeOf(p)
      ensures outcome.Rejected? ==>
        && vehicleDataStore == old(vehicleDataStore)
        && vehicleTrips == old(vehicleTrips)
        && dispatched == []
      ensures outcome.Accepted? ==>
        && vehicleDataStore == AppendEvent(old(vehicleDataStore), outcome.vehicleId, LogEntry(p, receivedAt))
        && vehicleTrips == ApplyTrip(old(vehicleTrips), outcome.vehicleId, TripInputOf(p, outcome.kind), haversine)
        && dispatched == Forwarded(outcome.alerts)
    {
      var verdict := Validate(p);
      // the source writes the test as an assignment, `validateIncomingData(...) = false`
      // (assignment.js:129); the evident intent is to reject an invalid event
      if verdict.Reject? {
        return Rejected(verdict.reason), [];
      }
      var eventType := verdict.kind;
      var vehicleId := p.vehicleId.s;
      var alerts: seq<Alert> := [];
      dispatched := [];
      AppendToLog(vehicleId, LogEntry(p, receivedAt));
      if eventType == DataEvent {
        alerts, dispatched := EvaluateAlerts(p, vehicleId);
      }
      AdvanceTrip(vehicleId, TripInputOf(p, eventType));
      outcome := Accepted(eventType, vehicleId, alerts);
    }

    /** Appends an accepted event to its vehicle's log, creating the log if absent (assignment.js:136-140). */
    method AppendToLog(vehicleId: string, entry: LogEntry)
      requires LogsValid()
      requires entry.payload.vehicleId == Str(vehicleId) && Validate(entry.payload).Accept?
      modifies this`vehicleDataStore
      ensures LogsValid()
      ensures vehicleDataStore == AppendEvent(old(vehicleDataStore), vehicleId, entry)
    {
      if vehicleId !in vehicleDataStore {
        vehicleDataStore := vehicleDataStore[vehicleId := []];
      }
      vehicleDataStore := vehicleDataStore[vehicleId := vehicleDataStore[vehicleId] + [entry]];
    }

    /**
      The alert rules of a data event (assignment.js:143-170), in order:
      speeding (handed to the notification service; a throw there is caught),
      low fuel, overheating.
    */
    method EvaluateAlerts(p: Payload, vehicleId: string) returns (alerts: seq<Alert>, dispatched: seq<Alert>)
      ensures alerts == AlertsFor(p)
      ensures dispatched == Forwarded(alerts)
    {
      alerts, dispatched := [], [];
      var speed := ParseFloat(p.speed);
      var currentSpeedLimit := if Truthy(p.isUrbanArea) then UrbanSpeedLimit else NormalSpeedLimit;
      if speed.Some? && speed.value > currentSpeedLimit as real {
        var alert := Speeding(speed.value, currentSpeedLimit);
        alerts := alerts + [alert];
        var delivered := SendAlert(vehicleId, alert);
        // a failure to deliver is only logged: neither the alerts nor acceptance depend on it
        dispatched := dispatched + [alert];
      }
      assert dispatched == Forwarded(alerts);
      var fuelLevel := ToNumber(p.fuelLevel);
      if fuelLevel.Some? && fuelLevel.value < MinFuelThresholdPercent {
        ForwardedAppend(alerts, [LowFuel(fuelLevel.value)]);
        alerts := alerts + [LowFuel(fuelLevel.value)];
      }
      var engineTemp := ToNumber(p.engineTemp);
      if engineTemp.Some? && engineTemp.value > MaxEngineTempCelsius {
        ForwardedAppend(alerts, [Overheating(engineTemp.value)]);
        alerts := alerts + [Overheating(engineTemp.value)];
      }
    }

    /** Feeds an accepted event to its vehicle's trip entry (assignment.js:172-203). */
    method AdvanceTrip(vehicleId: string, input: TripInput)
      requires TripsValid() && IsVehicleId(vehicleId)
      modifies this`vehicleTrips
      ensures TripsValid()
      ensures vehicleTrips == ApplyTrip(old(vehicleTrips), vehicleId, input, haversine)
    {
      var time := input.time;
      if input.kind == DataEvent {
        if vehicleId in vehicleTrips && vehicleTrips[vehicleId].currentTrip.Some? {
          var record := vehicleTrips[vehicleId];
          var trip := record.currentTrip.value;
          var lastPosition := Fix(input.position, time);
          vehicleTrips := vehicleTrips[vehicleId := record.(currentTrip := Some(trip.(lastPosition := Some(lastPosition))))];
        }
      } else if input.kind == IgnitionOn {
        if vehicleId !in vehicleTrips || vehicleTrips[vehicleId].currentTrip.None? {
          var history := if vehicleId in vehicleTrips then vehicleTrips[vehicleId].tripHistory else [];
          var trip := ActiveTrip(time, input.position, None, 0.0);
          vehicleTrips := vehicleTrips[vehicleId := TripRecord(Some(trip), history)];
        }
      } else if input.kind == IgnitionOff {
        if vehicleId in vehicleTrips && vehicleTrips[vehicleId].currentTrip.Some? {
          var record := vehicleTrips[vehicleId];
          var trip := record.currentTrip.value;
          var endTime := time;
          var durationMs := endTime - trip.startTime;
          var totalDistance := trip.totalDistance;
          // `trip.startPosition` is always an object, so only the last position decides
          if trip.lastPosition.Some? {
            totalDistance := CalculateDistance(haversine, trip.startPosition, trip.lastPosition.value.position);
          }
          var completed := CompletedTrip(trip.startTime, trip.startPosition, trip.lastPosition,
                                         endTime, durationMs, totalDistance);
          vehicleTrips := vehicleTrips[vehicleId := TripRecord(None, record.tripHistory + [completed])];
        }
      }
    }

    /**
      `GET /data/:vehicleId` (assignment.js:229-248): 400 for a malformed id,
      404 for a vehicle with no log, else the event count and the newest ten
      events in insertion order.
    */
    method RecentEvents(vehicleId: string) returns (r: DataQuery)
      ensures r == InvalidVehicleId <==> !IsVehicleId(vehicleId)
      ensures r == VehicleNotFound <==> IsVehicleId(vehicleId) && vehicleId !in vehicleDataStore
      ensures r.VehicleData? ==>
        && vehicleId in vehicleDataStore
        && r.count == |vehicleDataStore[vehicleId]|
        && r.recentEvents == Recent(vehicleDataStore[vehicleId])
    {
      if !IsVehicleId(vehicleId) {
        return InvalidVehicleId;
      }
      if vehicleId in vehicleDataStore {
        var records := vehicleDataStore[vehicleId];
        var from := if |records| - RecentWindow > 0 then |records| - RecentWindow else 0;
        r := VehicleData(|records|, records[from..]);
      } else {
        r := VehicleNotFound;
      }
    }

    /**
      `GET /trips/:vehicleId` (assignment.js:250-269): "not found" exactly
      when the vehicle has no trip entry, which is different from an entry
      with an empty history.
    */
    method TripsFor(vehicleId: string) returns (r: TripsQuery)
      ensures r.NoTripData? <==> vehicleId !in vehicleTrips
      ensures r.TripData? ==>
        && r.tripHistory == vehicleTrips[vehicleId].tripHistory
        && r.currentTrip == vehicleTrips[vehicleId].currentTrip
    {
      if vehicleId !in vehicleTrips {
        return NoTripData;
      }
      var record := vehicleTrips[vehicleId];
      r := TripData(record.tripHistory, record.currentTrip);
    }

    /**
      `POST /admin/cleanup` (assignment.js:280-298): every log keeps only its
      events younger than the retention period, in order; a vehicle whose log
      empties is removed; `removed` is the number of events dropped. The trip
      entries are not touched. `now` is the server clock.
    */
    method Cleanup(now: int) returns (removed: nat)
      requires Valid()
      modifies this
      ensures Valid()
      ensures vehicleDataStore == Swept(old(vehicleDataStore), now)
      ensures removed + Total(vehicleDataStore) == Total(old(vehicleDataStore))
      ensures vehicleTrips == old(vehicleTrips)
    {
      ghost var original := vehicleDataStore;
      removed := SweepAll(now);
      SweepKeepsLogsWellFormed(original, now);
    }

    /** The cleanup loop over every vehicle (assignment.js:285-295). */
    method SweepAll(now: int) returns (removed: nat)
      modifies this`vehicleDataStore
      ensures vehicleDataStore == Swept(old(vehicleDataStore), now)
      ensures removed + Total(vehicleDataStore) == Total(old(vehicleDataStore))
    {
      ghost var original := vehicleDataStore;
      var pending := vehicleDataStore.Keys;
      removed := 0;
      while pending != {}
        invariant pending <= original.Keys
        invariant vehicleDataStore.Keys <= original.Keys
        invariant forall k :: k in pending ==> k in vehicleDataStore && vehicleDataStore[k] == original[k]
        invariant forall k :: k in original && k !in pending ==>
          (k in vehicleDataStore <==> Retained(original[k], now) != [])
        invariant forall k :: k in vehicleDataStore && k !in pending ==>
          vehicleDataStore[k] == Retained(original[k], now)
        invariant removed + Total(vehicleDataStore) == Total(original)
        decreases pending
      {
        var vehicleId :| vehicleId in pending;
        var dropped := SweepVehicle(vehicleId, now);
        removed := removed + dropped;
        pending := pending - {vehicleId};
      }
      SweptIsPointwise(original, vehicleDataStore, now);
    }

    /**
      One turn of the cleanup loop: the vehicle's log is replaced by its
      retained events, the vehicle is removed when none are left, and
      `dropped` is the number of events taken out.
    */
    method SweepVehicle(vehicleId: string, now: int) returns (dropped: nat)
      requires vehicleId in vehicleDataStore
      modifies this`vehicleDataStore
      ensures var kept := Retained(old(vehicleDataStore)[vehicleId], now);
        && dropped == |old(vehicleDataStore)[vehicleId]| - |kept|
        && vehicleDataStore == if kept == [] then old(vehicleDataStore) - {vehicleId}
                               else old(vehicleDataStore)[vehicleId := kept]
      ensures dropped + Total(vehicleDataStore) == Total(old(vehicleDataStore))
    {
      var originalCount := |vehicleDataStore[vehicleId]|;
      var kept := Retained(vehicleDataStore[vehicleId], now);
      TotalAfterReplace(vehicleDataStore, vehicleId, kept);
      vehicleDataStore := vehicleDataStore[vehicleId := kept];
      dropped := originalCount - |kept|;
      if |kept| == 0 {
        TotalWithout(vehicleDataStore, vehicleId);
        vehicleDataStore := vehicleDataStore - {vehicleId};
      }
    }
  }
}

/**
  The scripted requests of the repository's test client (validate.js), as
  statements about the model. Timestamps there are "now minus so many
  minutes"; here `now` is any instant in milliseconds.
*/
module Scenarios {
  import opened Wrappers
  import opened JsValues
  import opened Events
  import opened Validation
  import opened Alerts
  import opened Trips
  import opened Engine

  const Minute: int := 60000

  /** The body of the client's valid data event (validate.js:53-63), for another vehicle. */
  function DataEventFor(vehicleId: string, time: int): Payload {
    Payload(Str("data"), Str(vehicleId), Some(time),
            Num(40.7128), Num(-74.0060), Num(60.0), Num(75.5), Num(88.0), Bool(true))
  }

  /** An ignition event as the client sends it. */
  function IgnitionAt(kind: string, vehicleId: string, time: int, lat: real, lon: real): Payload {
    Payload(Str(kind), Str(vehicleId), Some(time), Num(lat), Num(lon),
            Undefined, Undefined, Undefined, Undefined)
  }

  /** A data point of a trip as the client sends it. */
  function TripPointAt(vehicleId: string, time: int, lat: real, lon: real, speed: real, fuel: real, temp: real): Payload {
    Payload(Str("data"), Str(vehicleId), Some(time), Num(lat), Num(lon),
            Num(speed), Num(fuel), Num(temp), Undefined)
  }

  /** Urban speed exactly at the limit of 60 raises nothing (validate.js:53-64). */
  lemma UrbanSpeedAtLimitRaisesNothing(now: int)
    ensures OutcomeOf(DataEventFor("CAR-1234", now)) == Accepted(DataEvent, "CAR-1234", [])
  {
    assert IsVehicleId("CAR-1234");
  }

  /** 130 km/h outside town raises one speeding alert against 120, and it is forwarded (validate.js:66-67). */
  lemma NonUrbanSpeedingIsForwarded(now: int)
    ensures var p := DataEventFor("SPD-0001", now).(speed := Num(130.0), isUrbanArea := Bool(false));
      && OutcomeOf(p) == Accepted(DataEvent, "SPD-0001", [Speeding(130.0, 120)])
      && Forwarded(OutcomeOf(p).alerts) == [Speeding(130.0, 120)]
  {
    assert IsVehicleId("SPD-0001");
  }

  /** An engine at 100 degrees raises one overheating alert, which is not forwarded (validate.js:69-70). */
  lemma OverheatingIsNotForwarded(now: int)
    ensures var p := DataEventFor("HOT-0001", now).(engineTemp := Num(100.0));
      && OutcomeOf(p) == Accepted(DataEvent, "HOT-0001", [Overheating(100.0)])
      && Forwarded(OutcomeOf(p).alerts) == []
  {
    assert IsVehicleId("HOT-0001");
  }

  /**
    The client's "notification failure" vehicle FAIL-0000 (validate.js:72-73)
    has four letters before the hyphen, so it is rejected before any alert
    is considered.
  */
  lemma NotificationFailureVehicleIsRejected(now: int)
    ensures OutcomeOf(DataEventFor(NotificationFailureId, now).(speed := Num(10.0)))
         == Rejected(InvalidIdFormat)
  {
  }

  /** A data event without speed and engine temperature is rejected (validate.js:76-86). */
  lemma MissingSpeedIsRejected(now: int)
    ensures OutcomeOf(DataEventFor("MIS-0001", now).(speed := Undefined, engineTemp := Undefined))
         == Rejected(MissingDataFields)
  {
    assert IsVehicleId("MIS-0001");
  }

  /** A textual latitude is rejected (validate.js:88-89). */
  lemma TextualLatitudeIsRejected(now: int)
    ensures OutcomeOf(DataEventFor("TYP-0001", now).(lat := Str("not-a-number"), speed := Str("fast")))
         == Rejected(InvalidCoordinateType)
  {
    assert IsVehicleId("TYP-0001");
  }

  /** A vehicle id without the hyphenated form is rejected (validate.js:91-92). */
  lemma MalformedIdIsRejected(now: int)
    ensures OutcomeOf(DataEventFor("INVALIDID", now)) == Rejected(InvalidIdFormat)
  {
  }

  /** Coordinates (200, -300) are out of range and yet accepted (validate.js:94-95). */
  lemma OutOfRangeGpsIsAccepted(now: int)
    ensures var p := DataEventFor("GPS-0001", now).(lat := Num(200.0), lon := Num(-300.0));
      && CoordinatesOutOfRange(p)
      && OutcomeOf(p) == Accepted(DataEvent, "GPS-0001", [])
  {
    assert IsVehicleId("GPS-0001");
  }

  /**
    Ignition on five minutes ago, two data points, then ignition off with a
    timestamp ten minutes ago: the trip closes with a duration of minus five
    minutes (validate.js:98-121).
  */
  lemma EarlyIgnitionOffGivesNegativeDuration(now: int, haversine: DistanceFn)
    ensures
      var on := TripInput(IgnitionOn, now - 5 * Minute, Position(Num(40.7000), Num(-74.0000)));
      var d1 := TripInput(DataEvent, now - 4 * Minute, Position(Num(40.7050), Num(-74.0020)));
      var d2 := TripInput(DataEvent, now - 3 * Minute, Position(Num(40.7100), Num(-74.0040)));
      var off := TripInput(IgnitionOff, now - 10 * Minute, Position(Num(40.7150), Num(-74.0050)));
      var r := Replay(None, [on, d1, d2, off], haversine);
      && r.Some? && r.value.currentTrip.None? && |r.value.tripHistory| == 1
      && r.value.tripHistory[0].durationMs == -5 * Minute
      && r.value.tripHistory[0].totalDistance == haversine(40.7000, -74.0000, 40.7100, -74.0040)
  {
    var on := TripInput(IgnitionOn, now - 5 * Minute, Position(Num(40.7000), Num(-74.0000)));
    var d1 := TripInput(DataEvent, now - 4 * Minute, Position(Num(40.7050), Num(-74.0020)));
    var d2 := TripInput(DataEvent, now - 3 * Minute, Position(Num(40.7100), Num(-74.0040)));
    var off := TripInput(IgnitionOff, now - 10 * Minute, Position(Num(40.7150), Num(-74.0050)));
    var inputs := [on, d1, d2, off];
    var r1 := TripStep(None, on, haversine);
    var r2 := TripStep(r1, d1, haversine);
    var r3 := TripStep(r2, d2, haversine);
    var r4 := TripStep(r3, off, haversine);
    assert r3 == Some(TripRecord(Some(ActiveTrip(now - 5 * Minute, on.position, Some(Fix(d2.position, d2.time)), 0.0)), []));
    assert Replay(r4, [], haversine) == r4;
    assert Replay(r3, [off], haversine) == r4;
    assert Replay(r2, [d2, off], haversine) == r4 by { assert [d2, off][1..] == [off]; }
    assert Replay(r1, [d1, d2, off], haversine) == r4 by { assert [d1, d2, off][1..] == [d2, off]; }
    assert inputs[1..] == [d1, d2, off];
  }

  /**
    The client's second trip (validate.js:123-137): ignition on fifteen
    minutes ago, one data point, ignition off a minute ago. One completed trip
    of fourteen minutes whose distance runs from the start to the data point
    (the ignition-off position is not used), and no open trip.
  */
  lemma NormalTripDurationAndDistance(now: int, haversine: DistanceFn)
    ensures
      var on := TripInput(IgnitionOn, now - 15 * Minute, Position(Num(40.8000), Num(-73.9000)));
      var d := TripInput(DataEvent, now - 10 * Minute, Position(Num(40.8050), Num(-73.9020)));
      var off := TripInput(IgnitionOff, now - Minute, Position(Num(40.8100), Num(-73.9040)));
      var r := Replay(None, [on, d, off], haversine);
      && r.Some? && r.value.currentTrip.None? && |r.value.tripHistory| == 1
      && r.value.tripHistory[0].durationMs == 14 * Minute
      && r.value.tripHistory[0].totalDistance == haversine(40.8000, -73.9000, 40.8050, -73.9020)
  {
    var on := TripInput(IgnitionOn, now - 15 * Minute, Position(Num(40.8000), Num(-73.9000)));
    var d := TripInput(DataEvent, now - 10 * Minute, Position(Num(40.8050), Num(-73.9020)));
    var off := TripInput(IgnitionOff, now - Minute, Position(Num(40.8100), Num(-73.9040)));
    var r1 := TripStep(None, on, haversine);
    var r2 := TripStep(r1, d, haversine);
    var r3 := TripStep(r2, off, haversine);
    assert r2 == Some(TripRecord(Some(ActiveTrip(now - 15 * Minute, on.position, Some(Fix(d.position, d.time)), 0.0)), []));
    assert Replay(r3, [], haversine) == r3;
    assert Replay(r2, [off], haversine) == r3;
    assert Replay(r1, [d, off], haversine) == r3 by { assert [d, off][1..] == [off]; }
    assert [on, d, off][1..] == [d, off];
  }

  /**
    Through the engine: ignition_on twice, then ignition_off. The second
    ignition_on does not restart the trip, so the one completed trip runs
    from the first; with no data event in between its distance stays 0.
  */
  method RepeatedIgnitionOnThroughTheEngine(now: int, haversine: DistanceFn) returns (trips: TripsQuery)
    ensures trips.TripData? && trips.currentTrip.None? && |trips.tripHistory| == 1
    ensures trips.tripHistory[0].startTime == now - 15 * Minute
    ensures trips.tripHistory[0].durationMs == 14 * Minute
    ensures trips.tripHistory[0].totalDistance == 0.0
  {
    var engine := new TelematicsEngine(haversine);
    var id := "TRP-0002";
    assert IsVehicleId(id);
    var start := Position(Num(40.8000), Num(-73.9000));
    ghost var open := ActiveTrip(now - 15 * Minute, start, None, 0.0);

    var on := IgnitionAt("ignition_on", id, now - 15 * Minute, 40.8000, -73.9000);
    assert Validate(on) == Accept(IgnitionOn);
    var outcome, dispatched := engine.ProcessEvent(on, now);
    assert engine.vehicleTrips[id] == TripRecord(Some(open), []);

    var again := IgnitionAt("ignition_on", id, now - 10 * Minute, 40.8050, -73.9020);
    assert Validate(again) == Accept(IgnitionOn);
    outcome, dispatched := engine.ProcessEvent(again, now);
    assert engine.vehicleTrips[id] == TripRecord(Some(open), []);

    var off := IgnitionAt("ignition_off", id, now - Minute, 40.8100, -73.9040);
    assert Validate(off) == Accept(IgnitionOff);
    outcome, dispatched := engine.ProcessEvent(off, now);
    assert engine.vehicleTrips[id] == TripRecord(None, [CloseTrip(open, now - Minute, haversine)]);
    trips := engine.TripsFor(id);
  }

  /**
    A vehicle that never reached the trip machine is "not found" (validate.js:147-151:
    the id ACTIVE-TRIP is malformed, so its ignition_on is rejected).
  */
  method MalformedVehicleHasNoTrips(now: int, haversine: DistanceFn) returns (trips: TripsQuery, events: DataQuery)
    ensures trips == NoTripData
    ensures events == InvalidVehicleId
  {
    var engine := new TelematicsEngine(haversine);
    var outcome, dispatched := engine.ProcessEvent(IgnitionAt("ignition_on", "ACTIVE-TRIP", now, 40.0, -74.0), now);
    trips := engine.TripsFor("ACTIVE-TRIP");
    events := engine.RecentEvents("ACTIVE-TRIP");
  }
}

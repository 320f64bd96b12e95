/**
  The three threshold rules the `POST /events` handler applies to a `data`
  event (assignment.js:143-170), and the mock notification service that the
  speeding alert is forwarded to (assignment.js:86-94).
*/
module Alerts {
  import opened Wrappers
  import opened JsValues
  import opened Events

  /** MAX_SPEED_LIMIT_URBAN (assignment.js:10). */
  const UrbanSpeedLimit: int := 60
  /** MAX_SPEED_LIMIT_NORMAL as configured (assignment.js:9): a string. */
  const NormalSpeedLimitSetting: string := "120km/h"
  /** `parseInt(MAX_SPEED_LIMIT_NORMAL)` (assignment.js:145); see NormalSpeedLimitParses. */
  const NormalSpeedLimit: int := 120
  /** MIN_FUEL_THRESHOLD_PERCENT (assignment.js:11). */
  const MinFuelThresholdPercent: real := 10.0
  /** MAX_ENGINE_TEMP_CELSIUS (assignment.js:12). */
  const MaxEngineTempCelsius: real := 95.0
  /** The vehicle id for which the mock notification service throws (assignment.js:90). */
  const NotificationFailureId: string := "FAIL-0000"

  /** An alert with the value that raised it; the message text is formatting. */
  datatype Alert =
    | Speeding(speed: real, limit: int)
    | LowFuel(level: real)
    | Overheating(temp: real)

  /** The position of each kind in the alert list. */
  function Rank(a: Alert): nat {
    match a
    case Speeding(_, _) => 0
    case LowFuel(_) => 1
    case Overheating(_) => 2
  }

  /** The speed limit in force: urban when `isUrbanArea` is truthy. */
  function SpeedLimitFor(p: Payload): int {
    if Truthy(p.isUrbanArea) then UrbanSpeedLimit else NormalSpeedLimit
  }

  /** `parseFloat(speed) > limit`. */
  predicate IsSpeeding(p: Payload) {
    Exceeds(ParseFloat(p.speed), SpeedLimitFor(p) as real)
  }

  /** `fuelLevel < 10.0`. */
  predicate IsLowOnFuel(p: Payload) {
    FallsBelow(ToNumber(p.fuelLevel), MinFuelThresholdPercent)
  }

  /** `engineTemp > 95.0`. */
  predicate IsOverheating(p: Payload) {
    Exceeds(ToNumber(p.engineTemp), MaxEngineTempCelsius)
  }

  /**
    The alerts a `data` event raises. Each rule fires exactly when its strict
    threshold is crossed, independently of the others, and the list keeps
    the fixed order speeding, low fuel, overheating.
  */
  function AlertsFor(p: Payload): (alerts: seq<Alert>)
    ensures |alerts| <= 3
    ensures (exists a :: a in alerts && a.Speeding?) <==> IsSpeeding(p)
    ensures (exists a :: a in alerts && a.LowFuel?) <==> IsLowOnFuel(p)
    ensures (exists a :: a in alerts && a.Overheating?) <==> IsOverheating(p)
    ensures forall i, j :: 0 <= i < j < |alerts| ==> Rank(alerts[i]) < Rank(alerts[j])
    ensures forall a :: a in alerts && a.Speeding? ==>
      IsSpeeding(p) && a == Speeding(ParseFloat(p.speed).value, SpeedLimitFor(p))
    ensures forall a :: a in alerts && a.LowFuel? ==>
      IsLowOnFuel(p) && a == LowFuel(ToNumber(p.fuelLevel).value)
    ensures forall a :: a in alerts && a.Overheating? ==>
      IsOverheating(p) && a == Overheating(ToNumber(p.engineTemp).value)
  {
    var speeding := if IsSpeeding(p) then [Speeding(ParseFloat(p.speed).value, SpeedLimitFor(p))] else [];
    var lowFuel := if IsLowOnFuel(p) then [LowFuel(ToNumber(p.fuelLevel).value)] else [];
    var overheating := if IsOverheating(p) then [Overheating(ToNumber(p.engineTemp).value)] else [];
    var alerts := speeding + lowFuel + overheating;
    assert IsSpeeding(p) ==> speeding[0] in alerts;
    assert IsLowOnFuel(p) ==> lowFuel[0] in alerts;
    assert IsOverheating(p) ==> overheating[0] in alerts;
    alerts
  }

  /**
    The alerts handed to the notification service: only speeding alerts
    (the overheating call is commented out at assignment.js:169, and low fuel
    is only logged).
  */
  function Forwarded(alerts: seq<Alert>): (r: seq<Alert>)
    ensures |r| <= |alerts|
    ensures forall a :: a in r <==> a in alerts && a.Speeding?
  {
    if alerts == [] then []
    else (if alerts[0].Speeding? then [alerts[0]] else []) + Forwarded(alerts[1..])
  }

  /**
    A data event hands the notification service exactly one alert when it is
    speeding, and none otherwise.
  */
  lemma ForwardedOfAlertsFor(p: Payload)
    ensures Forwarded(AlertsFor(p))
         == if IsSpeeding(p) then [Speeding(ParseFloat(p.speed).value, SpeedLimitFor(p))] else []
  {
    var alerts := AlertsFor(p);
    var rest := if alerts != [] && alerts[0].Speeding? then alerts[1..] else alerts;
    assert forall a :: a in rest ==> !a.Speeding?;
    ForwardedOfNoSpeeding(rest);
  }

  /** Without a speeding alert nothing is forwarded. */
  lemma {:induction false} ForwardedOfNoSpeeding(alerts: seq<Alert>)
    requires forall a :: a in alerts ==> !a.Speeding?
    ensures Forwarded(alerts) == []
  {
    if alerts != [] {
      ForwardedOfNoSpeeding(alerts[1..]);
    }
  }

  /**
    `NotificationService.sendAlert`, the mock: it throws for one vehicle id
    and succeeds otherwise. `delivered` is false where the mock throws. The
    log call before the test is taken to work: assignment.js:24 writes
    `new date()`, and the evident intent is `new Date()`.
  */
  method SendAlert(vehicleId: string, alert: Alert) returns (delivered: bool)
    ensures delivered <==> vehicleId != NotificationFailureId
  {
    delivered := vehicleId != NotificationFailureId;
  }

  /** The configured string limit parses to 120 km/h. */
  lemma NormalSpeedLimitParses()
    ensures ParseInt(NormalSpeedLimitSetting) == Some(NormalSpeedLimit)
  {
    var digits, rest := "120", "km/h";
    assert NormalSpeedLimitSetting == digits + rest;
    assert AllDigits(digits) by {
      assert digits[0] == '1' && digits[1] == '2' && digits[2] == '0';
    }
    ParseIntOfDigitsThenText(digits, rest);
    assert digits[..2] == "12" && digits[..1] == "1";
    assert DigitsValue(digits) == 120;
  }

  /** The mock's failing id is not a well-formed vehicle id, so it never fails for an accepted event. */
  lemma FailureIdIsNotAVehicleId()
    ensures !IsVehicleId(NotificationFailureId)
  {
  }

  /** Thresholds are strict: at the limit no alert, above it an alert. */
  lemma SpeedingThresholdIsStrict(p: Payload)
    ensures ParseFloat(p.speed) == Some(SpeedLimitFor(p) as real) ==> !IsSpeeding(p)
    ensures ParseFloat(p.speed) == Some(SpeedLimitFor(p) as real + 1.0) ==> IsSpeeding(p)
    ensures ToNumber(p.fuelLevel) == Some(MinFuelThresholdPercent) ==> !IsLowOnFuel(p)
    ensures ToNumber(p.engineTemp) == Some(MaxEngineTempCelsius) ==> !IsOverheating(p)
  {
  }
}

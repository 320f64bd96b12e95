/**
  `vehicleDataStore`, stated on values: the per-vehicle log of accepted
  events, the window the `/data/:vehicleId` query returns
  (assignment.js:236-247) and the retention filter of `/admin/cleanup`
  (assignment.js:280-295). The engine updates the store in place; these
  functions say what the result must be.
*/
module EventLog {
  import opened Wrappers
  import opened JsValues
  import opened Events

  /** `{ ...incomingEvent, receivedAt }`: the payload and the instant it was received. */
  datatype LogEntry = LogEntry(payload: Payload, receivedAt: int)

  type EventStore = map<string, seq<LogEntry>>

  /** How many of the newest events `/data/:vehicleId` returns. */
  const RecentWindow: nat := 10

  /** DATA_RETENTION_PERIOD_DAYS as configured (assignment.js:16): a string. */
  const RetentionPeriodSetting: string := "30_days"
  /** `parseInt("30_days")` days (assignment.js:281); see RetentionPeriodParses. */
  const RetentionDays: nat := 30
  const RetentionMillis: int := RetentionDays * 24 * 60 * 60 * 1000

  function Min(a: int, b: int): int {
    if a < b then a else b
  }

  /** A vehicle's log, or the empty log it is created with. */
  function LogOf(store: EventStore, vehicleId: string): seq<LogEntry> {
    if vehicleId in store then store[vehicleId] else []
  }

  /**
    An accepted event goes to the end of its vehicle's log, which is created
    when absent; every other vehicle's log stays as it was.
  */
  function AppendEvent(store: EventStore, vehicleId: string, e: LogEntry): (r: EventStore)
    ensures r.Keys == store.Keys + {vehicleId}
    ensures r[vehicleId] == LogOf(store, vehicleId) + [e]
    ensures forall k :: k in store && k != vehicleId ==> r[k] == store[k]
  {
    store[vehicleId := LogOf(store, vehicleId) + [e]]
  }

  /** The newest ten events of a log, oldest first. */
  function Recent(log: seq<LogEntry>): (r: seq<LogEntry>)
    ensures |r| == Min(RecentWindow, |log|)
    ensures log == log[..|log| - |r|] + r
  {
    log[|log| - Min(RecentWindow, |log|)..]
  }

  /** `event.timestamp || event.receivedAt`. */
  function EventTime(e: LogEntry): int {
    if e.payload.timestamp.Some? then e.payload.timestamp.value else e.receivedAt
  }

  /** The cleanup filter: an event survives while it is younger than the retention period. */
  predicate IsRetained(e: LogEntry, now: int) {
    now - EventTime(e) < RetentionMillis
  }

  /** `log.filter(...)`: the retained events, in their original order. */
  function Retained(log: seq<LogEntry>, now: int): (r: seq<LogEntry>)
    ensures |r| <= |log|
    ensures forall e :: e in r <==> e in log && IsRetained(e, now)
    ensures (forall e :: e in log ==> IsRetained(e, now)) ==> r == log
    decreases |log|
  {
    if log == [] then []
    else
      var rest := Retained(log[1..], now);
      if IsRetained(log[0], now) then [log[0]] + rest else rest
  }

  /**
    The filter works event by event: the survivors of a log are the survivors
    of its first part followed by those of the rest, so they keep their order
    and their multiplicity.
  */
  lemma {:induction false} RetainedAppend(a: seq<LogEntry>, b: seq<LogEntry>, now: int)
    ensures Retained(a + b, now) == Retained(a, now) + Retained(b, now)
    decreases |a|
  {
    if a == [] {
      assert a + b == b;
    } else {
      assert (a + b)[1..] == a[1..] + b;
      RetainedAppend(a[1..], b, now);
    }
  }

  /**
    The store after the sweep: each vehicle keeps its retained events, and a
    vehicle with none left is removed.
  */
  function Swept(store: EventStore, now: int): (r: EventStore)
    ensures r.Keys <= store.Keys
    ensures forall k :: k in store ==> (k in r <==> Retained(store[k], now) != [])
    ensures forall k :: k in r ==> r[k] == Retained(store[k], now)
  {
    map k | k in store && Retained(store[k], now) != [] :: Retained(store[k], now)
  }

  /** The number of events in the store. */
  ghost function Total(store: EventStore): nat
    decreases |store|
  {
    if store == map[] then 0
    else
      var k :| k in store;
      assert |store - {k}| < |store| by {
        assert (store - {k}).Keys == store.Keys - {k};
      }
      |store[k]| + Total(store - {k})
  }

  /** The total splits off any one vehicle's log, whichever the sum picked first. */
  lemma {:induction false} TotalWithout(store: EventStore, k: string)
    requires k in store
    ensures Total(store) == |store[k]| + Total(store - {k})
    decreases |store|
  {
    var j :| j in store && Total(store) == |store[j]| + Total(store - {j});
    if j != k {
      var both := store - {j} - {k};
      assert |store - {j}| < |store| by {
        assert (store - {j}).Keys == store.Keys - {j};
      }
      TotalWithout(store - {j}, k);
      assert store - {j} - {k} == both;
      assert |store - {k}| < |store| by {
        assert (store - {k}).Keys == store.Keys - {k};
      }
      TotalWithout(store - {k}, j);
      assert store - {k} - {j} == both;
    }
  }

  /** Replacing one vehicle's log changes the total by the difference in length. */
  lemma TotalAfterReplace(store: EventStore, k: string, log: seq<LogEntry>)
    requires k in store
    ensures Total(store[k := log]) + |store[k]| == Total(store) + |log|
  {
    TotalWithout(store, k);
    TotalWithout(store[k := log], k);
    assert store[k := log] - {k} == store - {k};
  }

  /** Appending an event adds exactly one event to the store, whether or not its vehicle had a log. */
  lemma TotalAfterAppend(store: EventStore, vehicleId: string, e: LogEntry)
    ensures Total(AppendEvent(store, vehicleId, e)) == Total(store) + 1
  {
    var r := AppendEvent(store, vehicleId, e);
    if vehicleId in store {
      TotalAfterReplace(store, vehicleId, r[vehicleId]);
    } else {
      TotalWithout(r, vehicleId);
      assert r - {vehicleId} == store;
    }
  }

  /** Sweeping commutes with dropping a vehicle. */
  lemma SweptWithout(store: EventStore, k: string, now: int)
    ensures Swept(store - {k}, now) == Swept(store, now) - {k}
  {
    var a, b := Swept(store - {k}, now), Swept(store, now) - {k};
    assert a.Keys == b.Keys;
    forall j | j in a ensures a[j] == b[j] {
      assert (store - {k})[j] == store[j];
    }
  }

  /** The sweep never adds events. */
  lemma {:induction false} SweepRemovesOnly(store: EventStore, now: int)
    ensures Total(Swept(store, now)) <= Total(store)
    decreases |store|
  {
    if store != map[] {
      var k :| k in store;
      var rest := store - {k};
      assert |rest| < |store| by {
        assert rest.Keys == store.Keys - {k};
      }
      SweepRemovesOnly(rest, now);
      TotalWithout(store, k);
      var s := Swept(store, now);
      SweptWithout(store, k, now);
      if k in s {
        TotalWithout(s, k);
      } else {
        assert s == s - {k};
      }
    }
  }

  /** The retention string parses to 30 days. */
  lemma RetentionPeriodParses()
    ensures ParseInt(RetentionPeriodSetting) == Some(RetentionDays)
    ensures RetentionMillis == 2592000000
  {
    var digits, rest := "30", "_days";
    assert RetentionPeriodSetting == digits + rest;
    assert AllDigits(digits) by {
      assert digits[0] == '3' && digits[1] == '0';
    }
    ParseIntOfDigitsThenText(digits, rest);
    assert digits[..1] == "3";
    assert DigitsValue(digits) == 30;
  }
}

/**
 * The alert component (src/components/AlertSystem.tsx): on every new reading, each of four
 * metrics may raise one toast, danger before warning, and each alert key is rate-limited by a
 * 30-second cooldown kept in a mutable dictionary. The clock is a parameter; toasts are the
 * returned alerts.
 */
module AlertSystem {
  import opened Common
  import opened ObdData

  /** Milliseconds between two alerts under the same key. */
  const Cooldown: int := 30000

  datatype Metric = EngineTemp | BatteryVoltage | FuelPressure | BatterySOC

  /** The metrics in the order the effect checks them. */
  const Metrics: seq<Metric> := [EngineTemp, BatteryVoltage, FuelPressure, BatterySOC]

  function Name(m: Metric): string {
    match m
    case EngineTemp => "engineTemp"
    case BatteryVoltage => "batteryVoltage"
    case FuelPressure => "fuelPressure"
    case BatterySOC => "batterySOC"
  }

  /** The cooldown key of a metric's alert at a level: "engineTemp-danger" and so on. */
  function Key(m: Metric, level: Level): string
    requires level != Normal
  {
    Name(m) + (if level == Danger then "-danger" else "-warning")
  }

  /** A metric's danger and warning alerts are rate-limited separately. */
  lemma DangerKeyIsNotWarningKey(m: Metric)
    ensures Key(m, Danger) != Key(m, Warning)
  {
    assert |Key(m, Danger)| < |Key(m, Warning)|;
  }

  /** The thresholds (src/components/AlertSystem.tsx:19-24): engine temperature alerts from above, the rest from below. */
  predicate DangerHolds(m: Metric, r: Reading) {
    match m
    case EngineTemp => r.engineTemp >= 105.0
    case BatteryVoltage => r.batteryVoltage <= 12.0
    case FuelPressure => r.fuelRailPressure <= 120.0
    case BatterySOC => r.batterySOC <= 50.0
  }

  predicate WarningHolds(m: Metric, r: Reading) {
    match m
    case EngineTemp => r.engineTemp >= 95.0
    case BatteryVoltage => r.batteryVoltage <= 12.2
    case FuelPressure => r.fuelRailPressure <= 150.0
    case BatterySOC => r.batterySOC <= 70.0
  }

  /** Every danger condition implies its warning condition: the warning bands are the wider ones. */
  lemma DangerWithinWarning(m: Metric, r: Reading)
    ensures DangerHolds(m, r) ==> WarningHolds(m, r)
  {
  }

  /**
   * The engine-temperature alert levels are the dashboard's `getStatus(engineTemp, 95, 105)`
   * levels.
   */
  lemma EngineTempMatchesGetStatus(r: Reading)
    ensures DangerHolds(EngineTemp, r) <==> GetStatus(r.engineTemp, 95.0, 105.0) == Danger
    ensures WarningHolds(EngineTemp, r) <==> GetStatus(r.engineTemp, 95.0, 105.0) != Normal
  {
  }

  /**
   * The voltage alert bounds are inclusive while `getVoltageStatus`'s are exclusive: the two
   * agree everywhere except at exactly 12.0 V (a danger alert, a warning status) and exactly
   * 12.2 V (a warning alert, a normal status).
   */
  lemma VoltageAlertVersusStatus(r: Reading)
    ensures r.batteryVoltage != 12.0 ==> (DangerHolds(BatteryVoltage, r) <==> GetVoltageStatus(r.batteryVoltage) == Danger)
    ensures r.batteryVoltage != 12.2 ==> (WarningHolds(BatteryVoltage, r) <==> GetVoltageStatus(r.batteryVoltage) != Normal)
    ensures r.batteryVoltage == 12.0 ==> DangerHolds(BatteryVoltage, r) && GetVoltageStatus(r.batteryVoltage) == Warning
    ensures r.batteryVoltage == 12.2 ==> WarningHolds(BatteryVoltage, r) && GetVoltageStatus(r.batteryVoltage) == Normal
  {
  }

  // ---------------------------------------------------------------- the cooldown map

  /** `lastAlerts.current[key] || 0`: a missing entry reads as time zero. */
  function LastAlert(last: map<string, int>, key: string): int {
    if key in last then last[key] else 0
  }

  /** Whether `shouldAlert(key)` says yes at time `now`. */
  predicate CooledDown(last: map<string, int>, key: string, now: int) {
    now - LastAlert(last, key) > Cooldown
  }

  /** One raised toast. */
  datatype Alert = Alert(metric: Metric, level: Level)

  /**
   * One metric's if/else-if (for engine temperature src/components/AlertSystem.tsx:42-54):
   * `shouldAlert` is consulted only when the threshold holds, and the warning branch is tried
   * when the danger threshold fails or its key is cooling down.
   */
  function CheckMetric(last: map<string, int>, m: Metric, r: Reading, now: int): (out: (Option<Alert>, map<string, int>))
    ensures out.0.Some? ==> out.0.value.metric == m && out.0.value.level != Normal
    ensures out.0.Some? ==> WarningHolds(m, r)
    ensures out.0.None? ==> out.1 == last
    ensures last.Keys <= out.1.Keys
  {
    if DangerHolds(m, r) && CooledDown(last, Key(m, Danger), now) then
      (Some(Alert(m, Danger)), last[Key(m, Danger) := now])
    else if WarningHolds(m, r) && CooledDown(last, Key(m, Warning), now) then
      (Some(Alert(m, Warning)), last[Key(m, Warning) := now])
    else
      (None, last)
  }

  /**
   * A metric raises at most one alert, of the level whose threshold holds and whose key has
   * cooled down, danger first; its key alone is stamped with `now`, and without an alert the
   * map is unchanged.
   */
  lemma CheckMetricFacts(last: map<string, int>, m: Metric, r: Reading, now: int)
    ensures var (alert, last') := CheckMetric(last, m, r, now);
      && (alert.None? ==> last' == last)
      && (alert.Some? ==>
            && alert.value.metric == m && alert.value.level != Normal
            && last' == last[Key(m, alert.value.level) := now])
      && (alert == Some(Alert(m, Danger)) <==> DangerHolds(m, r) && CooledDown(last, Key(m, Danger), now))
      && (alert == Some(Alert(m, Warning)) <==>
            && !(DangerHolds(m, r) && CooledDown(last, Key(m, Danger), now))
            && WarningHolds(m, r) && CooledDown(last, Key(m, Warning), now))
  {
  }

  /** A cooldown entry changes only while its own threshold holds. */
  lemma CooldownNeedsThreshold(last: map<string, int>, m: Metric, r: Reading, now: int)
    ensures var last' := CheckMetric(last, m, r, now).1;
      && (!DangerHolds(m, r) ==> LastAlert(last', Key(m, Danger)) == LastAlert(last, Key(m, Danger)))
      && (!WarningHolds(m, r) ==> last' == last)
  {
    var last' := CheckMetric(last, m, r, now).1;
    if !DangerHolds(m, r) && WarningHolds(m, r) && CooledDown(last, Key(m, Warning), now) {
      DangerKeyIsNotWarningKey(m);
    }
  }

  /** The alerts and the new map after checking `metrics` in order. */
  function CheckAll(last: map<string, int>, metrics: seq<Metric>, r: Reading, now: int)
    : (out: (seq<Alert>, map<string, int>))
    ensures |out.0| <= |metrics|
    ensures forall a :: a in out.0 ==> a.metric in metrics && a.level != Normal
    ensures last.Keys <= out.1.Keys
    decreases |metrics|
  {
    if metrics == [] then ([], last)
    else
      var (alert, last') := CheckMetric(last, metrics[0], r, now);
      var (rest, last'') := CheckAll(last', metrics[1..], r, now);
      (Raised(alert) + rest, last'')
  }

  /** The toast an optional alert shows, as a list of zero or one alerts. */
  function Raised(alert: Option<Alert>): seq<Alert> {
    if alert.Some? then [alert.value] else []
  }

  /** Checking a list of distinct metrics raises alerts only for those metrics, at most one each. */
  lemma {:induction false} CheckAllAlerts(last: map<string, int>, metrics: seq<Metric>, r: Reading, now: int)
    requires forall i, j :: 0 <= i < j < |metrics| ==> metrics[i] != metrics[j]
    ensures var alerts := CheckAll(last, metrics, r, now).0;
      && |alerts| <= |metrics|
      && (forall a :: a in alerts ==> a.metric in metrics && a.level != Normal)
      && (forall i, j :: 0 <= i < j < |alerts| ==> alerts[i].metric != alerts[j].metric)
    decreases |metrics|
  {
    if metrics != [] {
      var (alert, last1) := CheckMetric(last, metrics[0], r, now);
      CheckMetricFacts(last, metrics[0], r, now);
      CheckAllAlerts(last1, metrics[1..], r, now);
      var rest := CheckAll(last1, metrics[1..], r, now).0;
      assert CheckAll(last, metrics, r, now).0 == Raised(alert) + rest;
      forall a | a in rest
        ensures a.metric in metrics[1..] && a.metric != metrics[0]
      {
      }
    }
  }

  /** Some alert in `alerts` has `key` as its cooldown key. */
  ghost predicate Stamped(alerts: seq<Alert>, key: string) {
    exists a :: a in alerts && a.level != Normal && key == Key(a.metric, a.level)
  }

  /** Checking a list of metrics keeps every cooldown key, and adds only the keys of raised alerts. */
  lemma {:induction false} CheckAllKeys(last: map<string, int>, metrics: seq<Metric>, r: Reading, now: int)
    ensures var (alerts, last') := CheckAll(last, metrics, r, now);
      && (forall key :: key in last ==> key in last')
      && (forall key :: key in last' && key !in last ==> Stamped(alerts, key))
    decreases |metrics|
  {
    if metrics != [] {
      var (alert, last1) := CheckMetric(last, metrics[0], r, now);
      CheckMetricFacts(last, metrics[0], r, now);
      CheckAllKeys(last1, metrics[1..], r, now);
      var (rest, last2) := CheckAll(last1, metrics[1..], r, now);
      var alerts := Raised(alert) + rest;
      assert CheckAll(last, metrics, r, now) == (alerts, last2);
      forall key | key in last2 && key !in last
        ensures Stamped(alerts, key)
      {
        if key !in last1 {
          var a :| a in rest && a.level != Normal && key == Key(a.metric, a.level);
          assert a in alerts;
        } else {
          assert alerts[0] == alert.value;
        }
      }
    }
  }

  /** Checking a list of metrics gives a new time only to the keys of raised alerts. */
  lemma {:induction false} CheckAllStamps(last: map<string, int>, metrics: seq<Metric>, r: Reading, now: int)
    ensures var (alerts, last') := CheckAll(last, metrics, r, now);
      forall key :: key in last && key in last' && last'[key] != last[key] ==> Stamped(alerts, key)
    decreases |metrics|
  {
    if metrics != [] {
      var (alert, last1) := CheckMetric(last, metrics[0], r, now);
      CheckMetricFacts(last, metrics[0], r, now);
      CheckAllKeys(last1, metrics[1..], r, now);
      CheckAllStamps(last1, metrics[1..], r, now);
      var (rest, last2) := CheckAll(last1, metrics[1..], r, now);
      var alerts := Raised(alert) + rest;
      assert CheckAll(last, metrics, r, now) == (alerts, last2);
      forall key | key in last && key in last2 && last2[key] != last[key]
        ensures Stamped(alerts, key)
      {
        if last1[key] != last[key] {
          assert alerts[0] == alert.value;
        } else {
          var a :| a in rest && a.level != Normal && key == Key(a.metric, a.level);
          assert a in alerts;
        }
      }
    }
  }

  /** Checking a list is checking its first metric, then the rest on the map that check left. */
  lemma CheckAllStep(last: map<string, int>, m: Metric, rest: seq<Metric>, r: Reading, now: int)
    ensures var (alert, last1) := CheckMetric(last, m, r, now);
      CheckAll(last, [m] + rest, r, now)
        == (Raised(alert) + CheckAll(last1, rest, r, now).0, CheckAll(last1, rest, r, now).1)
  {
    assert ([m] + rest)[1..] == rest;
  }

  /** Checking `Metrics` is the four metric checks one after another, each on the map the last left. */
  lemma CheckAllInOrder(last: map<string, int>, r: Reading, now: int)
    ensures
      var (a1, l1) := CheckMetric(last, EngineTemp, r, now);
      var (a2, l2) := CheckMetric(l1, BatteryVoltage, r, now);
      var (a3, l3) := CheckMetric(l2, FuelPressure, r, now);
      var (a4, l4) := CheckMetric(l3, BatterySOC, r, now);
      CheckAll(last, Metrics, r, now) == (Raised(a1) + Raised(a2) + Raised(a3) + Raised(a4), l4)
  {
    var (a1, l1) := CheckMetric(last, EngineTemp, r, now);
    var (a2, l2) := CheckMetric(l1, BatteryVoltage, r, now);
    var (a3, l3) := CheckMetric(l2, FuelPressure, r, now);
    var (a4, l4) := CheckMetric(l3, BatterySOC, r, now);
    assert Metrics == [EngineTemp] + ([BatteryVoltage] + ([FuelPressure] + ([BatterySOC] + [])));
    CheckAllStep(l3, BatterySOC, [], r, now);
    CheckAllStep(l2, FuelPressure, [BatterySOC] + [], r, now);
    CheckAllStep(l1, BatteryVoltage, [FuelPressure] + ([BatterySOC] + []), r, now);
    CheckAllStep(last, EngineTemp, [BatteryVoltage] + ([FuelPressure] + ([BatterySOC] + [])), r, now);
    AlertsAssociate(Raised(a1), Raised(a2), Raised(a3), Raised(a4));
  }

  lemma AlertsAssociate(s1: seq<Alert>, s2: seq<Alert>, s3: seq<Alert>, s4: seq<Alert>)
    ensures s1 + (s2 + (s3 + (s4 + []))) == s1 + s2 + s3 + s4
  {
    assert s4 + [] == s4;
  }

  /**
   * One data update raises at most one alert per metric, at most four in all, engine
   * temperature's first; only the keys of raised alerts get a new time.
   */
  lemma OneAlertPerMetric(last: map<string, int>, r: Reading, now: int)
    ensures var (alerts, last') := CheckAll(last, Metrics, r, now);
      && |alerts| <= 4
      && (forall i, j :: 0 <= i < j < |alerts| ==> alerts[i].metric != alerts[j].metric)
      && (forall key :: key in last ==> key in last')
      && (forall key :: key in last' && (key !in last || last'[key] != last[key]) ==> Stamped(alerts, key))
  {
    CheckAllAlerts(last, Metrics, r, now);
    CheckAllKeys(last, Metrics, r, now);
    CheckAllStamps(last, Metrics, r, now);
  }

  /**
   * At exactly 12.2 V the voltage warning fires (once its key has cooled down) although
   * `getVoltageStatus` rates 12.2 V as normal.
   */
  lemma WarningAtNormalVoltage(last: map<string, int>, r: Reading, now: int)
    requires r.batteryVoltage == 12.2 && CooledDown(last, Key(BatteryVoltage, Warning), now)
    ensures CheckMetric(last, BatteryVoltage, r, now).0 == Some(Alert(BatteryVoltage, Warning))
    ensures GetVoltageStatus(r.batteryVoltage) == Normal
  {
  }

  // ---------------------------------------------------------------- the component

  class AlertSystem {
    /** `lastAlerts.current`: the last alert time per key. */
    var lastAlerts: map<string, int>

    constructor()
      ensures lastAlerts == map[]
    {
      lastAlerts := map[];
    }

    /**
     * `shouldAlert` (src/components/AlertSystem.tsx:28-38): yes exactly when more than the
     * cooldown has passed since the key's last alert, and then the key alone is stamped.
     */
    method ShouldAlert(key: string, now: int) returns (r: bool)
      modifies this
      ensures r <==> CooledDown(old(lastAlerts), key, now)
      ensures r ==> lastAlerts == old(lastAlerts)[key := now]
      ensures !r ==> lastAlerts == old(lastAlerts)
    {
      var lastAlert := if key in lastAlerts then lastAlerts[key] else 0;
      if now - lastAlert > Cooldown {
        lastAlerts := lastAlerts[key := now];
        return true;
      }
      return false;
    }

    /** One metric's if/else-if, with `shouldAlert` evaluated only after its threshold. */
    method AlertFor(m: Metric, r: Reading, now: int) returns (alert: Option<Alert>)
      modifies this
      ensures (alert, lastAlerts) == CheckMetric(old(lastAlerts), m, r, now)
    {
      var fire := false;
      if DangerHolds(m, r) {
        fire := ShouldAlert(Key(m, Danger), now);
      }
      if fire {
        return Some(Alert(m, Danger));
      }
      if WarningHolds(m, r) {
        fire := ShouldAlert(Key(m, Warning), now);
      }
      if fire {
        return Some(Alert(m, Warning));
      }
      return None;
    }

    /**
     * The effect run on every new reading (src/components/AlertSystem.tsx:40-101): engine
     * temperature, battery voltage, fuel pressure and battery charge, in that order.
     */
    method OnData(r: Reading, now: int) returns (alerts: seq<Alert>)
      modifies this
      ensures (alerts, lastAlerts) == CheckAll(old(lastAlerts), Metrics, r, now)
    {
      ghost var last0 := lastAlerts;
      var engine := AlertFor(EngineTemp, r, now);
      var voltage := AlertFor(BatteryVoltage, r, now);
      var fuel := AlertFor(FuelPressure, r, now);
      var charge := AlertFor(BatterySOC, r, now);
      alerts := Raised(engine) + Raised(voltage) + Raised(fuel) + Raised(charge);
      CheckAllInOrder(last0, r, now);
    }
  }
}

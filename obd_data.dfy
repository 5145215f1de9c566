/**
 * Telemetry bookkeeping of the `useOBDData` hook (src/hooks/useOBDData.ts): the current reading,
 * the four bounded history series, the simulated tick that refreshes them, and the two
 * normal/warning/danger classifiers. The random variation and the wall clock of a tick are
 * parameters; the numbers are exact `real`s.
 */
module ObdData {

  /** One reading of every channel the dashboard shows. */
  datatype Reading = Reading(
    rpm: real, speed: real, engineTemp: real, throttlePosition: real, engineLoad: real,
    batteryVoltage: real, batteryCurrent: real, batterySOC: real, batteryTemp: real,
    fuelRailPressure: real, fuelFlow: real,
    mapPressure: real, boostPressure: real, intakeTemp: real,
    dtcCount: int, glowPlugStatus: bool, connected: bool,
    timestamp: int)

  /** The reading the hook starts from, stamped with the clock at mount time. */
  function InitialReading(now: int): (r: Reading)
    ensures r.connected && r.timestamp == now
    ensures r.rpm == 800.0 && r.engineTemp == 88.0 && r.batteryVoltage == 12.4
  {
    Reading(800.0, 0.0, 88.0, 0.0, 15.0, 12.4, -2.1, 85.0, 24.0, 180.0, 0.8, 101.3, 0.0, 22.0, 0, false, true, now)
  }

  /** The already rounded random values one simulated tick draws. */
  datatype Sample = Sample(
    engineTemp: real, batteryVoltage: real, rpm: real, boostPressure: real,
    throttlePosition: real, engineLoad: real, fuelFlow: real, intakeTemp: real)

  function Max(a: real, b: real): real {
    if a >= b then a else b
  }

  /**
   * `simulateRealisticData` (src/hooks/useOBDData.ts:73-95): the eight simulated channels and
   * the timestamp are replaced, the boost pressure clamped at zero; every other field is the
   * previous reading's.
   */
  function Simulate(prev: Reading, s: Sample, now: int): (r: Reading)
    ensures r.boostPressure >= 0.0
  {
    prev.(engineTemp := s.engineTemp, batteryVoltage := s.batteryVoltage, rpm := s.rpm,
          boostPressure := Max(0.0, s.boostPressure), throttlePosition := s.throttlePosition,
          engineLoad := s.engineLoad, fuelFlow := s.fuelFlow, intakeTemp := s.intakeTemp,
          timestamp := now)
  }

  /**
   * A tick carries over every field it does not simulate, the connection flag among them, and
   * takes the sampled values as they are (the boost pressure at least zero).
   */
  lemma SimulateCarriesOver(prev: Reading, s: Sample, now: int)
    ensures var r := Simulate(prev, s, now);
      && r.speed == prev.speed && r.batteryCurrent == prev.batteryCurrent
      && r.batterySOC == prev.batterySOC && r.batteryTemp == prev.batteryTemp
      && r.fuelRailPressure == prev.fuelRailPressure && r.mapPressure == prev.mapPressure
      && r.dtcCount == prev.dtcCount && r.glowPlugStatus == prev.glowPlugStatus
      && r.connected == prev.connected
      && r.engineTemp == s.engineTemp && r.batteryVoltage == s.batteryVoltage && r.rpm == s.rpm
      && r.throttlePosition == s.throttlePosition && r.engineLoad == s.engineLoad
      && r.fuelFlow == s.fuelFlow && r.intakeTemp == s.intakeTemp && r.timestamp == now
      && (s.boostPressure >= 0.0 ==> r.boostPressure == s.boostPressure)
      && (s.boostPressure < 0.0 ==> r.boostPressure == 0.0)
  {
  }

  // ---------------------------------------------------------------- history series

  /** One charted point: the tick's local time label and the channel's value. */
  datatype Point = Point(time: string, value: real)

  /** How many points a series keeps. */
  const Window: nat := 30

  /** `series.slice(-n)` for `n > 0`: the last `n` points, or all of them when there are fewer. */
  function LastPoints(series: seq<Point>, n: nat): (r: seq<Point>)
    ensures |r| <= n && |r| <= |series|
  {
    if |series| <= n then series else series[|series| - n..]
  }

  /** `[...series.slice(-29), point]` (src/hooks/useOBDData.ts:101-104). */
  function Push(series: seq<Point>, p: Point): (r: seq<Point>)
    ensures 1 <= |r| <= Window
  {
    LastPoints(series, Window - 1) + [p]
  }

  /**
   * The pushed point is last, and it is preceded by the last `min(29, n)` old points in their
   * original order.
   */
  lemma PushKeepsNewest(series: seq<Point>, p: Point)
    ensures var r := Push(series, p);
      && r[|r| - 1] == p
      && |r| - 1 == (if |series| < Window - 1 then |series| else Window - 1)
      && forall i :: 0 <= i < |r| - 1 ==> r[i] == series[|series| - (|r| - 1) + i]
  {
  }

  /** Pushing `points` one after another onto `series`. */
  function PushAll(series: seq<Point>, points: seq<Point>): (r: seq<Point>)
    decreases |points|
  {
    if points == [] then series else PushAll(Push(series, points[0]), points[1..])
  }

  /**
   * Pushing onto a series that already is a window of `points` keeps a window: the series
   * holds the last `min(30, |before + points|)` of all points ever pushed, oldest first.
   */
  lemma {:induction false} PushAllKeepsWindow(before: seq<Point>, points: seq<Point>)
    requires |before| <= Window
    ensures var all := before + points;
      PushAll(before, points) == LastPoints(all, Window)
    decreases |points|
  {
    if points != [] {
      var next := Push(before, points[0]);
      assert next == LastPoints(before + [points[0]], Window);
      PushAllKeepsWindow(next, points[1..]);
      assert before + points == (before + [points[0]]) + points[1..];
      LastPointsOfSuffix(before + [points[0]], points[1..]);
    }
  }

  /** Keeping the last window of a longer history is the same as trimming early. */
  lemma LastPointsOfSuffix(prefix: seq<Point>, rest: seq<Point>)
    ensures LastPoints(LastPoints(prefix, Window) + rest, Window) == LastPoints(prefix + rest, Window)
  {
    var a := LastPoints(prefix, Window) + rest;
    var b := prefix + rest;
    var la, lb := LastPoints(a, Window), LastPoints(b, Window);
    assert |la| == |lb|;
    forall i | 0 <= i < |la|
      ensures la[i] == lb[i]
    {
      var off := |prefix| - |LastPoints(prefix, Window)|;
      assert b[off..] == a;
    }
  }

  /**
   * Forty pushes onto an empty series leave thirty points, the first of them the eleventh
   * push: the oldest points are evicted first.
   */
  lemma FortyPushes(points: seq<Point>)
    requires |points| == 40
    ensures |PushAll([], points)| == 30
    ensures PushAll([], points)[0] == points[10]
    ensures PushAll([], points)[29] == points[39]
  {
    PushAllKeepsWindow([], points);
    assert [] + points == points;
  }

  /** The four charted series. */
  datatype History = History(
    engineTemp: seq<Point>, batteryVoltage: seq<Point>, rpm: seq<Point>, boostPressure: seq<Point>)

  /** A series within the window whose newest point is `p`. */
  predicate Latest(series: seq<Point>, p: Point) {
    1 <= |series| <= Window && series[|series| - 1] == p
  }

  /**
   * `addHistoricalPoint` (src/hooks/useOBDData.ts:97-106): every series gets the reading's
   * value, all under the same time label.
   */
  function AddHistoricalPoint(h: History, r: Reading, time: string): (h': History)
    ensures Latest(h'.engineTemp, Point(time, r.engineTemp))
    ensures Latest(h'.batteryVoltage, Point(time, r.batteryVoltage))
    ensures Latest(h'.rpm, Point(time, r.rpm))
    ensures Latest(h'.boostPressure, Point(time, r.boostPressure))
  {
    PushKeepsNewest(h.engineTemp, Point(time, r.engineTemp));
    PushKeepsNewest(h.batteryVoltage, Point(time, r.batteryVoltage));
    PushKeepsNewest(h.rpm, Point(time, r.rpm));
    PushKeepsNewest(h.boostPressure, Point(time, r.boostPressure));
    History(Push(h.engineTemp, Point(time, r.engineTemp)),
            Push(h.batteryVoltage, Point(time, r.batteryVoltage)),
            Push(h.rpm, Point(time, r.rpm)),
            Push(h.boostPressure, Point(time, r.boostPressure)))
  }

  /** The four series are equally long and carry the same time label at every position. */
  predicate Aligned(h: History) {
    && |h.batteryVoltage| == |h.engineTemp| && |h.rpm| == |h.engineTemp| && |h.boostPressure| == |h.engineTemp|
    && forall i :: 0 <= i < |h.engineTemp| ==>
         && h.batteryVoltage[i].time == h.engineTemp[i].time
         && h.rpm[i].time == h.engineTemp[i].time
         && h.boostPressure[i].time == h.engineTemp[i].time
  }

  /** Pushing points with the same label onto two series with the same labels keeps them alike. */
  lemma PushKeepsLabels(a: seq<Point>, b: seq<Point>, pa: Point, pb: Point)
    requires |a| == |b| && forall i :: 0 <= i < |a| ==> a[i].time == b[i].time
    requires pa.time == pb.time
    ensures |Push(a, pa)| == |Push(b, pb)|
    ensures forall i :: 0 <= i < |Push(a, pa)| ==> Push(a, pa)[i].time == Push(b, pb)[i].time
  {
    PushKeepsNewest(a, pa);
    PushKeepsNewest(b, pb);
  }

  /** Adding a point keeps the series aligned and bounded by the window, the new label last. */
  lemma AddHistoricalPointAligned(h: History, r: Reading, time: string)
    requires Aligned(h)
    ensures var h' := AddHistoricalPoint(h, r, time);
      && Aligned(h')
      && 1 <= |h'.engineTemp| <= Window
      && h'.engineTemp[|h'.engineTemp| - 1] == Point(time, r.engineTemp)
  {
    var e := Point(time, r.engineTemp);
    PushKeepsNewest(h.engineTemp, e);
    PushKeepsLabels(h.batteryVoltage, h.engineTemp, Point(time, r.batteryVoltage), e);
    PushKeepsLabels(h.rpm, h.engineTemp, Point(time, r.rpm), e);
    PushKeepsLabels(h.boostPressure, h.engineTemp, Point(time, r.boostPressure), e);
  }

  // ---------------------------------------------------------------- classifiers

  datatype Level = Normal | Warning | Danger

  function Rank(l: Level): nat {
    match l
    case Normal => 0
    case Warning => 1
    case Danger => 2
  }

  /** `getStatus` (src/hooks/useOBDData.ts:122-126): higher is worse. */
  function GetStatus(value: real, warning: real, danger: real): (l: Level)
    ensures l == Danger <==> value >= danger
    ensures l == Warning <==> warning <= value < danger
    ensures l == Normal <==> value < warning && value < danger
  {
    if value >= danger then Danger
    else if value >= warning then Warning
    else Normal
  }

  /** With the warning threshold at or below the danger one, a larger value is never rated better. */
  lemma GetStatusMonotone(v1: real, v2: real, warning: real, danger: real)
    requires warning <= danger && v1 <= v2
    ensures Rank(GetStatus(v1, warning, danger)) <= Rank(GetStatus(v2, warning, danger))
  {
  }

  const VoltageDanger: real := 12.0
  const VoltageWarning: real := 12.2

  /** `getVoltageStatus` (src/hooks/useOBDData.ts:128-132): lower is worse, both bounds exclusive. */
  function GetVoltageStatus(voltage: real): (l: Level)
    ensures l == Danger <==> voltage < 12.0
    ensures l == Warning <==> 12.0 <= voltage < 12.2
    ensures l == Normal <==> voltage >= 12.2
  {
    if voltage < VoltageDanger then Danger
    else if voltage < VoltageWarning then Warning
    else Normal
  }

  /** A lower voltage is never rated better. */
  lemma GetVoltageStatusAntitone(v1: real, v2: real)
    requires v1 <= v2
    ensures Rank(GetVoltageStatus(v1)) >= Rank(GetVoltageStatus(v2))
  {
  }

  // ---------------------------------------------------------------- the hook

  /** The hook's state: the latest reading and the charted history. */
  class ObdDataHook {
    var data: Reading
    var history: History

    ghost predicate Valid()
      reads this
    {
      data.connected && Aligned(history) && |history.engineTemp| <= Window
    }

    /** Mounting: the initial reading and empty series. */
    constructor(now: int)
      ensures Valid()
      ensures data == InitialReading(now) && history == History([], [], [], [])
    {
      data := InitialReading(now);
      history := History([], [], [], []);
    }

    /**
     * One interval tick (src/hooks/useOBDData.ts:109-113): a simulated reading replaces the
     * data, and its values are added to the history under the tick's time label.
     */
    method Tick(s: Sample, now: int, time: string)
      requires Valid()
      modifies this
      ensures Valid()
      ensures data == Simulate(old(data), s, now)
      ensures history == AddHistoricalPoint(old(history), data, time)
    {
      data := Simulate(data, s, now);
      AddHistoricalPointAligned(history, data, time);
      history := AddHistoricalPoint(history, data, time);
    }

    /** `isConnected: data.connected` (src/hooks/useOBDData.ts:139): true for the hook's whole life. */
    method IsConnected() returns (r: bool)
      requires Valid()
      ensures r
    {
      r := data.connected;
    }
  }
}

/** The measurement store as a function of the report history. */
module MeasurementHistory {
  import opened Types
  import opened Firmware
  import opened FanTimer

  datatype Cluster = TemperatureCluster | HumidityCluster | PM25Cluster

  /** A stored field: a truncated hundredth for the first two clusters, the level itself for the third. */
  datatype Reading = Whole(value: Int16) | Level(level: Float)

  predicate Reports(e: Event, c: Cluster) {
    e.action.Reported? &&
    match c
    case TemperatureCluster => e.action.report.Temperature?
    case HumidityCluster => e.action.report.Humidity?
    case PM25Cluster => e.action.report.PM25?
  }

  function ReadingOf(e: Event, c: Cluster): Reading
    requires Reports(e, c)
  {
    if c == PM25Cluster then Level(e.action.report.level) else Whole(TruncDiv100(e.action.report.raw))
  }

  function InitialReading(c: Cluster): Reading {
    if c == PM25Cluster then Level(Finite(0.0)) else Whole(0)
  }

  predicate Changed(r: Reading, s: Reading) {
    match (r, s)
    case (Level(f), Level(g)) => f == NaN || g == NaN || f != g
    case _ => r != s
  }

  /** The last report of the cluster, or -1. */
  function LastReport(es: seq<Event>, c: Cluster): (i: int)
    ensures -1 <= i < |es|
    ensures 0 <= i ==> Reports(es[i], c)
    ensures forall j :: i < j < |es| ==> !Reports(es[j], c)
  {
    if es == [] then -1
    else if Reports(es[|es| - 1], c) then |es| - 1
    else LastReport(es[..|es| - 1], c)
  }

  /** What the last report of the cluster said. */
  function LastReading(es: seq<Event>, c: Cluster): Reading {
    var i := LastReport(es, c);
    if i < 0 then InitialReading(c) else ReadingOf(es[i], c)
  }

  /** The last reported PM2.5 level, 0 if there was none. */
  function LastLevel(es: seq<Event>): Float {
    var i := LastReport(es, PM25Cluster);
    if i < 0 then Finite(0.0) else es[i].action.report.level
  }

  /** Event i reports something else than the reports of its cluster before it. */
  predicate ChangesReading(es: seq<Event>, c: Cluster, i: nat)
    requires i < |es|
  {
    Reports(es[i], c) && Changed(LastReading(es[..i], c), ReadingOf(es[i], c))
  }

  /** The last report that changed the reading of the cluster, or -1. */
  function LastChange(es: seq<Event>, c: Cluster): (i: int)
    ensures -1 <= i < |es|
  {
    if es == [] then -1
    else if ChangesReading(es, c, |es| - 1) then |es| - 1
    else LastChange(es[..|es| - 1], c)
  }

  lemma {:induction false} LastChangeIsLast(es: seq<Event>, c: Cluster)
    ensures var i := LastChange(es, c);
            && (0 <= i ==> ChangesReading(es, c, i))
            && (forall j :: i < j < |es| ==> !ChangesReading(es, c, j))
  {
    if es != [] {
      var p := es[..|es| - 1];
      LastChangeIsLast(p, c);
      forall j | 0 <= j < |p| ensures ChangesReading(p, c, j) == ChangesReading(es, c, j) {
        assert p[..j] == es[..j] && p[j] == es[j];
      }
    }
  }

  function Field(m: Measurements, c: Cluster): Reading {
    match c
    case TemperatureCluster => Whole(m.temperature)
    case HumidityCluster => Whole(m.humidity)
    case PM25Cluster => Level(m.pm25)
  }

  function UpdateTime(m: Measurements, c: Cluster): int {
    match c
    case TemperatureCluster => m.lastTempUpdate
    case HumidityCluster => m.lastHumidityUpdate
    case PM25Cluster => m.lastPM25Update
  }

  lemma OnlyReportsMeasure(f: State, e: Event)
    requires !e.action.PoweredOn?
    ensures Step(f, e).measurements ==
      if e.action.Reported? then Recorded(f.measurements, e.action.report, e.clock.entry) else f.measurements
  {
  }

  lemma MeasurementStep(f: State, e: Event, c: Cluster)
    requires !e.action.PoweredOn?
    ensures var m, n := f.measurements, Step(f, e).measurements;
            if !Reports(e, c) then Field(n, c) == Field(m, c) && UpdateTime(n, c) == UpdateTime(m, c)
            else
              && Field(n, c) == ReadingOf(e, c)
              && UpdateTime(n, c) == if Changed(Field(m, c), ReadingOf(e, c)) then e.clock.entry else UpdateTime(m, c)
  {
    OnlyReportsMeasure(f, e);
  }

  /**
   * In every run since power-on, each field holds what the last report of its own cluster said (0 if there was
   * none), and its update time is that of the last report that changed it; other events never disturb either.
   */
  lemma {:induction false} MeasurementsAreHistory(f: State, opens: bool, es: seq<Event>, c: Cluster)
    requires OnePowerCycle(es)
    ensures var m := Run(OnPowerOn(f, opens), es).measurements;
            && Field(m, c) == LastReading(es, c)
            && UpdateTime(m, c) == if LastChange(es, c) < 0 then 0 else es[LastChange(es, c)].clock.entry
  {
    if es != [] {
      var n := |es| - 1;
      MeasurementsAreHistory(f, opens, es[..n], c);
      MeasurementStep(Run(OnPowerOn(f, opens), es[..n]), es[n], c);
    }
  }

  lemma StoredLevelIsLast(f: State, opens: bool, es: seq<Event>)
    requires OnePowerCycle(es)
    ensures Run(OnPowerOn(f, opens), es).measurements.pm25 == LastLevel(es)
  {
    MeasurementsAreHistory(f, opens, es, PM25Cluster);
  }

  /** The division that scales readings loses less than one unit and never moves away from zero. */
  lemma TruncatesTowardZero(x: Int16)
    ensures var q := TruncDiv100(x);
            && -100 < x - 100 * q < 100
            && (x >= 0 ==> 0 <= 100 * q <= x)
            && (x <= 0 ==> x <= 100 * q <= 0)
  {
  }
}

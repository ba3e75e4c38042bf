/** The afterrun timer over whole runs: how long the fan stays on, and how often it may cycle. */
module FanTimer {
  import opened Types
  import opened Firmware
  import NvsStore

  /** Event i of the run moves the status into ON_LOW or ON_HIGH (from the other one, or from OFF). */
  ghost predicate SwitchesOn(f: State, es: seq<Event>, i: nat)
    requires i < |es|
  {
    Run(f, es[..i + 1]).status != Run(f, es[..i]).status && IsOn(Run(f, es[..i + 1]).status)
  }

  /** Event i is a report, and it turns the fan off. */
  ghost predicate ReportedOff(f: State, es: seq<Event>, i: nat)
    requires i < |es|
  {
    es[i].action.Reported? && Run(f, es[..i]).status != OFF && Run(f, es[..i + 1]).status == OFF
  }

  predicate OnePowerCycle(es: seq<Event>) {
    forall e <- es :: !e.action.PoweredOn?
  }

  /** The clock never runs backwards: not within a handler, and not from one handler to the next. */
  predicate Clocked(es: seq<Event>) {
    && (forall e <- es :: e.clock.entry <= e.clock.decide <= e.clock.stamp)
    && (forall i, j :: 0 <= i < j < |es| ==> es[i].clock.stamp <= es[j].clock.entry)
  }

  lemma RunPrefix(f: State, es: seq<Event>, i: nat)
    requires i < |es|
    ensures Run(f, es[..i + 1]) == Step(Run(f, es[..i]), es[i])
  {
    assert es[..i + 1][..i] == es[..i];
  }

  /** What a handler does to the status explains what it does to switchedOn. */
  predicate Stamped(f: State, g: State, stamp: int) {
    g.switchedOn == if g.status != f.status && IsOn(g.status) then stamp else f.switchedOn
  }

  lemma StatusHandlersStamp(f: State, r: Report, op: Operation, c: Clock, md: NvsStore.Medium)
    ensures Stamped(f, OnReport(f, r, c), c.stamp)
    ensures Stamped(f, OnOperation(f, op, c, md), c.stamp)
  {
  }

  lemma SwitchOnStep(f: State, e: Event)
    requires !e.action.PoweredOn?
    ensures Stamped(f, Step(f, e), e.clock.stamp)
  {
    match e.action {
      case Reported(r) => StatusHandlersStamp(f, r, OpAuto, e.clock, e.medium);
      case Commanded(op) => StatusHandlersStamp(f, OtherCluster, op, e.clock, e.medium);
      case _ =>
    }
  }

  /** The last event of the run that switches the fan on, or -1. */
  ghost function LatestSwitchOn(f: State, es: seq<Event>): (i: int)
    ensures -1 <= i < |es|
  {
    if es == [] then -1
    else if SwitchesOn(f, es, |es| - 1) then |es| - 1
    else LatestSwitchOn(f, es[..|es| - 1])
  }

  lemma SwitchesOnPrefix(f: State, es: seq<Event>, m: nat, i: nat)
    requires i < m <= |es|
    ensures SwitchesOn(f, es[..m], i) == SwitchesOn(f, es, i)
  {
    assert es[..m][..i] == es[..i] && es[..m][..i + 1] == es[..i + 1];
  }

  /** Event i is the last one of the run that switches the fan on. */
  ghost predicate LastSwitchesOn(f: State, es: seq<Event>, i: nat) {
    i < |es| && SwitchesOn(f, es, i) && forall j :: i < j < |es| ==> !SwitchesOn(f, es, j)
  }

  lemma {:induction false} LatestIsLatest(f: State, es: seq<Event>, i: nat)
    requires LastSwitchesOn(f, es, i)
    ensures LatestSwitchOn(f, es) == i
  {
    var n := |es| - 1;
    if i < n {
      assert !SwitchesOn(f, es, n);
      SwitchesOnPrefix(f, es, n, i);
      forall j | i < j < n ensures !SwitchesOn(f, es[..n], j) {
        SwitchesOnPrefix(f, es, n, j);
      }
      LatestIsLatest(f, es[..n], i);
    }
  }

  lemma {:induction false} NoneIsLatest(f: State, es: seq<Event>)
    requires forall i :: 0 <= i < |es| ==> !SwitchesOn(f, es, i)
    ensures LatestSwitchOn(f, es) == -1
  {
    if es != [] {
      var n := |es| - 1;
      forall j | 0 <= j < n ensures !SwitchesOn(f, es[..n], j) {
        SwitchesOnPrefix(f, es, n, j);
      }
      NoneIsLatest(f, es[..n]);
    }
  }

  lemma {:induction false} SwitchedOnFollows(f: State, es: seq<Event>)
    requires OnePowerCycle(es)
    ensures var i := LatestSwitchOn(f, es);
            Run(f, es).switchedOn == if i < 0 then f.switchedOn else es[i].clock.stamp
  {
    if es != [] {
      var n := |es| - 1;
      SwitchedOnFollows(f, es[..n]);
      SwitchOnStep(Run(f, es[..n]), es[n]);
      assert es[..n + 1] == es;
    }
  }

  /** switchedOn is the time of the latest transition into an ON status. */
  lemma SwitchedOnIsLatest(f: State, es: seq<Event>, i: nat)
    requires OnePowerCycle(es) && LastSwitchesOn(f, es, i)
    ensures Run(f, es).switchedOn == es[i].clock.stamp
  {
    SwitchedOnFollows(f, es);
    LatestIsLatest(f, es, i);
  }

  /** Without such a transition since power-on it is 0. */
  lemma SwitchedOnInitially(f: State, opens: bool, es: seq<Event>)
    requires OnePowerCycle(es)
    requires forall i :: 0 <= i < |es| ==> !SwitchesOn(OnPowerOn(f, opens), es, i)
    ensures Run(OnPowerOn(f, opens), es).switchedOn == 0
  {
    SwitchedOnFollows(OnPowerOn(f, opens), es);
    NoneIsLatest(OnPowerOn(f, opens), es);
  }

  /** The level reaches the limit; a NaN reaches none. */
  predicate Reaches(level: Float, limit: int) {
    match level
    case Finite(x) => x >= limit as real
    case PosInf => true
    case _ => false
  }

  /** The level is below both limits in force. */
  predicate Clean(level: Float, f: State) {
    !Reaches(level, NvsStore.LowLimit(f.store)) && !Reaches(level, NvsStore.HighLimit(f.store))
  }

  /**
   * What a report in AUTO does, exactly: HIGH from the high limit on, LOW from the low limit up to it, and in clean
   * air OFF if and only if strictly more than the afterrun has passed since switchedOn. The level is the one stored
   * after the report.
   */
  lemma ReportDecides(f: State, r: Report, c: Clock)
    requires f.opMode == AUTO
    ensures var g, level := OnReport(f, r, c), Recorded(f.measurements, r, c.entry).pm25;
            var low, high := NvsStore.LowLimit(f.store), NvsStore.HighLimit(f.store);
            && (Reaches(level, high) ==> g.status == ON_HIGH)
            && (Reaches(level, low) && !Reaches(level, high) ==> g.status == ON_LOW)
            && (Clean(level, f) ==>
                  if f.status == OFF || c.decide - f.switchedOn > 1000 * NvsStore.AfterrunSeconds(f.store)
                  then g.status == OFF else g.status == f.status)
  {
  }

  /** A PM2.5 report to an OFF fan in AUTO, by its number: x >= high, or low <= x < high, or nothing. */
  lemma FirstReading(f: State, level: Float, c: Clock)
    requires f.opMode == AUTO && f.status == OFF
    ensures var g := OnReport(f, PM25(level), c);
            var low, high := NvsStore.LowLimit(f.store), NvsStore.HighLimit(f.store);
            && (level.Finite? ==>
                  && (g.status == ON_HIGH <==> level.value >= high as real)
                  && (g.status == ON_LOW <==> level.value >= low as real && level.value < high as real))
            && (level == PosInf ==> g.status == ON_HIGH)
            && (level == NaN || level == NegInf ==> g.status == OFF)
  {
    ReportDecides(f, PM25(level), c);
  }

  /** A report turns the fan off only when it is in AUTO and strictly more than the afterrun has passed. */
  lemma OffStep(f: State, r: Report, c: Clock)
    requires f.status != OFF && OnReport(f, r, c).status == OFF
    ensures f.opMode == AUTO
    ensures c.decide - f.switchedOn > 1000 * NvsStore.AfterrunSeconds(f.store)
  {
  }

  /** switchedOn before event k, when event i last switched the fan on. */
  lemma SwitchedOnBefore(f: State, es: seq<Event>, i: nat, k: nat)
    requires OnePowerCycle(es) && i < k <= |es|
    requires SwitchesOn(f, es, i) && (forall j :: i < j < k ==> !SwitchesOn(f, es, j))
    ensures Run(f, es[..k]).switchedOn == es[i].clock.stamp
  {
    var p := es[..k];
    forall j | 0 <= j < k ensures SwitchesOn(f, p, j) == SwitchesOn(f, es, j) {
      SwitchesOnPrefix(f, es, k, j);
    }
    assert LastSwitchesOn(f, p, i);
    SwitchedOnIsLatest(f, p, i);
  }

  /** Minimum on-time: since whichever event i last switched the fan on, more than the afterrun has passed. */
  lemma MinimumOnTime(f: State, es: seq<Event>, i: nat, k: nat)
    requires OnePowerCycle(es) && i < k < |es|
    requires SwitchesOn(f, es, i) && (forall j :: i < j < k ==> !SwitchesOn(f, es, j))
    requires ReportedOff(f, es, k)
    ensures es[k].clock.decide - es[i].clock.stamp > 1000 * NvsStore.AfterrunSeconds(Run(f, es[..k]).store)
  {
    SwitchedOnBefore(f, es, i, k);
    RunPrefix(f, es, k);
    OffStep(Run(f, es[..k]), es[k].action.report, es[k].clock);
  }

  /**
   * Exact on-time: when event i last switched the fan on and it is still on and in AUTO, a report with clean air
   * switches it off if and only if it comes more than the afterrun after event i. So the first such report after
   * that time ends the on-time.
   */
  lemma ExactOnTime(f: State, es: seq<Event>, i: nat, k: nat)
    requires OnePowerCycle(es) && i < k < |es|
    requires SwitchesOn(f, es, i) && (forall j :: i < j < k ==> !SwitchesOn(f, es, j))
    requires es[k].action.Reported? && Run(f, es[..k]).opMode == AUTO && Run(f, es[..k]).status != OFF
    requires Clean(Run(f, es[..k + 1]).measurements.pm25, Run(f, es[..k]))
    ensures Run(f, es[..k + 1]).status == OFF <==>
      es[k].clock.decide - es[i].clock.stamp > 1000 * NvsStore.AfterrunSeconds(Run(f, es[..k]).store)
  {
    SwitchedOnBefore(f, es, i, k);
    RunPrefix(f, es, k);
    ReportDecides(Run(f, es[..k]), es[k].action.report, es[k].clock);
  }

  /** An ON fan was switched on no earlier than t. */
  predicate OnSince(f: State, t: int) {
    f.status != OFF ==> f.switchedOn >= t
  }

  lemma OnSinceStep(f: State, e: Event, t: int)
    requires OnSince(f, t) && t <= e.clock.stamp && !e.action.PoweredOn?
    ensures OnSince(Step(f, e), t)
  {
    SwitchOnStep(f, e);
  }

  lemma {:induction false} OnSinceRun(f: State, es: seq<Event>, t: int)
    requires OnSince(f, t) && forall e <- es :: t <= e.clock.stamp && !e.action.PoweredOn?
    ensures OnSince(Run(f, es), t)
  {
    if es != [] {
      OnSinceRun(f, es[..|es| - 1], t);
      OnSinceStep(Run(f, es[..|es| - 1]), es[|es| - 1], t);
    }
  }

  lemma StampsAfter(es: seq<Event>, i: nat, m: nat)
    requires OnePowerCycle(es) && Clocked(es) && i < m <= |es|
    ensures forall e <- es[i + 1..m] :: es[i].clock.decide <= e.clock.stamp && !e.action.PoweredOn?
  {
    forall e | e in es[i + 1..m] ensures es[i].clock.decide <= e.clock.stamp && !e.action.PoweredOn? {
      var j :| i < j < m && es[j] == e;
      assert es[i] in es && es[j] in es;
    }
  }

  /** From an OFF at event i on, an ON fan was switched on no earlier than that event's decision. */
  lemma OnAfterOff(f: State, es: seq<Event>, i: nat, m: nat)
    requires OnePowerCycle(es) && Clocked(es) && i < m <= |es|
    requires Run(f, es[..i + 1]).status == OFF
    ensures OnSince(Run(f, es[..m]), es[i].clock.decide)
  {
    assert es[..m] == es[..i + 1] + es[i + 1..m];
    RunConcat(f, es[..i + 1], es[i + 1..m]);
    StampsAfter(es, i, m);
    OnSinceRun(Run(f, es[..i + 1]), es[i + 1..m], es[i].clock.decide);
  }

  /**
   * Cycling bound: two report-driven switch-offs are more than the afterrun in force at the second one apart,
   * whatever buttons, commands, mode changes and limit edits come between.
   */
  lemma SwitchOffsApart(f: State, es: seq<Event>, i: nat, k: nat)
    requires OnePowerCycle(es) && Clocked(es) && i < k < |es|
    requires ReportedOff(f, es, i) && ReportedOff(f, es, k)
    ensures es[k].clock.decide - es[i].clock.decide > 1000 * NvsStore.AfterrunSeconds(Run(f, es[..k]).store)
  {
    OnAfterOff(f, es, i, k);
    RunPrefix(f, es, k);
    OffStep(Run(f, es[..k]), es[k].action.report, es[k].clock);
  }

  /** The listed events, in order, are report-driven switch-offs, each with an afterrun of at least a seconds. */
  ghost predicate SwitchOffs(f: State, es: seq<Event>, offs: seq<nat>, a: nat) {
    && (forall n :: 0 <= n < |offs| ==>
          && offs[n] < |es|
          && ReportedOff(f, es, offs[n])
          && NvsStore.AfterrunSeconds(Run(f, es[..offs[n]]).store) >= a)
    && (forall m, n :: 0 <= m < n < |offs| ==> offs[m] < offs[n])
  }

  lemma {:induction false} SwitchOffSpan(f: State, es: seq<Event>, offs: seq<nat>, a: nat)
    requires OnePowerCycle(es) && Clocked(es) && SwitchOffs(f, es, offs, a) && offs != []
    ensures es[offs[|offs| - 1]].clock.decide - es[offs[0]].clock.decide >= (|offs| - 1) * (1000 * a + 1)
  {
    if |offs| > 1 {
      var n := |offs| - 1;
      SwitchOffSpan(f, es, offs[..n], a);
      SwitchOffsApart(f, es, offs[n - 1], offs[n]);
      var d := 1000 * a + 1;
      assert (n - 1) * d + d == n * d;
    }
  }

  lemma Distribute(n: nat, a: nat)
    ensures n * (1000 * a + 1) == n * 1000 * a + n
  {
  }

  /** At most W / (1000 * a) + 1 switch-offs fit into a window of W milliseconds. */
  lemma CyclingBound(f: State, es: seq<Event>, offs: seq<nat>, a: nat, window: nat)
    requires OnePowerCycle(es) && Clocked(es) && SwitchOffs(f, es, offs, a)
    requires offs != [] ==> es[offs[|offs| - 1]].clock.decide - es[offs[0]].clock.decide <= window
    ensures |offs| <= 1 || (|offs| - 1) * 1000 * a < window
  {
    if |offs| > 1 {
      SwitchOffSpan(f, es, offs, a);
      var n := |offs| - 1;
      Distribute(n, a);
    }
  }
}

/**
 * Does cleaner air ever keep the fan on longer? It can, exactly when the afterrun is not shorter than the time
 * between two evaluations.
 */
module Monotonicity {
  import opened Types
  import opened Firmware
  import opened AutoControl
  import NvsStore
  import MeasurementHistory

  /** The level f is not above the level g. */
  predicate NotAbove(f: Float, g: Float) {
    f == g || match (f, g)
      case (NaN, _) => false
      case (_, NaN) => false
      case (NegInf, _) => true
      case (_, PosInf) => true
      case (Finite(x), Finite(y)) => x <= y
      case _ => false
  }

  lemma NotAboveMeansLessActive(v: Evaluation, w: Evaluation, s: Settings)
    requires NotAbove(v.level, w.level)
    ensures Class(v, s) != OFF ==> Class(w, s) != OFF
  {
  }

  // ---- Histories of evaluations ----

  /** Same instants, and no level of cs above that of ds. */
  predicate Cleaner(cs: seq<Evaluation>, ds: seq<Evaluation>) {
    && |cs| == |ds|
    && forall i :: 0 <= i < |cs| ==>
         && cs[i].decide == ds[i].decide && cs[i].stamp == ds[i].stamp
         && NotAbove(cs[i].level, ds[i].level)
  }

  /** Every evaluation begins at least `gap` ms after the end of each earlier one. */
  predicate Spaced(vs: seq<Evaluation>, gap: nat) {
    && (forall i :: 0 <= i < |vs| ==> vs[i].decide <= vs[i].stamp)
    && forall i, j :: 0 <= i < j < |vs| ==> vs[i].stamp + gap <= vs[j].decide
  }

  /** With a shorter afterrun the first idle evaluation switches off: the status is the class of the last one. */
  lemma SpacedStatus(vs: seq<Evaluation>, s: Settings, gap: nat)
    requires Spaced(vs, gap) && s.afterrunMillis < gap
    ensures ClosedStatus(vs, s) == if vs == [] then OFF else Class(vs[|vs| - 1], s)
  {
    var n, j := |vs| - 1, LastActive(vs, s);
    if 0 <= j < n {
      var b := BlockStart(vs, s, j);
      assert vs[b].stamp + gap <= vs[n].decide;
      assert TimedOut(vs, s, b, j, |vs|);
    }
  }

  /** Otherwise: an early dirty evaluation starts the timer early, and its afterrun is over when the air is clean. */
  function DirtyTimes(a: nat, gap: nat): seq<int> {
    [0, a + 1, a + 1 + gap]
  }

  const DIRTY := Finite(65535.0)
  const CLEAN := Finite(-1.0)

  function Witness(first: Float, a: nat, gap: nat): seq<Evaluation> {
    var t := DirtyTimes(a, gap);
    [Evaluation(first, t[0], t[0]), Evaluation(DIRTY, t[1], t[1]), Evaluation(CLEAN, t[2], t[2])]
  }

  lemma ThreeEvaluations(s: Settings, u: Evaluation, v: Evaluation, w: Evaluation)
    ensures ClosedStatus([u, v, w], s) ==
            Evaluated(Evaluated(Evaluated(Fan(OFF, 0), s, u), s, v), s, w).status
  {
    var off := Fan(OFF, 0);
    assert [u, v, w][..2] == [u, v] && [u, v][..1] == [u] && [u][..0] == [];
    assert AllEvaluated(off, s, [u]) == Evaluated(off, s, u);
    assert AllEvaluated(off, s, [u, v]) == Evaluated(Evaluated(off, s, u), s, v);
    ClosedFormOfMachine(off, s, [u, v, w]);
  }

  /** The cleaner of the two histories leaves the fan on, the dirtier one off. */
  lemma CleanerAirCanRunLonger(s: Settings, gap: nat)
    requires gap <= s.afterrunMillis
    ensures var cs, ds := Witness(CLEAN, s.afterrunMillis, gap), Witness(DIRTY, s.afterrunMillis, gap);
            && Cleaner(cs, ds) && Spaced(cs, gap) && Spaced(ds, gap)
            && ClosedStatus(cs, s) != OFF && ClosedStatus(ds, s) == OFF
  {
    var cs, ds := Witness(CLEAN, s.afterrunMillis, gap), Witness(DIRTY, s.afterrunMillis, gap);
    ThreeEvaluations(s, cs[0], cs[1], cs[2]);
    ThreeEvaluations(s, ds[0], ds[1], ds[2]);
  }

  /**
   * The control is monotone in its readings exactly if the afterrun is shorter than the least time between
   * evaluations. (With a gap of 1, a clock that advances between evaluations, only for afterrun 0; with a gap of 0
   * never.)
   */
  lemma MonotoneIffShortAfterrun(s: Settings, gap: nat)
    requires s.afterrunMillis >= 0
    ensures (forall cs, ds :: Cleaner(cs, ds) && Spaced(cs, gap) ==>
               (ClosedStatus(cs, s) != OFF ==> ClosedStatus(ds, s) != OFF))
            <==> s.afterrunMillis < gap
  {
    if s.afterrunMillis < gap {
      forall cs, ds | Cleaner(cs, ds) && Spaced(cs, gap)
        ensures ClosedStatus(cs, s) != OFF ==> ClosedStatus(ds, s) != OFF
      {
        assert Spaced(ds, gap);
        SpacedStatus(cs, s, gap);
        SpacedStatus(ds, s, gap);
        if cs != [] {
          NotAboveMeansLessActive(cs[|cs| - 1], ds[|ds| - 1], s);
        }
      }
    } else {
      CleanerAirCanRunLonger(s, gap);
    }
  }

  // ---- Runs of the firmware ----

  /** The same event, or two PM2.5 reports at the same instants, the first not above the second. */
  predicate NotAboveEvent(e: Event, e': Event) {
    || e == e'
    || (&& e.clock == e'.clock && e.medium == e'.medium
        && e.action.Reported? && e.action.report.PM25? && e'.action.Reported? && e'.action.report.PM25?
        && NotAbove(e.action.report.level, e'.action.report.level))
  }

  predicate CleanerRun(cs: seq<Event>, ds: seq<Event>) {
    |cs| == |ds| && forall i :: 0 <= i < |cs| ==> NotAboveEvent(cs[i], ds[i])
  }

  /** Every report begins at least `gap` ms after the end of each earlier one. */
  predicate SpacedRun(es: seq<Event>, gap: nat) {
    && (forall i :: 0 <= i < |es| ==> es[i].clock.decide <= es[i].clock.stamp)
    && forall i, j :: 0 <= i < j < |es| && es[i].action.Reported? && es[j].action.Reported? ==>
         es[i].clock.stamp + gap <= es[j].clock.decide
  }

  lemma {:induction false} CleanerEvaluations(f: State, cs: seq<Event>, ds: seq<Event>)
    requires CleanerRun(cs, ds) && forall i :: 0 <= i < |cs| ==> Quiet(cs[i]) && Quiet(ds[i])
    ensures Cleaner(Evaluations(f, cs), Evaluations(f, ds))
    ensures NotAbove(Run(f, cs).measurements.pm25, Run(f, ds).measurements.pm25)
  {
    if cs != [] {
      var n := |cs| - 1;
      CleanerEvaluations(f, cs[..n], ds[..n]);
      assert NotAboveEvent(cs[n], ds[n]);
      MeasurementHistory.OnlyReportsMeasure(Run(f, cs[..n]), cs[n]);
      MeasurementHistory.OnlyReportsMeasure(Run(f, ds[..n]), ds[n]);
    }
  }

  lemma {:induction false} EvaluationsBefore(f: State, es: seq<Event>, t: int)
    requires forall i :: 0 <= i < |es| && es[i].action.Reported? ==> es[i].clock.stamp <= t
    ensures forall k :: 0 <= k < |Evaluations(f, es)| ==> Evaluations(f, es)[k].stamp <= t
  {
    if es != [] {
      EvaluationsBefore(f, es[..|es| - 1], t);
    }
  }

  lemma {:induction false} SpacedEvaluations(f: State, es: seq<Event>, gap: nat)
    requires SpacedRun(es, gap)
    ensures Spaced(Evaluations(f, es), gap)
  {
    if es != [] {
      var n := |es| - 1;
      SpacedEvaluations(f, es[..n], gap);
      if es[n].action.Reported? {
        EvaluationsBefore(f, es[..n], es[n].clock.decide - gap);
      }
    }
  }

  function Reading(level: Float, t: int): Event {
    Event(Reported(PM25(level)), Clock(t, t, t), NvsStore.HEALTHY)
  }

  /** The witness as three reports to the firmware. */
  function WitnessRun(first: Float, a: nat, gap: nat): seq<Event> {
    var t := DirtyTimes(a, gap);
    [Reading(first, t[0]), Reading(DIRTY, t[1]), Reading(CLEAN, t[2])]
  }

  lemma ReadingIsEvaluated(f: State, es: seq<Event>, level: Float, t: int)
    requires level != NaN
    ensures Evaluations(f, es + [Reading(level, t)]) == Evaluations(f, es) + [Evaluation(level, t, t)]
  {
    var e := Reading(level, t);
    assert (es + [e])[..|es|] == es;
    MeasurementHistory.OnlyReportsMeasure(Run(f, es), e);
  }

  lemma WitnessIsEvaluated(f: State, first: Float, a: nat, gap: nat)
    requires first != NaN
    ensures Evaluations(f, WitnessRun(first, a, gap)) == Witness(first, a, gap)
  {
    var t := DirtyTimes(a, gap);
    var one := [] + [Reading(first, t[0])];
    var two := one + [Reading(DIRTY, t[1])];
    ReadingIsEvaluated(f, [], first, t[0]);
    ReadingIsEvaluated(f, one, DIRTY, t[1]);
    ReadingIsEvaluated(f, two, CLEAN, t[2]);
    assert WitnessRun(first, a, gap) == two + [Reading(CLEAN, t[2])];
  }

  /** Two quiet runs, one with readings nowhere above the other's, and reports at least `gap` ms apart. */
  predicate Comparable(cs: seq<Event>, ds: seq<Event>, gap: nat) {
    CleanerRun(cs, ds) && SpacedRun(cs, gap) && forall i :: 0 <= i < |cs| ==> Quiet(cs[i]) && Quiet(ds[i])
  }

  lemma ComparableRuns(f: State, cs: seq<Event>, ds: seq<Event>, gap: nat)
    requires f.booted && f.opMode == AUTO && f.status == OFF && AfterrunMillis(f.store) < gap
    requires Comparable(cs, ds, gap)
    ensures Run(f, cs).status != OFF ==> Run(f, ds).status != OFF
  {
    CleanerEvaluations(f, cs, ds);
    SpacedEvaluations(f, cs, gap);
    AutoStatus(f, cs);
    AutoStatus(f, ds);
    MonotoneIffShortAfterrun(SettingsOf(f), gap);
  }

  lemma WitnessesAreComparable(a: nat, gap: nat)
    requires gap <= a
    ensures Comparable(WitnessRun(CLEAN, a, gap), WitnessRun(DIRTY, a, gap), gap)
  {
  }

  lemma WitnessStatus(f: State, first: Float, a: nat, gap: nat)
    requires f.booted && f.opMode == AUTO && f.status == OFF && first != NaN
    ensures Run(f, WitnessRun(first, a, gap)).status == ClosedStatus(Witness(first, a, gap), SettingsOf(f))
  {
    WitnessIsEvaluated(f, first, a, gap);
    AutoStatus(f, WitnessRun(first, a, gap));
  }

  lemma WitnessRuns(f: State, gap: nat)
    requires f.booted && f.opMode == AUTO && f.status == OFF && gap <= AfterrunMillis(f.store)
    ensures var a := AfterrunMillis(f.store);
            && Run(f, WitnessRun(CLEAN, a, gap)).status != OFF
            && Run(f, WitnessRun(DIRTY, a, gap)).status == OFF
  {
    var a := AfterrunMillis(f.store);
    CleanerAirCanRunLonger(SettingsOf(f), gap);
    WitnessStatus(f, CLEAN, a, gap);
    WitnessStatus(f, DIRTY, a, gap);
  }

  /**
   * The same of the firmware in AUTO, starting OFF: lower PM2.5 reports never keep the fan on where higher ones
   * would have let it go off, exactly if the afterrun is shorter than the least time between reports.
   */
  lemma FirmwareMonotoneIffShortAfterrun(f: State, gap: nat)
    requires f.booted && f.opMode == AUTO && f.status == OFF
    ensures (forall cs, ds :: Comparable(cs, ds, gap) ==> (Run(f, cs).status != OFF ==> Run(f, ds).status != OFF))
            <==> 1000 * NvsStore.AfterrunSeconds(f.store) < gap
  {
    if AfterrunMillis(f.store) < gap {
      forall cs, ds | Comparable(cs, ds, gap)
        ensures Run(f, cs).status != OFF ==> Run(f, ds).status != OFF
      {
        ComparableRuns(f, cs, ds, gap);
      }
    } else {
      WitnessesAreComparable(AfterrunMillis(f.store), gap);
      WitnessRuns(f, gap);
    }
  }
}

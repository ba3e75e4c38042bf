/** A closed form of the automatic control: the status as a function of the history of evaluations. */
module AutoControl {
  import opened Types
  import opened Firmware
  import FanTimer
  import MeasurementHistory
  import NvsStore

  /** One run of update_state_for_pm_25: the level it sees and the two clock readings it may take. */
  datatype Evaluation = Evaluation(level: Float, decide: int, stamp: int)

  datatype Settings = Settings(low: Uint16, high: Uint16, afterrunMillis: int)

  /** The class of a level; OFF stands for "below both limits", and an evaluation in another class is active. */
  function Class(v: Evaluation, s: Settings): MachineStatus {
    if AtLeast(v.level, s.high) then ON_HIGH else if AtLeast(v.level, s.low) then ON_LOW else OFF
  }

  /** The last active evaluation, or -1. */
  ghost function LastActive(vs: seq<Evaluation>, s: Settings): (j: int)
    ensures -1 <= j < |vs|
    ensures 0 <= j ==> Class(vs[j], s) != OFF
    ensures forall i :: j < i < |vs| ==> Class(vs[i], s) == OFF
  {
    if vs == [] then -1
    else if Class(vs[|vs| - 1], s) != OFF then |vs| - 1
    else LastActive(vs[..|vs| - 1], s)
  }

  /** Some evaluation strictly between p and n came more than the afterrun after the start b of the block. */
  ghost predicate TimedOut(vs: seq<Evaluation>, s: Settings, b: nat, p: nat, n: nat)
    requires b < |vs| && n <= |vs|
  {
    exists i :: p < i < n && vs[i].decide - s.afterrunMillis > vs[b].stamp
  }

  /**
   * The evaluation that started the unbroken block of the class of evaluation j: the block reaches back to the
   * previous active evaluation if that has the same class and the fan did not time out in between. A change of
   * class starts a new block, because setStatus then restarts the timer.
   */
  ghost function BlockStart(vs: seq<Evaluation>, s: Settings, j: nat): (b: nat)
    requires j < |vs| && Class(vs[j], s) != OFF
    ensures b <= j && Class(vs[b], s) == Class(vs[j], s)
    decreases j
  {
    var p := LastActive(vs[..j], s);
    if p >= 0 && Class(vs[p], s) == Class(vs[j], s) && !TimedOut(vs, s, BlockStart(vs, s, p), p, j)
    then BlockStart(vs, s, p)
    else j
  }

  /** The status after the evaluations, by history alone. */
  ghost function ClosedStatus(vs: seq<Evaluation>, s: Settings): MachineStatus {
    var j := LastActive(vs, s);
    if j < 0 || TimedOut(vs, s, BlockStart(vs, s, j), j, |vs|) then OFF else Class(vs[j], s)
  }

  /** What a block is: one class throughout, no timeout inside, and not extensible to the left. */
  lemma {:induction false} BlockIsUnbroken(vs: seq<Evaluation>, s: Settings, j: nat)
    requires j < |vs| && Class(vs[j], s) != OFF
    ensures var b := BlockStart(vs, s, j);
            && (forall i :: b <= i <= j ==>
                  || Class(vs[i], s) == Class(vs[j], s)
                  || (Class(vs[i], s) == OFF && vs[i].decide - s.afterrunMillis <= vs[b].stamp))
            && var p := LastActive(vs[..b], s);
               p >= 0 && Class(vs[p], s) == Class(vs[b], s) ==> TimedOut(vs, s, BlockStart(vs, s, p), p, b)
    decreases j
  {
    var b := BlockStart(vs, s, j);
    var p := LastActive(vs[..j], s);
    if b != j {
      BlockIsUnbroken(vs, s, p);
      assert forall i :: p < i < j ==> Class(vs[..j][i], s) == OFF;
    }
  }

  // ---- The step by step machine ----

  datatype Fan = Fan(status: MachineStatus, switchedOn: int)

  function Evaluated(f: Fan, s: Settings, v: Evaluation): Fan {
    var c := Class(v, s);
    if c != OFF then (if f.status == c then f else Fan(c, v.stamp))
    else if v.decide - s.afterrunMillis > f.switchedOn then f.(status := OFF)
    else f
  }

  function AllEvaluated(f: Fan, s: Settings, vs: seq<Evaluation>): Fan {
    if vs == [] then f else Evaluated(AllEvaluated(f, s, vs[..|vs| - 1]), s, vs[|vs| - 1])
  }

  lemma {:induction false} BlockStartPrefix(vs: seq<Evaluation>, s: Settings, n: nat, j: nat)
    requires j < n <= |vs| && Class(vs[j], s) != OFF
    ensures BlockStart(vs[..n], s, j) == BlockStart(vs, s, j)
    decreases j
  {
    assert vs[..n][..j] == vs[..j];
    var p := LastActive(vs[..j], s);
    if p >= 0 {
      BlockStartPrefix(vs, s, n, p);
      var b := BlockStart(vs, s, p);
      assert TimedOut(vs[..n], s, b, p, j) <==> TimedOut(vs, s, b, p, j);
    }
  }

  lemma {:induction false} ClosedFormOfMachine(f: Fan, s: Settings, vs: seq<Evaluation>)
    requires f.status == OFF
    ensures var g := AllEvaluated(f, s, vs);
            && g.status == ClosedStatus(vs, s)
            && (g.status != OFF ==> g.switchedOn == vs[BlockStart(vs, s, LastActive(vs, s))].stamp)
  {
    if vs != [] {
      var n := |vs| - 1;
      var us := vs[..n];
      ClosedFormOfMachine(f, s, us);
      var p := LastActive(us, s);
      if p >= 0 {
        BlockStartPrefix(vs, s, n, p);
        var b := BlockStart(vs, s, p);
        assert TimedOut(us, s, b, p, n) <==> TimedOut(vs, s, b, p, n);
        if Class(vs[n], s) == OFF {
          assert TimedOut(vs, s, b, p, |vs|) <==>
            TimedOut(vs, s, b, p, n) || vs[n].decide - s.afterrunMillis > vs[b].stamp;
        }
      }
    }
  }

  // ---- The firmware in AUTO ----

  /** An event that changes neither the mode nor the limits of a fan in AUTO. */
  predicate Quiet(e: Event) {
    match e.action
    case Reported(_) => true
    case Commanded(op) => op == OpAuto
    case UdpServerPosted(_, _) => true
    case CredentialsPosted(_, _) => true
    case StoreFlushed(_, _) => true
    case BootFinished => true
    case _ => false
  }

  function SettingsOf(f: State): Settings {
    Settings(NvsStore.LowLimit(f.store), NvsStore.HighLimit(f.store), AfterrunMillis(f.store))
  }

  function FanOf(f: State): Fan {
    Fan(f.status, f.switchedOn)
  }

  /** Every report, of whatever cluster, evaluates the PM2.5 level stored after it. */
  function Evaluations(f: State, es: seq<Event>): seq<Evaluation> {
    if es == [] then []
    else
      var e := es[|es| - 1];
      Evaluations(f, es[..|es| - 1]) +
      if e.action.Reported? then [Evaluation(Run(f, es).measurements.pm25, e.clock.decide, e.clock.stamp)] else []
  }

  lemma QuietStep(f: State, e: Event)
    requires f.booted && f.opMode == AUTO && Quiet(e)
    ensures var g := Step(f, e);
            && g.booted && g.opMode == AUTO && SettingsOf(g) == SettingsOf(f)
            && FanOf(g) ==
               if e.action.Reported?
               then Evaluated(FanOf(f), SettingsOf(f), Evaluation(g.measurements.pm25, e.clock.decide, e.clock.stamp))
               else FanOf(f)
  {
  }

  lemma {:induction false} QuietRun(f: State, es: seq<Event>)
    requires f.booted && f.opMode == AUTO && forall e <- es :: Quiet(e)
    ensures var g := Run(f, es);
            && g.booted && g.opMode == AUTO && SettingsOf(g) == SettingsOf(f)
            && FanOf(g) == AllEvaluated(FanOf(f), SettingsOf(f), Evaluations(f, es))
  {
    if es != [] {
      var n := |es| - 1;
      QuietRun(f, es[..n]);
      QuietStep(Run(f, es[..n]), es[n]);
      var vs := Evaluations(f, es);
      if es[n].action.Reported? {
        assert vs[..|vs| - 1] == Evaluations(f, es[..n]);
      } else {
        assert vs == Evaluations(f, es[..n]);
      }
    }
  }

  /** In AUTO the status is that of the closed form, over the settings in force. */
  lemma AutoStatus(f: State, es: seq<Event>)
    requires f.booted && f.opMode == AUTO && f.status == OFF
    requires forall e <- es :: Quiet(e)
    ensures Run(f, es).status == ClosedStatus(Evaluations(f, es), SettingsOf(f))
  {
    QuietRun(f, es);
    ClosedFormOfMachine(FanOf(f), SettingsOf(f), Evaluations(f, es));
  }

  /** The classes, by the numbers compared. */
  lemma ClassByLevel(v: Evaluation, f: State)
    ensures var s, low, high := SettingsOf(f), NvsStore.LowLimit(f.store), NvsStore.HighLimit(f.store);
            && (Class(v, s) == ON_HIGH <==> FanTimer.Reaches(v.level, high))
            && (Class(v, s) == ON_LOW <==> FanTimer.Reaches(v.level, low) && !FanTimer.Reaches(v.level, high))
            && (Class(v, s) == OFF <==> FanTimer.Clean(v.level, f))
            && s.afterrunMillis == 1000 * NvsStore.AfterrunSeconds(f.store)
  {
  }

  /** The last evaluation whose level reaches one of the limits in force. */
  ghost predicate IsLastActive(f: State, vs: seq<Evaluation>, j: nat) {
    && j < |vs| && !FanTimer.Clean(vs[j].level, f)
    && forall i :: j < i < |vs| ==> FanTimer.Clean(vs[i].level, f)
  }

  lemma LastActiveByLevel(f: State, vs: seq<Evaluation>, j: nat)
    requires IsLastActive(f, vs, j)
    ensures LastActive(vs, SettingsOf(f)) == j
  {
    var s, k := SettingsOf(f), LastActive(vs, SettingsOf(f));
    ClassByLevel(vs[j], f);
    if j < k {
      ClassByLevel(vs[k], f);
    }
  }

  /**
   * Closed form of AUTO: starting OFF, the fan is OFF exactly if no evaluation has reached a limit yet, or some
   * evaluation after the last one that did came more than the afterrun after the start of that one's block.
   * Otherwise it is HIGH or LOW as that last level reaches the high limit or not, and switchedOn is the start of the
   * block.
   */
  lemma AutoClosedForm(f: State, es: seq<Event>)
    requires f.booted && f.opMode == AUTO && f.status == OFF
    requires forall e <- es :: Quiet(e)
    ensures var vs, g := Evaluations(f, es), Run(f, es);
            && ((forall v <- vs :: FanTimer.Clean(v.level, f)) ==> g.status == OFF)
            && forall j: nat :: IsLastActive(f, vs, j) ==>
                 var start := vs[BlockStart(vs, SettingsOf(f), j)].stamp;
                 && (g.status == OFF <==>
                       exists i :: j < i < |vs| && vs[i].decide - start > 1000 * NvsStore.AfterrunSeconds(f.store))
                 && (g.status != OFF ==>
                       && g.switchedOn == start
                       && g.status == if FanTimer.Reaches(vs[j].level, NvsStore.HighLimit(f.store)) then ON_HIGH
                                      else ON_LOW)
  {
    QuietRun(f, es);
    var vs, s := Evaluations(f, es), SettingsOf(f);
    ClosedFormOfMachine(FanOf(f), s, vs);
    forall v | v in vs ensures Class(v, s) == OFF <==> FanTimer.Clean(v.level, f) {
      ClassByLevel(v, f);
    }
    forall j: nat | IsLastActive(f, vs, j) ensures LastActive(vs, s) == j {
      LastActiveByLevel(f, vs, j);
      ClassByLevel(vs[j], f);
    }
  }

  /**
   * The auto command hands a fan that is off over to the automatic control: from any mode, the status after further
   * quiet events is that of the closed form.
   */
  lemma AutoCommandTakesOver(f: State, e: Event, es: seq<Event>)
    requires f.booted && f.status == OFF && e.action == Commanded(OpAuto) && forall x <- es :: Quiet(x)
    ensures var g := Step(f, e);
            && Run(g, es).opMode == AUTO
            && Run(g, es).status == ClosedStatus(Evaluations(g, es), SettingsOf(f))
  {
    var g := Step(f, e);
    QuietRun(g, es);
    AutoStatus(g, es);
  }

  /** The evaluations read off the events alone: each report evaluates the last PM2.5 level reported so far. */
  function ReportedEvaluations(past: seq<Event>, es: seq<Event>): seq<Evaluation> {
    if es == [] then []
    else
      var e := es[|es| - 1];
      ReportedEvaluations(past, es[..|es| - 1]) +
      if e.action.Reported?
      then [Evaluation(MeasurementHistory.LastLevel(past + es), e.clock.decide, e.clock.stamp)]
      else []
  }

  lemma {:induction false} EvaluationsAreReports(f: State, opens: bool, past: seq<Event>, es: seq<Event>)
    requires FanTimer.OnePowerCycle(past + es)
    ensures Evaluations(Run(OnPowerOn(f, opens), past), es) == ReportedEvaluations(past, es)
  {
    if es != [] {
      var n := |es| - 1;
      assert past + es == past + es[..n] + [es[n]];
      EvaluationsAreReports(f, opens, past, es[..n]);
      RunConcat(OnPowerOn(f, opens), past, es);
      MeasurementHistory.StoredLevelIsLast(f, opens, past + es);
    }
  }

  /**
   * The closed form as a function of the reports: on a device that since power-on has seen `past`, and is now
   * booted, in AUTO and OFF, the status after further quiet events is that of the levels reported.
   */
  lemma AutoByReports(f: State, opens: bool, past: seq<Event>, g: State, es: seq<Event>)
    requires FanTimer.OnePowerCycle(past + es) && forall e <- es :: Quiet(e)
    requires g == Run(OnPowerOn(f, opens), past) && g.booted && g.opMode == AUTO && g.status == OFF
    ensures Run(OnPowerOn(f, opens), past + es).status == ClosedStatus(ReportedEvaluations(past, es), SettingsOf(g))
  {
    RunConcat(OnPowerOn(f, opens), past, es);
    EvaluationsAreReports(f, opens, past, es);
    AutoStatus(g, es);
  }
}

/** A manual choice of status is not disturbed by reports. */
module ManualLatch {
  import opened Types
  import opened Relay
  import opened Firmware
  import opened Modes
  import NvsStore

  /** Everything but buttons, commands and power cycles: reports, posted settings, write-backs, the end of boot. */
  predicate Background(e: Event) {
    !e.action.Pressed? && !e.action.Commanded? && !e.action.PoweredOn?
  }

  /** Not in AUTO, and the end of boot will not select it either. */
  predicate Manual(f: State) {
    f.opMode != AUTO && (f.booted || f.store.cache.lastOpMode != AUTO)
  }

  /** What a background event must not touch. */
  predicate SameDrive(f: State, g: State) {
    f.status == g.status && f.pins == g.pins && f.writes == g.writes && f.switchedOn == g.switchedOn
  }

  lemma ManualStep(f: State, e: Event)
    requires Manual(f) && Background(e)
    ensures Manual(Step(f, e)) && SameDrive(f, Step(f, e))
  {
  }

  lemma {:induction false} ManualRun(f: State, es: seq<Event>)
    requires Manual(f) && forall e <- es :: Background(e)
    ensures Manual(Run(f, es)) && SameDrive(f, Run(f, es))
  {
    if es != [] {
      ManualRun(f, es[..|es| - 1]);
      ManualStep(Run(f, es[..|es| - 1]), es[|es| - 1]);
    }
  }

  function Target(op: Operation): MachineStatus
    requires op != OpAuto
  {
    if op == OpLow then ON_LOW else if op == OpHigh then ON_HIGH else OFF
  }

  function Command(op: Operation, c: Clock, md: NvsStore.Medium): Event {
    Event(Commanded(op), c, md)
  }

  function Press(b: Button, c: Clock, md: NvsStore.Medium): Event {
    Event(Pressed(b), c, md)
  }

  lemma OperationIsManual(f: State, op: Operation, c: Clock, md: NvsStore.Medium)
    requires ModeCoherent(f) && op != OpAuto
    ensures var g := Step(f, Command(op, c, md));
            Manual(g) && g.status == Target(op) && g.opMode == API
  {
  }

  /**
   * After an HTTP low, high or off command, given at any time (during boot too), no sequence of background events
   * changes the status, the pins, the write trace or switchedOn.
   */
  lemma CommandLatches(f: State, op: Operation, c: Clock, md: NvsStore.Medium, es: seq<Event>)
    requires ModeCoherent(f) && op != OpAuto && forall e <- es :: Background(e)
    ensures var g := Step(f, Command(op, c, md));
            SameDrive(g, Run(g, es)) && Run(g, es).status == Target(op)
  {
    OperationIsManual(f, op, c, md);
    ManualRun(Step(f, Command(op, c, md)), es);
  }

  /** The auto command selects AUTO, puts it on record, and leaves the fan alone until the next report. */
  lemma AutoCommand(f: State, c: Clock, md: NvsStore.Medium)
    requires ModeCoherent(f)
    ensures var g := Step(f, Command(OpAuto, c, md));
            && g.opMode == AUTO && SameDrive(f, g)
            && (f.booted || f.opMode != AUTO ==> g.store.cache.lastOpMode == AUTO)
  {
  }

  /** The end of boot, then a report that the controller in AUTO cannot ignore. */
  function Disturbance(g: State, md: NvsStore.Medium): seq<Event> {
    var late := g.switchedOn + 0x8000_0000;
    [Event(BootFinished, Clock(0, 0, 0), md),
     Event(Reported(PM25(if g.status == ON_HIGH then NegInf else PosInf)), Clock(late, late, late), md)]
  }

  lemma AutoIsDisturbed(g: State, md: NvsStore.Medium)
    requires !g.booted && g.opMode == LOCAL && g.store.cache.lastOpMode == AUTO
    ensures Run(g, Disturbance(g, md)).status != g.status
  {
    var d := Disturbance(g, md);
    assert d[..1] == [d[0]] && d[..1][..0] == [];
    assert Run(g, d[..1]) == Step(g, d[0]);
    var h := Step(g, d[0]);
    assert h.opMode == AUTO && h.status == g.status && h.switchedOn == g.switchedOn;
    assert Run(g, d) == Step(h, d[1]);
    var m := Recorded(h.measurements, d[1].action.report, d[1].clock.entry);
    assert m.pm25 == d[1].action.report.level;
  }

  /**
   * A status press latches as well, with one exact exception: pressed before app_main has finished, in the initial
   * LOCAL mode, on a device that has AUTO stored, it can be undone by reports.
   */
  lemma StatusPressLatches(f: State, c: Clock, md: NvsStore.Medium)
    requires ModeCoherent(f)
    ensures var g := Step(f, Press(StatusButton, c, md));
            (forall es :: (forall e <- es :: Background(e)) ==> SameDrive(g, Run(g, es)))
            <==> !(!f.booted && f.opMode == LOCAL && f.store.cache.lastOpMode == AUTO)
  {
    var g := Step(f, Press(StatusButton, c, md));
    if !f.booted && f.opMode == LOCAL && f.store.cache.lastOpMode == AUTO {
      AutoIsDisturbed(g, md);
      var d := Disturbance(g, md);
      assert forall e <- d :: Background(e);
    } else {
      assert Manual(g);
      forall es | forall e <- es :: Background(e) ensures SameDrive(g, Run(g, es)) {
        ManualRun(g, es);
      }
    }
  }

  /** A status press: the next status in the cycle, the relays driven twice, and the mode LOCAL. */
  lemma StatusPress(f: State, c: Clock, md: NvsStore.Medium)
    ensures var g := Step(f, Press(StatusButton, c, md));
            && g.opMode == LOCAL
            && g.status == (if f.status == OFF then ON_LOW else if f.status == ON_LOW then ON_HIGH else OFF)
            && g.writes == f.writes + ChangeWrites(g.status) + ChangeWrites(g.status)
            && g.switchedOn == if g.status == OFF then f.switchedOn else c.stamp
  {
  }

  function Presses(f: State, b: Button, cs: seq<Clock>, md: NvsStore.Medium): State {
    if cs == [] then f else Step(Presses(f, b, cs[..|cs| - 1], md), Press(b, cs[|cs| - 1], md))
  }

  lemma NextInCycle(x: int, n: nat)
    ensures ((x + n) % 3 + 1) % 3 == (x + (n + 1)) % 3
  {
  }

  /** n presses of the status button move the status n places in its cycle. */
  lemma {:induction false} StatusPressesCycle(f: State, cs: seq<Clock>, md: NvsStore.Medium)
    ensures Presses(f, StatusButton, cs, md).status == (f.status + |cs|) % 3
  {
    if cs != [] {
      var n := |cs| - 1;
      var g := Presses(f, StatusButton, cs[..n], md);
      StatusPressesCycle(f, cs[..n], md);
      StatusPress(g, cs[n], md);
      assert Presses(f, StatusButton, cs, md).status == (g.status + 1) % 3;
      NextInCycle(f.status, n);
    }
  }

  lemma ModePress(f: State, c: Clock, md: NvsStore.Medium)
    ensures var g := Step(f, Press(ModeButton, c, md));
            && SameDrive(f, g) && g.opMode == (f.opMode + 1) % 3
            && (f.opMode == LOCAL ==> g.opMode == AUTO)
            && (f.opMode == AUTO ==> g.opMode == API)
            && (f.opMode == API ==> g.opMode == LOCAL)
  {
  }

  /** n presses of the mode button move the mode n places in its cycle and leave the fan alone. */
  lemma {:induction false} ModePressesCycle(f: State, cs: seq<Clock>, md: NvsStore.Medium)
    requires IsOpMode(f.opMode)
    ensures Presses(f, ModeButton, cs, md).opMode == (f.opMode + |cs|) % 3
    ensures SameDrive(f, Presses(f, ModeButton, cs, md))
  {
    if cs != [] {
      var n := |cs| - 1;
      ModePressesCycle(f, cs[..n], md);
      ModePress(Presses(f, ModeButton, cs[..n], md), cs[n], md);
      NextInCycle(f.opMode, n);
    }
  }
}

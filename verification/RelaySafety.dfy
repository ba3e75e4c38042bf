/** What every run keeps true of the two relays. */
module RelaySafety {
  import opened Types
  import opened Relay
  import opened Firmware
  import NvsStore

  ghost predicate Wired(f: State) {
    && f.pins == LevelsFor(f.status) == After(RELEASED, f.writes)
    && Interlocked(RELEASED, f.writes)
  }

  lemma RelaysStayWired(f: State, s: MachineStatus)
    requires Wired(f)
    ensures Wired(WithRelays(f, s).(status := s))
  {
    ChangeIsInterlocked(f.pins, s);
    AfterConcat(RELEASED, f.writes, ChangeWrites(s));
    InterlockedConcat(RELEASED, f.writes, ChangeWrites(s));
  }

  lemma StatusStaysWired(f: State, s: MachineStatus, stamp: int)
    requires Wired(f)
    ensures Wired(WithStatus(f, s, stamp))
  {
    RelaysStayWired(f, s);
  }

  lemma ReportStaysWired(f: State, r: Report, c: Clock)
    requires Wired(f)
    ensures Wired(OnReport(f, r, c))
  {
    var g := f.(measurements := Recorded(f.measurements, r, c.entry));
    assert Wired(g);
    StatusStaysWired(g, ON_HIGH, c.stamp);
    StatusStaysWired(g, ON_LOW, c.stamp);
    StatusStaysWired(g, OFF, c.stamp);
  }

  lemma OpModeStaysWired(f: State, m: Int16, md: NvsStore.Medium)
    requires Wired(f)
    ensures Wired(WithOpMode(f, m, md))
  {
  }

  lemma ButtonStaysWired(f: State, b: Button, c: Clock, md: NvsStore.Medium)
    requires Wired(f)
    ensures Wired(OnButton(f, b, c, md))
  {
    match b {
      case ModeButton =>
        OpModeStaysWired(f, (f.opMode + 1) % 3, md);
      case StatusButton =>
        var g := WithOpMode(f, LOCAL, md);
        OpModeStaysWired(f, LOCAL, md);
        var h := WithStatus(g, (g.status + 1) % 3, c.stamp);
        StatusStaysWired(g, (g.status + 1) % 3, c.stamp);
        RelaysStayWired(h, h.status);
    }
  }

  lemma OperationStaysWired(f: State, op: Operation, c: Clock, md: NvsStore.Medium)
    requires Wired(f)
    ensures Wired(OnOperation(f, op, c, md))
  {
    if op == OpAuto {
      OpModeStaysWired(f, AUTO, md);
    } else {
      var s := if op == OpLow then ON_LOW else if op == OpHigh then ON_HIGH else OFF;
      StatusStaysWired(f, s, c.stamp);
      OpModeStaysWired(WithStatus(f, s, c.stamp), API, md);
    }
  }

  lemma StepStaysWired(f: State, e: Event)
    requires Wired(f)
    ensures Wired(Step(f, e))
  {
    match e.action {
      case Reported(r) => ReportStaysWired(f, r, e.clock);
      case Pressed(b) => ButtonStaysWired(f, b, e.clock, e.medium);
      case Commanded(op) => OperationStaysWired(f, op, e.clock, e.medium);
      case _ =>
    }
  }

  lemma {:induction false} RunStaysWired(f: State, es: seq<Event>)
    requires Wired(f)
    ensures Wired(Run(f, es))
  {
    if es != [] {
      RunStaysWired(f, es[..|es| - 1]);
      StepStaysWired(Run(f, es[..|es| - 1]), es[|es| - 1]);
    }
  }

  /**
   * From power-on, through any events (further power cycles included): both relays are never energised
   * together after any single pin write since controller_start.
   */
  lemma RelayInterlock(f: State, on: Event, es: seq<Event>, k: nat)
    requires on.action.PoweredOn? && k <= |Run(Step(f, on), es).writes|
    ensures !BothOn(After(RELEASED, Run(Step(f, on), es).writes[..k]))
  {
    RunStaysWired(Step(f, on), es);
  }

  /** At every event boundary each relay is energised exactly in its own status. */
  lemma RelayRefinement(f: State, on: Event, es: seq<Event>)
    requires on.action.PoweredOn?
    ensures var g := Run(Step(f, on), es);
            && (After(RELEASED, g.writes).low == 0 <==> g.status == ON_LOW)
            && (After(RELEASED, g.writes).high == 0 <==> g.status == ON_HIGH)
            && g.pins == After(RELEASED, g.writes)
  {
    RunStaysWired(Step(f, on), es);
  }
}

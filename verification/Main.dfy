/** main/main.c: the boot order, and the program as a whole serving events. */
module MainProgram {
  import opened Types
  import opened Relay
  import opened Firmware
  import opened Modes
  import opened ModeRecovery
  import NvsStore

  /** app_main ends once per power cycle. */
  ghost predicate Bootable(f: State, es: seq<Event>) {
    forall i :: 0 <= i < |es| && es[i].action.BootFinished? ==> !Run(f, es[..i]).booted
  }

  /**
   * Serving any events, in whatever order they arrive, is a run: the state the theorems speak of is the state of
   * the program. What the handlers need of their callers never fails on the way.
   */
  method Serve(ctrl: Controller, es: seq<Event>)
    requires ModeCoherent(ctrl.Abs()) && Bootable(ctrl.Abs(), es) && forall e <- es :: Fits(e)
    modifies ctrl, ctrl.relay, ctrl.store
    ensures ctrl.Abs() == Run(old(ctrl.Abs()), es)
    ensures ModeCoherent(ctrl.Abs())
  {
    ghost var f := ctrl.Abs();
    var n := 0;
    while n < |es|
      invariant 0 <= n <= |es| && ctrl.Abs() == Run(f, es[..n])
      invariant ModeCoherent(ctrl.Abs())
    {
      var latched: Levels := *;
      ghost var g := ctrl.Abs();
      ctrl.Handle(es[n], latched);
      StepStaysModeCoherent(g, es[n]);
      n := n + 1;
      assert es[..n][..n - 1] == es[..n - 1];
    }
    assert es[..n] == es;
  }

  /** app_main, with the events whose handlers run before its last step; their outcome is BootOutcome. */
  method AppMain(ctrl: Controller, latched: Levels, opens: bool, early: seq<Event>, md: NvsStore.Medium)
    requires Sound(ctrl.store.Abs()) && forall e <- early :: Fits(e) && Early(e)
    modifies ctrl, ctrl.relay, ctrl.store
    ensures ctrl.Abs() == OnBootFinished(Run(OnPowerOn(old(ctrl.Abs()), opens), early), md)
    ensures ctrl.booted && ctrl.opMode == ctrl.store.cachedLastOpMode && IsOpMode(ctrl.opMode)
    ensures ctrl.opMode ==
      var b := OnPowerOn(old(ctrl.Abs()), opens);
      if ModeChanged(b, early) then Run(b, early).opMode
      else if opens then DurableMode(old(ctrl.store.Abs())) else LOCAL
  {
    ghost var f := ctrl.Abs();
    ctrl.PowerOn(latched, opens);
    assert forall i :: 0 <= i < |early| ==> early[i] in early;
    Serve(ctrl, early);
    EarlyRun(f, opens, early);
    BootOutcome(f, opens, early, md);
    OpModeStaysCoherent(ctrl.Abs(), ctrl.store.cachedLastOpMode, md);
    ctrl.FinishBoot(md);
  }
}

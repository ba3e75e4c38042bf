/** Which mode a reboot restores, and which mode the boot sequence ends in. */
module ModeRecovery {
  import opened Types
  import opened Firmware
  import opened Modes
  import opened NvsStore
  import StoreRuns

  /** The mode a power cut now would leave behind. */
  function DurableMode(s: NvsStore.State): Int16 {
    LoadInt(s.durable, LastOpModeKey, LOCAL)
  }

  /** The mode on record: the current mode once app_main has finished. */
  function RecordedMode(f: Firmware.State): Int16 {
    f.store.cache.lastOpMode
  }

  lemma ModeReadsBack(s: NvsStore.State)
    requires Coherent(s)
    ensures LoadInt(View(s), LastOpModeKey, LOCAL) == s.cache.lastOpMode
  {
  }

  lemma DurableModeOfSaves(s: NvsStore.State, e: Event)
    requires s.mounted
    ensures e.action.LimitsPosted? && e.medium == HEALTHY ==>
      var t := LimitsSaved(s, e.action.low, e.action.high, e.action.afterrun, e.medium);
      DurableMode(t) == LoadInt(View(s), LastOpModeKey, LOCAL) && t.cache.lastOpMode == s.cache.lastOpMode
    ensures e.action.UdpServerPosted? && e.medium == HEALTHY ==>
      var t := UdpServerSaved(s, e.action.server, e.action.port, e.medium);
      DurableMode(t) == LoadInt(View(s), LastOpModeKey, LOCAL) && t.cache.lastOpMode == s.cache.lastOpMode
    ensures e.action.CredentialsPosted? && e.medium == HEALTHY ==>
      var t := CredentialsSaved(s, e.action.apName, e.action.password, e.medium);
      DurableMode(t) == LoadInt(View(s), LastOpModeKey, LOCAL) && t.cache.lastOpMode == s.cache.lastOpMode
    ensures e.action.StoreFlushed? ==>
      var t := Flushed(s, e.action.ints, e.action.strs);
      DurableMode(t) in {DurableMode(s), LoadInt(View(s), LastOpModeKey, LOCAL)}
  {
  }

  /** A step leaves the durable mode alone or makes it the recorded one; commits and reboots do the latter. */
  lemma DurableModeStep(f: Firmware.State, e: Event)
    requires f.store.mounted && Coherent(f.store) && StoreRuns.Healthy(e)
    ensures var g := Step(f, e);
            || (DurableMode(g.store) == DurableMode(f.store) && !StoreRuns.Commits(e))
            || DurableMode(g.store) == RecordedMode(g)
  {
    ModeReadsBack(f.store);
    if e.action.Pressed? || e.action.Commanded? {
      ModeHandlersStore(f, e);
    } else if e.action.Reported? {
      assert Step(f, e).store == f.store;
    } else if !e.action.BootFinished? && !e.action.PoweredOn? {
      DurableModeOfSaves(f.store, e);
    }
  }

  /** After the first k events of the run the mode m was on record, and no later event commits. */
  ghost predicate RecordedSinceCommit(f: Firmware.State, es: seq<Event>, k: nat, m: Int16) {
    && k <= |es|
    && (forall i :: 0 <= i < |es| && StoreRuns.Commits(es[i]) ==> i < k)
    && m == RecordedMode(Run(f, es[..k]))
  }

  lemma RecordedBefore(f: Firmware.State, es: seq<Event>, k: nat, m: Int16)
    requires es != [] && !StoreRuns.Commits(es[|es| - 1])
    requires RecordedSinceCommit(f, es[..|es| - 1], k, m)
    ensures RecordedSinceCommit(f, es, k, m)
  {
    var p := es[..|es| - 1];
    assert p[..k] == es[..k];
    assert forall i :: 0 <= i < |p| ==> p[i] == es[i];
  }

  /**
   * The mode a power cut restores was on record at or after the last commit of the run (or at its start), however
   * the medium chose to write pending values back early, and however often the power was cut before.
   */
  lemma {:induction false} DurableModeIsRecent(f: Firmware.State, es: seq<Event>)
    requires f.store.mounted && Coherent(f.store) && DurableMode(f.store) == RecordedMode(f)
    requires forall e <- es :: StoreRuns.Healthy(e)
    ensures exists k: nat :: RecordedSinceCommit(f, es, k, DurableMode(Run(f, es).store))
  {
    var d := DurableMode(Run(f, es).store);
    if d == RecordedMode(Run(f, es)) {
      assert es[..|es|] == es;
      assert RecordedSinceCommit(f, es, |es|, d);
    } else {
      var n := |es| - 1;
      var g := Run(f, es[..n]);
      StoreRuns.CacheCoherence(f, es[..n]);
      DurableModeStep(g, es[n]);
      DurableModeIsRecent(f, es[..n]);
      var k: nat :| RecordedSinceCommit(f, es[..n], k, DurableMode(g.store));
      RecordedBefore(f, es, k, d);
    }
  }

  // ---- The boot sequence ----

  /** Some event of the run changed the mode. */
  ghost predicate ModeChanged(f: Firmware.State, es: seq<Event>) {
    exists i :: 0 <= i < |es| && Run(f, es[..i + 1]).opMode != Run(f, es[..i]).opMode
  }

  lemma ModeChangedSnoc(f: Firmware.State, es: seq<Event>)
    requires es != []
    ensures ModeChanged(f, es) <==>
      ModeChanged(f, es[..|es| - 1]) || Run(f, es).opMode != Run(f, es[..|es| - 1]).opMode
  {
    var n := |es| - 1;
    var p := es[..n];
    assert es[..n + 1] == es;
    assert forall i :: 0 <= i <= n ==> p[..i] == es[..i];
    if ModeChanged(f, es) {
      var i :| 0 <= i < |es| && Run(f, es[..i + 1]).opMode != Run(f, es[..i]).opMode;
      if i < n {
        assert Run(f, p[..i + 1]).opMode != Run(f, p[..i]).opMode;
      }
    }
    if ModeChanged(f, p) {
      var i :| 0 <= i < |p| && Run(f, p[..i + 1]).opMode != Run(f, p[..i]).opMode;
      assert Run(f, es[..i + 1]).opMode != Run(f, es[..i]).opMode;
    }
  }

  /** An event that can arrive while app_main is still starting things up. */
  predicate Early(e: Event) {
    !e.action.PoweredOn? && !e.action.BootFinished?
  }

  lemma EarlyStep(f: Firmware.State, e: Event)
    requires Early(e)
    ensures Step(f, e).booted == f.booted
    ensures RecordedMode(Step(f, e)) == if Step(f, e).opMode == f.opMode then RecordedMode(f) else Step(f, e).opMode
  {
    if e.action.Pressed? || e.action.Commanded? {
      ModeHandlersStore(f, e);
    } else if e.action.Reported? {
      assert Step(f, e).store == f.store && Step(f, e).opMode == f.opMode;
    }
  }

  lemma {:induction false} EarlyRun(f: Firmware.State, opens: bool, es: seq<Event>)
    requires forall e <- es :: Early(e)
    ensures var g := Run(OnPowerOn(f, opens), es);
            && !g.booted
            && if ModeChanged(OnPowerOn(f, opens), es) then RecordedMode(g) == g.opMode
               else g.opMode == LOCAL && RecordedMode(g) == RecordedMode(OnPowerOn(f, opens))
  {
    if es != [] {
      EarlyRun(f, opens, es[..|es| - 1]);
      ModeChangedSnoc(OnPowerOn(f, opens), es);
      EarlyStep(Run(OnPowerOn(f, opens), es[..|es| - 1]), es[|es| - 1]);
    }
  }

  /** The mode after boot: the stored one, unless an early event changed the mode; then the last such change wins. */
  lemma BootOutcome(f: Firmware.State, opens: bool, es: seq<Event>, m: Medium)
    requires forall e <- es :: Early(e)
    ensures var b := OnPowerOn(f, opens);
            var g := OnBootFinished(Run(b, es), m);
            && g.booted
            && g.opMode ==
               if ModeChanged(b, es) then Run(b, es).opMode else if opens then DurableMode(f.store) else LOCAL
  {
    EarlyRun(f, opens, es);
  }

  /**
   * From any power-on with a usable flash content, after any events and power cuts: another power cut and an
   * undisturbed boot bring back a mode that was on record at or after the last commit (or at that power-on). Where
   * boot was over at that moment, that is the mode then in force.
   */
  lemma RebootRestoresRecentMode(f: Firmware.State, on: Event, es: seq<Event>, again: Event, finish: Event)
    requires on.action == again.action == PoweredOn(true) && finish.action == BootFinished
    requires Loadable(f.store.durable) && forall e <- es :: StoreRuns.Healthy(e)
    ensures var b := Step(f, on);
            var restored := Step(Step(Run(b, es), again), finish).opMode;
            exists k: nat ::
              && RecordedSinceCommit(b, es, k, restored)
              && (Run(b, es[..k]).booted ==> restored == Run(b, es[..k]).opMode)
  {
    var b := OnPowerOn(f, true);
    RestartCoherence(f.store);
    DurableModeIsRecent(b, es);
    var k: nat :| RecordedSinceCommit(b, es, k, DurableMode(Run(b, es).store));
    assert forall e <- es[..k] :: e in es;
    ModeCoherence(b, es[..k]);
    BootOutcome(Run(b, es), true, [], finish.medium);
  }

  /** Once the medium has written the mode back, a power cut leaves the recorded mode, committed or not. */
  lemma WrittenBackModeIsDurable(f: Firmware.State, e: Event)
    requires Coherent(f.store) && e.action.StoreFlushed? && LastOpModeKey in e.action.ints
    ensures DurableMode(Step(f, e).store) == RecordedMode(f) == RecordedMode(Step(f, e))
  {
    ModeReadsBack(f.store);
  }

  /**
   * A status press that arrives before app_main has finished selects LOCAL for good only if LOCAL was stored:
   * setOpMode sees LOCAL already in force and records nothing, so the stored mode comes back.
   */
  lemma EarlyStatusPress(f: Firmware.State, c: Clock, m: Medium, m': Medium)
    ensures OnBootFinished(Step(OnPowerOn(f, true), Event(Pressed(StatusButton), c, m)), m').opMode == LOCAL
            <==> DurableMode(f.store) == LOCAL
  {
  }
}

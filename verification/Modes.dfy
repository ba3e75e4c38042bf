/** The operating mode across handlers, the boot sequence, power cuts and reboots. */
module Modes {
  import opened Types
  import opened Firmware
  import NvsStore

  // ---- Range and coherence ----

  /** Everything a later boot could load is usable. */
  predicate Sound(s: NvsStore.State) {
    && NvsStore.Loadable(s.durable)
    && IsOpMode(NvsStore.LoadInt(s.pending, NvsStore.LastOpModeKey, LOCAL))
    && NvsStore.FitsServer(NvsStore.LoadStr(s.pending, NvsStore.UdpServerKey))
    && IsOpMode(s.cache.lastOpMode)
  }

  /** Once app_main has finished, the mode in force is the cached last mode; before, it may still be the zero value. */
  predicate ModeCoherent(f: State) {
    && IsOpMode(f.opMode)
    && Sound(f.store)
    && (f.opMode == f.store.cache.lastOpMode || (!f.booted && f.opMode == LOCAL))
  }

  lemma CommitStaysSound(s: NvsStore.State, m: NvsStore.Medium)
    requires Sound(s)
    ensures Sound(NvsStore.Committed(s, m))
  {
  }

  lemma FlushStaysSound(s: NvsStore.State, ks: set<NvsStore.IntKey>, ts: set<NvsStore.StrKey>)
    requires Sound(s)
    ensures Sound(NvsStore.Flushed(s, ks, ts))
  {
    var t := NvsStore.Flushed(s, ks, ts);
    NvsStore.OverlaySplit(s.durable.ints, s.pending.ints, ks);
    if NvsStore.LastOpModeKey in s.pending.ints && NvsStore.LastOpModeKey in ks {
      assert t.durable.ints[NvsStore.LastOpModeKey] == s.pending.ints[NvsStore.LastOpModeKey];
    }
    if NvsStore.UdpServerKey in s.pending.strs && NvsStore.UdpServerKey in ts {
      assert t.durable.strs[NvsStore.UdpServerKey] == s.pending.strs[NvsStore.UdpServerKey];
    }
  }

  lemma PutIntStaysSound(s: NvsStore.State, k: NvsStore.IntKey, v: Int16, m: NvsStore.Medium)
    requires Sound(s) && (k == NvsStore.LastOpModeKey ==> IsOpMode(v))
    ensures Sound(NvsStore.PutInt(s, k, v, m))
  {
  }

  lemma PutStrStaysSound(s: NvsStore.State, k: NvsStore.StrKey, v: string, m: NvsStore.Medium)
    requires Sound(s) && (k == NvsStore.UdpServerKey ==> NvsStore.FitsServer(v))
    ensures Sound(NvsStore.PutStr(s, k, v, m))
  {
  }

  lemma LimitsStaySound(s: NvsStore.State, low: Uint16, high: Uint16, afterrun: Uint16, m: NvsStore.Medium)
    requires Sound(s)
    ensures Sound(NvsStore.LimitsSaved(s, low, high, afterrun, m))
  {
    var s1 := NvsStore.PutInt(s, NvsStore.LowLimitKey, ToInt16(low), m);
    var s2 := NvsStore.PutInt(s1, NvsStore.HighLimitKey, ToInt16(high), m);
    var s3 := NvsStore.PutInt(s2, NvsStore.AfterrunKey, ToInt16(afterrun), m);
    PutIntStaysSound(s, NvsStore.LowLimitKey, ToInt16(low), m);
    PutIntStaysSound(s1, NvsStore.HighLimitKey, ToInt16(high), m);
    PutIntStaysSound(s2, NvsStore.AfterrunKey, ToInt16(afterrun), m);
    CommitStaysSound(s3.(cache := NvsStore.LimitsSaved(s, low, high, afterrun, m).cache), m);
  }

  lemma CredentialsStaySound(s: NvsStore.State, apName: string, password: string, m: NvsStore.Medium)
    requires Sound(s)
    ensures Sound(NvsStore.CredentialsSaved(s, apName, password, m))
  {
    var s1 := NvsStore.PutStr(s, NvsStore.ApNameKey, apName, m);
    var s2 := NvsStore.PutStr(s1, NvsStore.PasswordKey, password, m);
    PutStrStaysSound(s, NvsStore.ApNameKey, apName, m);
    PutStrStaysSound(s1, NvsStore.PasswordKey, password, m);
    CommitStaysSound(s2.(cache := NvsStore.CredentialsSaved(s, apName, password, m).cache), m);
  }

  lemma UdpServerStaysSound(s: NvsStore.State, server: string, port: Uint16, m: NvsStore.Medium)
    requires Sound(s) && NvsStore.FitsServer(server)
    ensures Sound(NvsStore.UdpServerSaved(s, server, port, m))
  {
    var s1 := NvsStore.PutInt(s, NvsStore.UdpPortKey, ToInt16(port), m);
    var s2 := NvsStore.PutStr(s1, NvsStore.UdpServerKey, server, m);
    PutIntStaysSound(s, NvsStore.UdpPortKey, ToInt16(port), m);
    PutStrStaysSound(s1, NvsStore.UdpServerKey, server, m);
    CommitStaysSound(s2.(cache := NvsStore.UdpServerSaved(s, server, port, m).cache), m);
  }

  lemma OpModeStaysCoherent(f: State, m: Int16, md: NvsStore.Medium)
    requires ModeCoherent(f) && IsOpMode(m)
    ensures ModeCoherent(WithOpMode(f, m, md))
    ensures WithOpMode(f, m, md).opMode == m
    ensures m == f.store.cache.lastOpMode || m != f.opMode ==> WithOpMode(f, m, md).store.cache.lastOpMode == m
  {
    var s := f.store.(cache := f.store.cache.(lastOpMode := m));
    PutIntStaysSound(s, NvsStore.LastOpModeKey, m, md);
  }

  /** Handlers without a mode change leave what ModeCoherent speaks of alone. */
  lemma ModeFrame(f: State, g: State)
    requires ModeCoherent(f) && f.opMode == g.opMode && f.store == g.store && f.booted == g.booted
    ensures ModeCoherent(g)
  {
  }

  lemma ButtonStaysCoherent(f: State, b: Button, c: Clock, md: NvsStore.Medium)
    requires ModeCoherent(f)
    ensures ModeCoherent(OnButton(f, b, c, md))
  {
    if b == ModeButton {
      OpModeStaysCoherent(f, (f.opMode + 1) % 3, md);
    } else {
      OpModeStaysCoherent(f, LOCAL, md);
      ModeFrame(WithOpMode(f, LOCAL, md), OnButton(f, b, c, md));
    }
  }

  lemma OperationStaysCoherent(f: State, op: Operation, c: Clock, md: NvsStore.Medium)
    requires ModeCoherent(f)
    ensures ModeCoherent(OnOperation(f, op, c, md))
  {
    if op == OpAuto {
      OpModeStaysCoherent(f, AUTO, md);
    } else {
      var g := WithStatus(f, if op == OpLow then ON_LOW else if op == OpHigh then ON_HIGH else OFF, c.stamp);
      ModeFrame(f, g);
      OpModeStaysCoherent(g, API, md);
    }
  }

  lemma StepStaysModeCoherent(f: State, e: Event)
    requires ModeCoherent(f) && Fits(e)
    ensures ModeCoherent(Step(f, e))
  {
    match e.action {
      case Reported(r) => ModeFrame(f, Step(f, e));
      case Pressed(b) => ButtonStaysCoherent(f, b, e.clock, e.medium);
      case Commanded(op) => OperationStaysCoherent(f, op, e.clock, e.medium);
      case LimitsPosted(l, h, a) => LimitsStaySound(f.store, l, h, a, e.medium);
      case UdpServerPosted(s, p) => UdpServerStaysSound(f.store, s, p, e.medium);
      case CredentialsPosted(n, p) => CredentialsStaySound(f.store, n, p, e.medium);
      case StoreFlushed(ks, ts) => FlushStaysSound(f.store, ks, ts);
      case PoweredOn(opens) =>
      case BootFinished => OpModeStaysCoherent(f, f.store.cache.lastOpMode, e.medium);
    }
  }

  /**
   * Whatever handlers run, before or after the end of app_main, over any number of power cycles and with any
   * storage failures: the mode is one of the three enumerators, and after boot it is the cached one.
   */
  lemma {:induction false} ModeCoherence(f: State, es: seq<Event>)
    requires ModeCoherent(f) && forall e <- es :: Fits(e)
    ensures ModeCoherent(Run(f, es))
  {
    if es != [] {
      ModeCoherence(f, es[..|es| - 1]);
      StepStaysModeCoherent(Run(f, es[..|es| - 1]), es[|es| - 1]);
    }
  }

  /** From power-on with a usable flash content, mode coherence holds through boot and ever after. */
  lemma ModeCoherenceFromPowerOn(f: State, opens: bool, es: seq<Event>)
    requires NvsStore.Loadable(f.store.durable) && forall e <- es :: Fits(e)
    ensures var g := Run(OnPowerOn(f, opens), es);
            && 0 <= g.opMode < 3
            && (g.booted ==> g.opMode == g.store.cache.lastOpMode)
            && NvsStore.Loadable(g.store.durable)
  {
    ModeCoherence(OnPowerOn(f, opens), es);
  }

  // ---- The string buffers ----

  /** The cached strings fit their buffers of 30, 30 and 20 bytes, terminators included. */
  predicate CachesFit(c: NvsStore.Cache) {
    |c.apName| < 30 && |c.password| < 30 && |c.udpServer| < 20
  }

  lemma {:induction false} CachesFitThroughRun(f: State, es: seq<Event>)
    requires CachesFit(f.store.cache) && Sound(f.store) && ModeCoherent(f) && forall e <- es :: Fits(e)
    ensures CachesFit(Run(f, es).store.cache)
  {
    if es != [] {
      var n := |es| - 1;
      var g := Run(f, es[..n]);
      CachesFitThroughRun(f, es[..n]);
      ModeCoherence(f, es[..n]);
      CachesFitStep(g, es[n]);
    }
  }

  lemma CachesFitStep(f: State, e: Event)
    requires CachesFit(f.store.cache) && Sound(f.store) && Fits(e)
    ensures CachesFit(Step(f, e).store.cache)
  {
    if e.action.Pressed? || e.action.Commanded? {
      ModeHandlersStore(f, e);
    } else if e.action.Reported? {
      assert Step(f, e).store == f.store;
    } else if e.action.PoweredOn? {
      NvsStore.StringReadBack(f.store.durable, NvsStore.ApNameKey);
      NvsStore.StringReadBack(f.store.durable, NvsStore.PasswordKey);
    }
  }

  /** From power-on with a usable flash content, no strcpy into a cache ever overruns it, over any run. */
  lemma CachesAlwaysFit(f: State, opens: bool, es: seq<Event>)
    requires NvsStore.Loadable(f.store.durable) && forall e <- es :: Fits(e)
    ensures var c := Run(OnPowerOn(f, opens), es).store.cache;
            |c.apName| < 30 && |c.password| < 30 && |c.udpServer| < 20
  {
    NvsStore.StringReadBack(f.store.durable, NvsStore.ApNameKey);
    NvsStore.StringReadBack(f.store.durable, NvsStore.PasswordKey);
    CachesFitThroughRun(OnPowerOn(f, opens), es);
  }
}

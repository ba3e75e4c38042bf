/** The settings store over whole runs: agreement with the cache, and what survives power cuts. */
module StoreRuns {
  import opened Types
  import opened Firmware
  import opened NvsStore

  /** An event during which storage works. */
  predicate Healthy(e: Event) {
    Fits(e) && e.medium == HEALTHY && e.action != PoweredOn(false)
  }

  // ---- The cache agrees with the store ----

  lemma OpModeStaysCoherent(s: NvsStore.State, m: Int16)
    requires s.mounted && Coherent(s)
    ensures Coherent(OpModeSaved(s, m, HEALTHY)) && OpModeSaved(s, m, HEALTHY).mounted
  {
    OpModeCoherence(s, m, HEALTHY);
  }

  lemma SavesStayCoherent(s: NvsStore.State, e: Event)
    requires Healthy(e) && s.mounted && Coherent(s)
    requires e.action.LimitsPosted? || e.action.UdpServerPosted? || e.action.CredentialsPosted?
    ensures var t := match e.action
                     case LimitsPosted(l, h, a) => LimitsSaved(s, l, h, a, HEALTHY)
                     case UdpServerPosted(n, p) => UdpServerSaved(s, n, p, HEALTHY)
                     case CredentialsPosted(n, p) => CredentialsSaved(s, n, p, HEALTHY);
            t.mounted && Coherent(t)
  {
    match e.action {
      case LimitsPosted(l, h, a) => LimitsCoherence(s, l, h, a, HEALTHY);
      case UdpServerPosted(n, p) => UdpServerCoherence(s, n, p, HEALTHY);
      case CredentialsPosted(n, p) => CredentialsCoherence(s, n, p, HEALTHY);
    }
  }

  lemma StepStaysCoherent(f: Firmware.State, e: Event)
    requires Healthy(e) && f.store.mounted && Coherent(f.store)
    ensures Step(f, e).store.mounted && Coherent(Step(f, e).store)
  {
    if e.action.Pressed? || e.action.Commanded? {
      ModeHandlersStore(f, e);
      OpModeStaysCoherent(f.store, Step(f, e).opMode);
    } else if e.action.Reported? {
      assert Step(f, e).store == f.store;
    } else if e.action.StoreFlushed? {
      FlushKeepsView(f.store, e.action.ints, e.action.strs);
    } else if e.action.PoweredOn? {
      RestartCoherence(f.store);
    } else if e.action.BootFinished? {
      OpModeStaysCoherent(f.store, f.store.cache.lastOpMode);
    } else {
      SavesStayCoherent(f.store, e);
    }
  }

  /** As long as storage works, the cache equals what a reload would produce, across power cycles too. */
  lemma {:induction false} CacheCoherence(f: Firmware.State, es: seq<Event>)
    requires f.store.mounted && Coherent(f.store) && forall e <- es :: Healthy(e)
    ensures Run(f, es).store.mounted && Coherent(Run(f, es).store)
  {
    if es != [] {
      CacheCoherence(f, es[..|es| - 1]);
      StepStaysCoherent(Run(f, es[..|es| - 1]), es[|es| - 1]);
    }
  }

  predicate Commits(e: Event) {
    e.action.LimitsPosted? || e.action.UdpServerPosted? || e.action.CredentialsPosted?
  }

  lemma CommittedStep(f: Firmware.State, e: Event)
    requires Healthy(e) && Commits(e) && f.store.mounted
    ensures Step(f, e).store.pending == EMPTY_NVS
  {
  }

  /** A power cycle right after a committing request changes no getter: the whole cache comes back. */
  lemma RebootAfterCommit(f: Firmware.State, es: seq<Event>)
    requires f.store.mounted && Coherent(f.store) && forall e <- es :: Healthy(e)
    requires es != [] && Commits(es[|es| - 1])
    ensures OnPowerOn(Run(f, es), true).store.cache == Run(f, es).store.cache
  {
    CacheCoherence(f, es);
    CacheCoherence(f, es[..|es| - 1]);
    CommittedStep(Run(f, es[..|es| - 1]), es[|es| - 1]);
    QuietRestart(Run(f, es).store);
  }

  // ---- Posted settings persist ----

  function CachedInt(c: Cache, k: IntKey): Int16 {
    match k
    case LowLimitKey => c.lowLimit
    case HighLimitKey => c.highLimit
    case AfterrunKey => c.afterrun
    case LastOpModeKey => c.lastOpMode
    case UdpPortKey => c.udpPort
  }

  function CachedStr(c: Cache, k: StrKey): string {
    match k
    case ApNameKey => c.apName
    case PasswordKey => c.password
    case UdpServerKey => c.udpServer
  }

  /** The keys an action may write. */
  function WrittenInts(a: Action): set<IntKey> {
    match a
    case LimitsPosted(_, _, _) => {LowLimitKey, HighLimitKey, AfterrunKey}
    case UdpServerPosted(_, _) => {UdpPortKey}
    case Pressed(_) => {LastOpModeKey}
    case Commanded(_) => {LastOpModeKey}
    case BootFinished => {LastOpModeKey}
    case _ => {}
  }

  function WrittenStrs(a: Action): set<StrKey> {
    match a
    case UdpServerPosted(_, _) => {UdpServerKey}
    case CredentialsPosted(_, _) => {ApNameKey, PasswordKey}
    case _ => {}
  }

  /** The value is cached and durable, and no write of the key is pending. */
  predicate IntSettled(s: NvsStore.State, k: IntKey, v: Int16) {
    && s.mounted && CachedInt(s.cache, k) == v
    && k in s.durable.ints && s.durable.ints[k] == v && k !in s.pending.ints
  }

  predicate StrSettled(s: NvsStore.State, k: StrKey, v: string) {
    && s.mounted && CachedStr(s.cache, k) == v && |v| < READ_LENGTH
    && k in s.durable.strs && s.durable.strs[k] == v && k !in s.pending.strs
  }

  /** The key was never stored; what is cached is its default, or zero if the store did not open. */
  predicate IntUnset(s: NvsStore.State, k: IntKey, default: Int16) {
    && k !in s.durable.ints && k !in s.pending.ints
    && CachedInt(s.cache, k) == if s.mounted then default else 0
  }

  /** What a step does to a key it does not write, unless it restarts the device: nothing but a write-back. */
  predicate KeyKept(s: NvsStore.State, t: NvsStore.State, k: IntKey) {
    && t.mounted == s.mounted && CachedInt(t.cache, k) == CachedInt(s.cache, k)
    && (k in t.pending.ints ==> k in s.pending.ints)
    && (k !in s.pending.ints ==>
          && (k in t.durable.ints <==> k in s.durable.ints)
          && (k in s.durable.ints ==> t.durable.ints[k] == s.durable.ints[k]))
  }

  predicate StrKept(s: NvsStore.State, t: NvsStore.State, k: StrKey) {
    && t.mounted == s.mounted && CachedStr(t.cache, k) == CachedStr(s.cache, k)
    && (k in t.pending.strs ==> k in s.pending.strs)
    && (k !in s.pending.strs ==>
          && (k in t.durable.strs <==> k in s.durable.strs)
          && (k in s.durable.strs ==> t.durable.strs[k] == s.durable.strs[k]))
  }

  lemma OpModeKeeps(s: NvsStore.State, mode: Int16, m: Medium, k: IntKey, j: StrKey)
    ensures k != LastOpModeKey ==> KeyKept(s, OpModeSaved(s, mode, m), k)
    ensures StrKept(s, OpModeSaved(s, mode, m), j)
  {
  }

  lemma LimitsKeep(s: NvsStore.State, low: Uint16, high: Uint16, afterrun: Uint16, m: Medium, k: IntKey, j: StrKey)
    ensures k !in {LowLimitKey, HighLimitKey, AfterrunKey} ==> KeyKept(s, LimitsSaved(s, low, high, afterrun, m), k)
    ensures StrKept(s, LimitsSaved(s, low, high, afterrun, m), j)
  {
  }

  lemma UdpServerKeeps(s: NvsStore.State, server: string, port: Uint16, m: Medium, k: IntKey, j: StrKey)
    ensures k != UdpPortKey ==> KeyKept(s, UdpServerSaved(s, server, port, m), k)
    ensures j != UdpServerKey ==> StrKept(s, UdpServerSaved(s, server, port, m), j)
  {
  }

  lemma CredentialsKeep(s: NvsStore.State, apName: string, password: string, m: Medium, k: IntKey, j: StrKey)
    ensures KeyKept(s, CredentialsSaved(s, apName, password, m), k)
    ensures j !in {ApNameKey, PasswordKey} ==> StrKept(s, CredentialsSaved(s, apName, password, m), j)
  {
  }

  lemma FlushKeeps(s: NvsStore.State, ks: set<IntKey>, ts: set<StrKey>, k: IntKey, j: StrKey)
    ensures KeyKept(s, Flushed(s, ks, ts), k)
    ensures StrKept(s, Flushed(s, ks, ts), j)
  {
  }

  /** No handler touches a key it does not write. */
  lemma StepKeeps(f: Firmware.State, e: Event, k: IntKey, j: StrKey)
    requires !e.action.PoweredOn?
    ensures k !in WrittenInts(e.action) ==> KeyKept(f.store, Step(f, e).store, k)
    ensures j !in WrittenStrs(e.action) ==> StrKept(f.store, Step(f, e).store, j)
  {
    match e.action {
      case Reported(_) => assert Step(f, e).store == f.store;
      case Pressed(_) | Commanded(_) =>
        ModeHandlersStore(f, e);
        OpModeKeeps(f.store, Step(f, e).opMode, e.medium, k, j);
      case LimitsPosted(low, high, afterrun) => LimitsKeep(f.store, low, high, afterrun, e.medium, k, j);
      case UdpServerPosted(server, port) => UdpServerKeeps(f.store, server, port, e.medium, k, j);
      case CredentialsPosted(apName, password) => CredentialsKeep(f.store, apName, password, e.medium, k, j);
      case StoreFlushed(ks, ts) => FlushKeeps(f.store, ks, ts, k, j);
      case BootFinished => OpModeKeeps(f.store, f.store.cache.lastOpMode, e.medium, k, j);
    }
  }

  /** A settled number stays settled until the key is written again, over power cycles on which the store opens. */
  lemma {:induction false} IntStaysSettled(f: Firmware.State, es: seq<Event>, k: IntKey, v: Int16)
    requires IntSettled(f.store, k, v)
    requires forall e <- es :: k !in WrittenInts(e.action) && e.action != PoweredOn(false)
    ensures IntSettled(Run(f, es).store, k, v)
  {
    if es != [] {
      var n := |es| - 1;
      var g := Run(f, es[..n]);
      IntStaysSettled(f, es[..n], k, v);
      if !es[n].action.PoweredOn? {
        StepKeeps(g, es[n], k, ApNameKey);
      }
    }
  }

  lemma {:induction false} StrStaysSettled(f: Firmware.State, es: seq<Event>, k: StrKey, v: string)
    requires StrSettled(f.store, k, v)
    requires forall e <- es :: k !in WrittenStrs(e.action) && e.action != PoweredOn(false)
    ensures StrSettled(Run(f, es).store, k, v)
  {
    if es != [] {
      var n := |es| - 1;
      var g := Run(f, es[..n]);
      StrStaysSettled(f, es[..n], k, v);
      if !es[n].action.PoweredOn? {
        StepKeeps(g, es[n], LowLimitKey, k);
      }
    }
  }

  predicate DefaultOf(k: IntKey, default: Int16) {
    default == match k
      case LowLimitKey => DEFAULT_LOW_LIMIT
      case HighLimitKey => DEFAULT_HIGH_LIMIT
      case _ => 0
  }

  lemma RestartUnset(f: Firmware.State, opens: bool, k: IntKey, default: Int16)
    requires k !in f.store.durable.ints && DefaultOf(k, default)
    ensures IntUnset(OnPowerOn(f, opens).store, k, default)
  {
  }

  lemma {:induction false} IntStaysUnset(f: Firmware.State, es: seq<Event>, k: IntKey, default: Int16)
    requires IntUnset(f.store, k, default) && DefaultOf(k, default)
    requires forall e <- es :: k !in WrittenInts(e.action)
    ensures IntUnset(Run(f, es).store, k, default)
  {
    if es != [] {
      var n := |es| - 1;
      var g := Run(f, es[..n]);
      IntStaysUnset(f, es[..n], k, default);
      if es[n].action.PoweredOn? {
        RestartUnset(g, es[n].action.nvsOpens, k, default);
      } else {
        StepKeeps(g, es[n], k, ApNameKey);
      }
    }
  }

  lemma LimitsSettle(s: NvsStore.State, low: Uint16, high: Uint16, afterrun: Uint16, m: Medium)
    requires s.mounted && m.commits && {LowLimitKey, HighLimitKey, AfterrunKey} <= m.ints
    ensures var t := LimitsSaved(s, low, high, afterrun, m);
            && IntSettled(t, LowLimitKey, ToInt16(low)) && IntSettled(t, HighLimitKey, ToInt16(high))
            && IntSettled(t, AfterrunKey, ToInt16(afterrun))
  {
    assert LowLimitKey in m.ints && HighLimitKey in m.ints && AfterrunKey in m.ints;
  }

  /**
   * Posted limits are what the getters return at once and after any later events that post no limits, over any
   * number of power cuts; only the medium's behaviour during the posting itself matters.
   */
  lemma LimitsPersist(f: Firmware.State, e: Event, es: seq<Event>)
    requires f.store.mounted && e.action.LimitsPosted?
    requires e.medium.commits && {LowLimitKey, HighLimitKey, AfterrunKey} <= e.medium.ints
    requires forall x <- es :: !x.action.LimitsPosted? && x.action != PoweredOn(false)
    ensures var s := Run(Step(f, e), es).store;
            && LowLimit(s) == e.action.low
            && HighLimit(s) == e.action.high
            && AfterrunSeconds(s) == e.action.afterrun
  {
    LimitsSettle(f.store, e.action.low, e.action.high, e.action.afterrun, e.medium);
    IntStaysSettled(Step(f, e), es, LowLimitKey, ToInt16(e.action.low));
    IntStaysSettled(Step(f, e), es, HighLimitKey, ToInt16(e.action.high));
    IntStaysSettled(Step(f, e), es, AfterrunKey, ToInt16(e.action.afterrun));
    NarrowingIsLossless(e.action.low, 0);
    NarrowingIsLossless(e.action.high, 0);
    NarrowingIsLossless(e.action.afterrun, 0);
  }

  /** The same for a posted logging server and port. */
  lemma UdpServerPersists(f: Firmware.State, e: Event, es: seq<Event>)
    requires f.store.mounted && e.action.UdpServerPosted? && Fits(e)
    requires e.medium.commits && UdpPortKey in e.medium.ints && UdpServerKey in e.medium.strs
    requires forall x <- es :: !x.action.UdpServerPosted? && x.action != PoweredOn(false)
    ensures var s := Run(Step(f, e), es).store;
            s.cache.udpServer == e.action.server && UdpPort(s) == e.action.port
  {
    var g := Step(f, e);
    assert IntSettled(g.store, UdpPortKey, ToInt16(e.action.port));
    assert StrSettled(g.store, UdpServerKey, e.action.server);
    IntStaysSettled(g, es, UdpPortKey, ToInt16(e.action.port));
    StrStaysSettled(g, es, UdpServerKey, e.action.server);
    NarrowingIsLossless(e.action.port, 0);
  }

  /** The same for posted credentials: also over the restart that follows, and every later one. */
  lemma CredentialsPersist(f: Firmware.State, e: Event, es: seq<Event>)
    requires f.store.mounted && e.action.CredentialsPosted? && Fits(e)
    requires e.medium.commits && {ApNameKey, PasswordKey} <= e.medium.strs
    requires forall x <- es :: !x.action.CredentialsPosted? && x.action != PoweredOn(false)
    ensures var s := Run(Step(f, e), es).store;
            s.cache.apName == e.action.apName && s.cache.password == e.action.password
  {
    var g := Step(f, e);
    assert ApNameKey in e.medium.strs && PasswordKey in e.medium.strs;
    assert StrSettled(g.store, ApNameKey, e.action.apName);
    assert StrSettled(g.store, PasswordKey, e.action.password);
    StrStaysSettled(g, es, ApNameKey, e.action.apName);
    StrStaysSettled(g, es, PasswordKey, e.action.password);
  }

  /** An event that makes nothing durable: no write-back, and a commit, if the handler has one, is refused. */
  predicate Uncommitted(e: Event) {
    !e.action.StoreFlushed? && (Commits(e) ==> !e.medium.commits)
  }

  lemma UncommittedStep(f: Firmware.State, e: Event)
    requires Uncommitted(e)
    ensures Step(f, e).store.durable == f.store.durable
  {
    if e.action.Pressed? || e.action.Commanded? {
      ModeHandlersStore(f, e);
    } else if e.action.Reported? {
      assert Step(f, e).store == f.store;
    }
  }

  /**
   * Without a successful commit and without write-backs nothing lasts: after a power cut the device is in the state
   * it would be in if none of the events had happened.
   */
  lemma {:induction false} UncommittedRunLeavesNoTrace(f: Firmware.State, es: seq<Event>, on: Event)
    requires on.action.PoweredOn? && forall e <- es :: Uncommitted(e)
    ensures Step(Run(f, es), on) == Step(f, on)
  {
    if es != [] {
      UncommittedRunLeavesNoTrace(f, es[..|es| - 1], on);
      UncommittedStep(Run(f, es[..|es| - 1]), es[|es| - 1]);
    }
  }

  /** handle_credentials restarts the device; what it stored is what the restarted device connects with. */
  lemma CredentialsSurviveRestart(f: Firmware.State, e: Event)
    requires f.store.mounted && Coherent(f.store) && Healthy(e) && e.action.CredentialsPosted?
    ensures var s := OnPowerOn(Step(f, e), true).store;
            && s.cache == Step(f, e).store.cache
            && s.cache.apName == e.action.apName && s.cache.password == e.action.password
  {
    SavesStayCoherent(f.store, e);
    CommittedStep(f, e);
    QuietRestart(Step(f, e).store);
  }

  /**
   * Limits that were never stored: until some are posted, and over any number of power cycles, the getters return
   * the defaults 50, 100 and 0 whenever the store has opened, and zeros whenever it has not.
   */
  lemma DefaultsUntilPosted(f: Firmware.State, opens: bool, es: seq<Event>)
    requires {LowLimitKey, HighLimitKey, AfterrunKey} !! f.store.durable.ints.Keys
    requires forall e <- es :: !e.action.LimitsPosted?
    ensures var s := Run(OnPowerOn(f, opens), es).store;
            && LowLimit(s) == (if s.mounted then 50 else 0)
            && HighLimit(s) == (if s.mounted then 100 else 0)
            && AfterrunSeconds(s) == 0
  {
    var absent := {LowLimitKey, HighLimitKey, AfterrunKey};
    assert LowLimitKey in absent && HighLimitKey in absent && AfterrunKey in absent;
    var b := OnPowerOn(f, opens);
    RestartUnset(f, opens, LowLimitKey, DEFAULT_LOW_LIMIT);
    RestartUnset(f, opens, HighLimitKey, DEFAULT_HIGH_LIMIT);
    RestartUnset(f, opens, AfterrunKey, 0);
    IntStaysUnset(b, es, LowLimitKey, DEFAULT_LOW_LIMIT);
    IntStaysUnset(b, es, HighLimitKey, DEFAULT_HIGH_LIMIT);
    IntStaysUnset(b, es, AfterrunKey, 0);
  }
}

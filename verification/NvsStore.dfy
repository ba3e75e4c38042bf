/** main/nvs_store.c: a write-through cache over non-volatile storage. */
module NvsStore {
  import opened Types

  datatype IntKey = LowLimitKey | HighLimitKey | AfterrunKey | LastOpModeKey | UdpPortKey
  datatype StrKey = ApNameKey | PasswordKey | UdpServerKey

  datatype Nvs = Nvs(ints: map<IntKey, Int16>, strs: map<StrKey, string>)

  /** The cached_* globals. */
  datatype Cache = Cache(
    lowLimit: Int16, highLimit: Int16, afterrun: Int16, udpPort: Int16, lastOpMode: Int16,
    apName: string, password: string, udpServer: string)

  /** What the medium does during one handler: the keys whose nvs_set succeeds, and whether nvs_commit does. */
  datatype Medium = Medium(ints: set<IntKey>, strs: set<StrKey>, commits: bool)

  const HEALTHY := Medium({LowLimitKey, HighLimitKey, AfterrunKey, LastOpModeKey, UdpPortKey},
                          {ApNameKey, PasswordKey, UdpServerKey}, true)

  /** `durable` survives a power cut; `pending` holds accepted writes that may not have reached flash yet. */
  datatype State = State(mounted: bool, durable: Nvs, pending: Nvs, cache: Cache)

  const EMPTY_NVS := Nvs(map[], map[])
  const ZERO_CACHE := Cache(0, 0, 0, 0, 0, "", "", "")
  const DEFAULT_LOW_LIMIT: Int16 := 50
  const DEFAULT_HIGH_LIMIT: Int16 := 100
  const READ_LENGTH := 30  // the length readString passes, terminator included

  /** What a read through the handle sees: pending writes over durable ones. */
  function View(s: State): Nvs {
    Nvs(s.durable.ints + s.pending.ints, s.durable.strs + s.pending.strs)
  }

  // ---- What each operation does to the store ----

  function LoadInt(nvs: Nvs, k: IntKey, current: Int16): Int16 {
    if k in nvs.ints then nvs.ints[k] else current
  }

  function LoadStr(nvs: Nvs, k: StrKey): string {
    if k in nvs.strs && |nvs.strs[k]| < READ_LENGTH then nvs.strs[k] else ""
  }

  /** The cache store_start fills from a mounted store. */
  function Load(nvs: Nvs): Cache {
    Cache(LoadInt(nvs, LowLimitKey, DEFAULT_LOW_LIMIT), LoadInt(nvs, HighLimitKey, DEFAULT_HIGH_LIMIT),
          LoadInt(nvs, AfterrunKey, 0), LoadInt(nvs, UdpPortKey, 0), LoadInt(nvs, LastOpModeKey, 0),
          LoadStr(nvs, ApNameKey), LoadStr(nvs, PasswordKey), LoadStr(nvs, UdpServerKey))
  }

  function PutInt(s: State, k: IntKey, v: Int16, m: Medium): State {
    if s.mounted && k in m.ints then s.(pending := s.pending.(ints := s.pending.ints[k := v])) else s
  }

  function PutStr(s: State, k: StrKey, v: string, m: Medium): State {
    if s.mounted && k in m.strs then s.(pending := s.pending.(strs := s.pending.strs[k := v])) else s
  }

  function Committed(s: State, m: Medium): State {
    if s.mounted && m.commits then s.(durable := View(s), pending := EMPTY_NVS) else s
  }

  /** The medium makes some accepted writes durable before any commit. */
  function Flushed(s: State, ks: set<IntKey>, ts: set<StrKey>): State {
    s.(durable := Nvs(s.durable.ints + (map k | k in s.pending.ints && k in ks :: s.pending.ints[k]),
                      s.durable.strs + (map k | k in s.pending.strs && k in ts :: s.pending.strs[k])),
       pending := Nvs(s.pending.ints - ks, s.pending.strs - ts))
  }

  /** Power returns: only durable values are left, RAM is zeroed, and store_start runs. */
  function Restarted(s: State, opens: bool): State {
    State(opens, s.durable, EMPTY_NVS, if opens then Load(s.durable) else ZERO_CACHE)
  }

  function LimitsSaved(s: State, low: Uint16, high: Uint16, afterrun: Uint16, m: Medium): State {
    var w := PutInt(PutInt(PutInt(s, LowLimitKey, ToInt16(low), m), HighLimitKey, ToInt16(high), m),
                    AfterrunKey, ToInt16(afterrun), m);
    var c := w.cache.(lowLimit := ToInt16(low), highLimit := ToInt16(high), afterrun := ToInt16(afterrun));
    Committed(w.(cache := c), m)
  }

  function CredentialsSaved(s: State, apName: string, password: string, m: Medium): State {
    var w := PutStr(PutStr(s, ApNameKey, apName, m), PasswordKey, password, m);
    Committed(w.(cache := w.cache.(apName := apName, password := password)), m)
  }

  function UdpServerSaved(s: State, server: string, port: Uint16, m: Medium): State {
    var w := PutStr(PutInt(s, UdpPortKey, ToInt16(port), m), UdpServerKey, server, m);
    Committed(w.(cache := w.cache.(udpServer := server, udpPort := ToInt16(port))), m)
  }

  function OpModeSaved(s: State, mode: Int16, m: Medium): State {
    PutInt(s.(cache := s.cache.(lastOpMode := mode)), LastOpModeKey, mode, m)
  }

  function LowLimit(s: State): Uint16 { ToUint16(s.cache.lowLimit) }
  function HighLimit(s: State): Uint16 { ToUint16(s.cache.highLimit) }
  function AfterrunSeconds(s: State): Uint16 { ToUint16(s.cache.afterrun) }
  function UdpPort(s: State): Uint16 { ToUint16(s.cache.udpPort) }

  // ---- The module itself ----

  /** Strings that fit the cached_* buffers (30, 30 and 20 bytes with their terminators). */
  predicate FitsCredentials(apName: string, password: string) {
    |apName| < 30 && |password| < 30
  }

  predicate FitsServer(server: string) {
    |server| < 20
  }

  /**
   * What store_start needs of the flash content: the server name fits its 20-byte cache, and the mode indexes
   * OpModeStr. (readString itself bounds the two credentials.)
   */
  predicate Loadable(nvs: Nvs) {
    FitsServer(LoadStr(nvs, UdpServerKey)) && IsOpMode(LoadInt(nvs, LastOpModeKey, LOCAL))
  }

  class Store {
    var mounted: bool
    var durable: Nvs
    var pending: Nvs
    var cachedLowLimit: Int16
    var cachedHighLimit: Int16
    var cachedAfterrunSeconds: Int16
    var cachedUdpPort: Int16
    var cachedLastOpMode: Int16
    var cachedApName: string
    var cachedPassword: string
    var cachedUdpServer: string

    ghost function Abs(): State
      reads this
    {
      State(mounted, durable, pending,
            Cache(cachedLowLimit, cachedHighLimit, cachedAfterrunSeconds, cachedUdpPort, cachedLastOpMode,
                  cachedApName, cachedPassword, cachedUdpServer))
    }

    /** A device whose flash holds `content` and that has not booted yet. */
    constructor (content: Nvs)
      ensures Abs() == State(false, content, EMPTY_NVS, ZERO_CACHE)
    {
      mounted, durable, pending := false, content, EMPTY_NVS;
      cachedLowLimit, cachedHighLimit, cachedAfterrunSeconds := 0, 0, 0;
      cachedUdpPort, cachedLastOpMode := 0, 0;
      cachedApName, cachedPassword, cachedUdpServer := "", "", "";
    }

    method ReadInt(k: IntKey, current: Int16) returns (v: Int16)
      ensures v == LoadInt(View(Abs()), k, current)
    {
      v := current;
      if k in pending.ints {
        v := pending.ints[k];
      } else if k in durable.ints {
        v := durable.ints[k];
      }
    }

    method ReadString(k: StrKey) returns (v: string)
      ensures v == LoadStr(View(Abs()), k)
    {
      v := "";
      if k in pending.strs {
        if |pending.strs[k]| < READ_LENGTH {
          v := pending.strs[k];
        }
      } else if k in durable.strs && |durable.strs[k]| < READ_LENGTH {
        v := durable.strs[k];
      }
    }

    method WriteInt(k: IntKey, v: Int16, m: Medium)
      modifies this
      ensures Abs() == PutInt(old(Abs()), k, v, m)
    {
      if mounted && k in m.ints {
        pending := pending.(ints := pending.ints[k := v]);
      }
    }

    method WriteString(k: StrKey, v: string, m: Medium)
      modifies this
      ensures Abs() == PutStr(old(Abs()), k, v, m)
    {
      if mounted && k in m.strs {
        pending := pending.(strs := pending.strs[k := v]);
      }
    }

    method Commit(m: Medium)
      modifies this
      ensures Abs() == Committed(old(Abs()), m)
    {
      if mounted && m.commits {
        durable := Nvs(durable.ints + pending.ints, durable.strs + pending.strs);
        pending := EMPTY_NVS;
      }
    }

    /** The environment's step: the flash driver writes back some of the pending values. */
    method Flush(ks: set<IntKey>, ts: set<StrKey>)
      modifies this
      ensures Abs() == Flushed(old(Abs()), ks, ts)
    {
      durable := Nvs(durable.ints + (map k | k in pending.ints && k in ks :: pending.ints[k]),
                     durable.strs + (map k | k in pending.strs && k in ts :: pending.strs[k]));
      pending := Nvs(pending.ints - ks, pending.strs - ts);
    }

    /** Power loss and the zeroing of the globals before app_main runs. */
    method PowerOn()
      modifies this
      ensures Abs() == State(false, old(durable), EMPTY_NVS, ZERO_CACHE)
    {
      mounted, pending := false, EMPTY_NVS;
      cachedLowLimit, cachedHighLimit, cachedAfterrunSeconds := 0, 0, 0;
      cachedUdpPort, cachedLastOpMode := 0, 0;
      cachedApName, cachedPassword, cachedUdpServer := "", "", "";
    }

    /** store_start; `opens` is the outcome of nvs_open. */
    method StoreStart(opens: bool)
      requires !mounted && pending == EMPTY_NVS && Abs().cache == ZERO_CACHE
      requires opens ==> Loadable(durable)
      modifies this
      ensures Abs() == Restarted(old(Abs()), opens)
    {
      if opens {
        mounted := true;
        cachedLowLimit := DEFAULT_LOW_LIMIT;
        cachedHighLimit := DEFAULT_HIGH_LIMIT;
        LoadNumbers();
        LoadStrings();
      }
    }

    method LoadNumbers()
      requires pending == EMPTY_NVS
      modifies this`cachedLowLimit, this`cachedHighLimit, this`cachedAfterrunSeconds, this`cachedLastOpMode,
        this`cachedUdpPort
      ensures cachedLowLimit == LoadInt(durable, LowLimitKey, old(cachedLowLimit))
      ensures cachedHighLimit == LoadInt(durable, HighLimitKey, old(cachedHighLimit))
      ensures cachedAfterrunSeconds == LoadInt(durable, AfterrunKey, old(cachedAfterrunSeconds))
      ensures cachedLastOpMode == LoadInt(durable, LastOpModeKey, old(cachedLastOpMode))
      ensures cachedUdpPort == LoadInt(durable, UdpPortKey, old(cachedUdpPort))
    {
      assert View(Abs()) == durable;
      cachedLowLimit := ReadInt(LowLimitKey, cachedLowLimit);
      cachedHighLimit := ReadInt(HighLimitKey, cachedHighLimit);
      cachedAfterrunSeconds := ReadInt(AfterrunKey, cachedAfterrunSeconds);
      cachedLastOpMode := ReadInt(LastOpModeKey, cachedLastOpMode);
      cachedUdpPort := ReadInt(UdpPortKey, cachedUdpPort);
    }

    method LoadStrings()
      requires pending == EMPTY_NVS
      modifies this`cachedApName, this`cachedPassword, this`cachedUdpServer
      ensures cachedApName == LoadStr(durable, ApNameKey)
      ensures cachedPassword == LoadStr(durable, PasswordKey)
      ensures cachedUdpServer == LoadStr(durable, UdpServerKey)
    {
      assert View(Abs()) == durable;
      cachedApName := ReadString(ApNameKey);
      cachedPassword := ReadString(PasswordKey);
      cachedUdpServer := ReadString(UdpServerKey);
    }

    method SetLimit(low: Uint16, high: Uint16, afterrun: Uint16, m: Medium)
      modifies this
      ensures Abs() == LimitsSaved(old(Abs()), low, high, afterrun, m)
    {
      WriteInt(LowLimitKey, ToInt16(low), m);
      WriteInt(HighLimitKey, ToInt16(high), m);
      WriteInt(AfterrunKey, ToInt16(afterrun), m);
      cachedLowLimit := ToInt16(low);
      cachedHighLimit := ToInt16(high);
      cachedAfterrunSeconds := ToInt16(afterrun);
      Commit(m);
    }

    method SetWlanCredentials(apName: string, password: string, m: Medium)
      requires |apName| < 30 && |password| < 30
      modifies this
      ensures Abs() == CredentialsSaved(old(Abs()), apName, password, m)
    {
      WriteString(ApNameKey, apName, m);
      WriteString(PasswordKey, password, m);
      cachedApName := apName;
      cachedPassword := password;
      Commit(m);
    }

    method SetUdpServer(server: string, port: Uint16, m: Medium)
      requires |server| < 20
      modifies this
      ensures Abs() == UdpServerSaved(old(Abs()), server, port, m)
    {
      WriteInt(UdpPortKey, ToInt16(port), m);
      WriteString(UdpServerKey, server, m);
      cachedUdpServer := server;
      cachedUdpPort := ToInt16(port);
      Commit(m);
    }

    method SaveLastOpMode(mode: Int16, m: Medium)
      modifies this
      ensures Abs() == OpModeSaved(old(Abs()), mode, m)
    {
      cachedLastOpMode := mode;
      WriteInt(LastOpModeKey, cachedLastOpMode, m);
    }

    function GetLowLimit(): (v: Uint16)
      reads this
      ensures v == LowLimit(Abs())
    {
      ToUint16(cachedLowLimit)
    }

    function GetHighLimit(): (v: Uint16)
      reads this
      ensures v == HighLimit(Abs())
    {
      ToUint16(cachedHighLimit)
    }

    function GetAfterrunSeconds(): (v: Uint16)
      reads this
      ensures v == AfterrunSeconds(Abs())
    {
      ToUint16(cachedAfterrunSeconds)
    }
  }

  // ---- Cache coherence ----

  /** Reading the store again would reproduce the cache. */
  ghost predicate Coherent(s: State) {
    s.cache == Load(View(s))
  }

  /** A write changes what is read back for its own key only. */
  lemma PutIntLoads(s: State, k: IntKey, v: Int16, m: Medium)
    ensures forall j, d ::
      LoadInt(View(PutInt(s, k, v, m)), j, d) ==
        (if j == k && s.mounted && k in m.ints then v else LoadInt(View(s), j, d))
    ensures View(PutInt(s, k, v, m)).strs == View(s).strs
  {
  }

  lemma PutStrLoads(s: State, k: StrKey, v: string, m: Medium)
    requires |v| < 30
    ensures forall j ::
      LoadStr(View(PutStr(s, k, v, m)), j) == (if j == k && s.mounted && k in m.strs then v else LoadStr(View(s), j))
    ensures View(PutStr(s, k, v, m)).ints == View(s).ints
  {
  }

  /** What readString yields: the stored text of at most 29 characters, and the empty text for all else. */
  lemma StringReadBack(nvs: Nvs, k: StrKey)
    ensures k in nvs.strs && |nvs.strs[k]| < 30 ==> LoadStr(nvs, k) == nvs.strs[k]
    ensures k !in nvs.strs || |nvs.strs[k]| >= 30 ==> LoadStr(nvs, k) == ""
  {
  }

  lemma CommitKeepsView(s: State, m: Medium)
    ensures View(Committed(s, m)) == View(s)
  {
  }

  lemma OverlaySplit<K, V>(d: map<K, V>, p: map<K, V>, ks: set<K>)
    ensures d + (map k | k in p && k in ks :: p[k]) + (p - ks) == d + p
  {
  }

  lemma FlushKeepsView(s: State, ks: set<IntKey>, ts: set<StrKey>)
    ensures View(Flushed(s, ks, ts)) == View(s)
  {
    OverlaySplit(s.durable.ints, s.pending.ints, ks);
    OverlaySplit(s.durable.strs, s.pending.strs, ts);
  }

  /** Every write of a key takes, or the key already read back as that value. */
  predicate Takes(s: State, k: IntKey, v: Int16, default: Int16, m: Medium) {
    (s.mounted && k in m.ints) || LoadInt(View(s), k, default) == v
  }

  predicate TakesStr(s: State, k: StrKey, v: string, m: Medium) {
    (s.mounted && k in m.strs) || LoadStr(View(s), k) == v
  }

  /** What reading back a key gives after an attempt to write it. */
  function Reread(s: State, k: IntKey, v: Int16, default: Int16, m: Medium): Int16 {
    if s.mounted && k in m.ints then v else LoadInt(View(s), k, default)
  }

  function RereadStr(s: State, k: StrKey, v: string, m: Medium): string {
    if s.mounted && k in m.strs then v else LoadStr(View(s), k)
  }

  lemma LimitPutsReload(s: State, low: Int16, high: Int16, afterrun: Int16, m: Medium)
    ensures var t := PutInt(PutInt(PutInt(s, LowLimitKey, low, m), HighLimitKey, high, m), AfterrunKey, afterrun, m);
            Load(View(t)) == Load(View(s)).(
              lowLimit := Reread(s, LowLimitKey, low, DEFAULT_LOW_LIMIT, m),
              highLimit := Reread(s, HighLimitKey, high, DEFAULT_HIGH_LIMIT, m),
              afterrun := Reread(s, AfterrunKey, afterrun, 0, m))
  {
    var s1 := PutInt(s, LowLimitKey, low, m);
    var s2 := PutInt(s1, HighLimitKey, high, m);
    PutIntLoads(s, LowLimitKey, low, m);
    PutIntLoads(s1, HighLimitKey, high, m);
    PutIntLoads(s2, AfterrunKey, afterrun, m);
  }

  lemma LimitsReload(s: State, low: Uint16, high: Uint16, afterrun: Uint16, m: Medium)
    ensures Load(View(LimitsSaved(s, low, high, afterrun, m))) == Load(View(s)).(
      lowLimit := Reread(s, LowLimitKey, ToInt16(low), DEFAULT_LOW_LIMIT, m),
      highLimit := Reread(s, HighLimitKey, ToInt16(high), DEFAULT_HIGH_LIMIT, m),
      afterrun := Reread(s, AfterrunKey, ToInt16(afterrun), 0, m))
  {
    var t := PutInt(PutInt(PutInt(s, LowLimitKey, ToInt16(low), m), HighLimitKey, ToInt16(high), m),
                    AfterrunKey, ToInt16(afterrun), m);
    var r := LimitsSaved(s, low, high, afterrun, m);
    LimitPutsReload(s, ToInt16(low), ToInt16(high), ToInt16(afterrun), m);
    assert View(r) == View(t) by {
      CommitKeepsView(t.(cache := r.cache), m);
    }
  }

  lemma CredentialsReload(s: State, apName: string, password: string, m: Medium)
    requires FitsCredentials(apName, password)
    ensures Load(View(CredentialsSaved(s, apName, password, m))) == Load(View(s)).(
      apName := RereadStr(s, ApNameKey, apName, m), password := RereadStr(s, PasswordKey, password, m))
  {
    var s1 := PutStr(s, ApNameKey, apName, m);
    var s2 := PutStr(s1, PasswordKey, password, m);
    var r := CredentialsSaved(s, apName, password, m);
    assert View(r) == View(s2) by {
      CommitKeepsView(s2.(cache := r.cache), m);
    }
    PutStrLoads(s, ApNameKey, apName, m);
    PutStrLoads(s1, PasswordKey, password, m);
  }

  lemma UdpPutsReload(s: State, server: string, port: Int16, m: Medium)
    requires FitsServer(server)
    ensures Load(View(PutStr(PutInt(s, UdpPortKey, port, m), UdpServerKey, server, m))) == Load(View(s)).(
      udpPort := Reread(s, UdpPortKey, port, 0, m), udpServer := RereadStr(s, UdpServerKey, server, m))
  {
    PutIntLoads(s, UdpPortKey, port, m);
    PutStrLoads(PutInt(s, UdpPortKey, port, m), UdpServerKey, server, m);
  }

  lemma UdpServerReload(s: State, server: string, port: Uint16, m: Medium)
    requires FitsServer(server)
    ensures Load(View(UdpServerSaved(s, server, port, m))) == Load(View(s)).(
      udpPort := Reread(s, UdpPortKey, ToInt16(port), 0, m), udpServer := RereadStr(s, UdpServerKey, server, m))
  {
    var t := PutStr(PutInt(s, UdpPortKey, ToInt16(port), m), UdpServerKey, server, m);
    var r := UdpServerSaved(s, server, port, m);
    UdpPutsReload(s, server, ToInt16(port), m);
    assert View(r) == View(t) by {
      CommitKeepsView(t.(cache := r.cache), m);
    }
  }

  /** After an edit of the limits the cache agrees with the store exactly if no needed write was refused. */
  lemma LimitsCoherence(s: State, low: Uint16, high: Uint16, afterrun: Uint16, m: Medium)
    requires Coherent(s)
    ensures Coherent(LimitsSaved(s, low, high, afterrun, m)) <==>
      (&& Takes(s, LowLimitKey, ToInt16(low), DEFAULT_LOW_LIMIT, m)
       && Takes(s, HighLimitKey, ToInt16(high), DEFAULT_HIGH_LIMIT, m)
       && Takes(s, AfterrunKey, ToInt16(afterrun), 0, m))
  {
    LimitsReload(s, low, high, afterrun, m);
  }

  lemma CredentialsCoherence(s: State, apName: string, password: string, m: Medium)
    requires Coherent(s) && FitsCredentials(apName, password)
    ensures Coherent(CredentialsSaved(s, apName, password, m)) <==>
      TakesStr(s, ApNameKey, apName, m) && TakesStr(s, PasswordKey, password, m)
  {
    CredentialsReload(s, apName, password, m);
  }

  lemma UdpServerCoherence(s: State, server: string, port: Uint16, m: Medium)
    requires Coherent(s) && FitsServer(server)
    ensures Coherent(UdpServerSaved(s, server, port, m)) <==>
      Takes(s, UdpPortKey, ToInt16(port), 0, m) && TakesStr(s, UdpServerKey, server, m)
  {
    UdpServerReload(s, server, port, m);
  }

  lemma OpModeCoherence(s: State, mode: Int16, m: Medium)
    requires Coherent(s)
    ensures Coherent(OpModeSaved(s, mode, m)) <==> Takes(s, LastOpModeKey, mode, 0, m)
  {
  }

  lemma RestartCoherence(s: State)
    ensures Coherent(Restarted(s, true))
  {
    assert View(Restarted(s, true)) == s.durable;
  }

  lemma QuietRestart(s: State)
    requires s.pending == EMPTY_NVS && Coherent(s)
    ensures Restarted(s, true).cache == s.cache
  {
    assert View(s) == s.durable;
  }
}

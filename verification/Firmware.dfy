/**
 * The fan controller: main/state.c and the handlers that drive it, from main/esp_zigbee_gateway.c,
 * main/button_controller.c, main/webserver.c and main/main.c. Handlers run to completion one after another.
 */
module Firmware {
  import opened Types
  import opened Relay
  import NvsStore

  datatype Measurements = Measurements(
    temperature: Int16, humidity: Int16, pm25: Float,
    lastTempUpdate: int, lastHumidityUpdate: int, lastPM25Update: int)

  const NO_MEASUREMENTS := Measurements(0, 0, Finite(0.0), 0, 0, 0)

  /** A Zigbee attribute report: its cluster and its raw value. */
  datatype Report = Temperature(raw: Int16) | Humidity(raw: Int16) | PM25(level: Float) | OtherCluster

  datatype Button = ModeButton | StatusButton

  datatype Operation = OpLow | OpHigh | OpOff | OpAuto

  datatype Action =
    | Reported(report: Report)
    | Pressed(button: Button)
    | Commanded(op: Operation)
    | LimitsPosted(low: Uint16, high: Uint16, afterrun: Uint16)
    | UdpServerPosted(server: string, port: Uint16)
    | CredentialsPosted(apName: string, password: string)
    | StoreFlushed(ints: set<NvsStore.IntKey>, strs: set<NvsStore.StrKey>)
    | PoweredOn(nvsOpens: bool)  // from power loss to the start of the button handlers
    | BootFinished               // the last steps of app_main

  datatype Event = Event(action: Action, clock: Clock, medium: NvsStore.Medium)

  /** The globals of the firmware, the relay pins and their write trace, and the store. */
  datatype State = State(
    status: MachineStatus, opMode: Int16, switchedOn: int, measurements: Measurements,
    pins: Levels, writes: seq<PinWrite>, store: NvsStore.State, booted: bool)

  // ---- state.c ----

  function WithOpMode(f: State, m: Int16, md: NvsStore.Medium): State {
    if m == f.opMode then f else f.(opMode := m, store := NvsStore.OpModeSaved(f.store, m, md))
  }

  function WithRelays(f: State, s: MachineStatus): State {
    f.(pins := LevelsFor(s), writes := f.writes + ChangeWrites(s))
  }

  function WithStatus(f: State, s: MachineStatus, stamp: int): State {
    if f.status == s then f
    else WithRelays(f, s).(status := s, switchedOn := if IsOn(s) then stamp else f.switchedOn)
  }

  /** get_afterrun_seconds() * 1000, computed in a 32-bit int. */
  function AfterrunMillis(store: NvsStore.State): (r: int)
    ensures r == 1000 * NvsStore.AfterrunSeconds(store) && 0 <= r < 0x8000_0000
  {
    NvsStore.AfterrunSeconds(store) * 1000
  }

  function Controlled(f: State, level: Float, c: Clock): State {
    if AtLeast(level, NvsStore.HighLimit(f.store)) then WithStatus(f, ON_HIGH, c.stamp)
    else if AtLeast(level, NvsStore.LowLimit(f.store)) then WithStatus(f, ON_LOW, c.stamp)
    else if c.decide - AfterrunMillis(f.store) > f.switchedOn then WithStatus(f, OFF, c.stamp)
    else f
  }

  function WithMeasurements(f: State, m: Measurements, c: Clock): State {
    var g := f.(measurements := m);
    if g.opMode == AUTO then Controlled(g, m.pm25, c) else g
  }

  function NextOpMode(f: State, md: NvsStore.Medium): State {
    WithOpMode(f, (f.opMode + 1) % 3, md)
  }

  function NextStatus(f: State, stamp: int): State {
    var g := WithStatus(f, (f.status + 1) % 3, stamp);
    WithRelays(g, g.status)
  }

  // ---- The handlers ----

  /** The read-modify-write of the measurements in zb_report_attribute_handler. */
  function Recorded(m: Measurements, r: Report, now: int): Measurements {
    match r
    case Temperature(raw) =>
      var v := TruncDiv100(raw);
      if m.temperature != v then m.(temperature := v, lastTempUpdate := now) else m
    case Humidity(raw) =>
      var v := TruncDiv100(raw);
      if m.humidity != v then m.(humidity := v, lastHumidityUpdate := now) else m
    case PM25(level) =>
      if Differs(m.pm25, level) then m.(pm25 := level, lastPM25Update := now) else m
    case OtherCluster => m
  }

  function OnReport(f: State, r: Report, c: Clock): State {
    WithMeasurements(f, Recorded(f.measurements, r, c.entry), c)
  }

  function OnButton(f: State, b: Button, c: Clock, md: NvsStore.Medium): State {
    match b
    case ModeButton => NextOpMode(f, md)
    case StatusButton => NextStatus(WithOpMode(f, LOCAL, md), c.stamp)
  }

  function OnOperation(f: State, op: Operation, c: Clock, md: NvsStore.Medium): State {
    match op
    case OpLow => WithOpMode(WithStatus(f, ON_LOW, c.stamp), API, md)
    case OpHigh => WithOpMode(WithStatus(f, ON_HIGH, c.stamp), API, md)
    case OpOff => WithOpMode(WithStatus(f, OFF, c.stamp), API, md)
    case OpAuto => WithOpMode(f, AUTO, md)
  }

  /** Zeroed globals, store_start and controller_start: the state in which the button handlers start. */
  function OnPowerOn(f: State, opens: bool): State {
    State(OFF, LOCAL, 0, NO_MEASUREMENTS, RELEASED, [], NvsStore.Restarted(f.store, opens), false)
  }

  /** The setOpMode at the end of app_main; app_main runs once per power cycle. */
  function OnBootFinished(f: State, md: NvsStore.Medium): State {
    if f.booted then f else WithOpMode(f, f.store.cache.lastOpMode, md).(booted := true)
  }

  function Step(f: State, e: Event): State {
    match e.action
    case Reported(r) => OnReport(f, r, e.clock)
    case Pressed(b) => OnButton(f, b, e.clock, e.medium)
    case Commanded(op) => OnOperation(f, op, e.clock, e.medium)
    case LimitsPosted(l, h, a) => f.(store := NvsStore.LimitsSaved(f.store, l, h, a, e.medium))
    case UdpServerPosted(s, p) => f.(store := NvsStore.UdpServerSaved(f.store, s, p, e.medium))
    case CredentialsPosted(n, p) => f.(store := NvsStore.CredentialsSaved(f.store, n, p, e.medium))
    case StoreFlushed(ks, ts) => f.(store := NvsStore.Flushed(f.store, ks, ts))
    case PoweredOn(opens) => OnPowerOn(f, opens)
    case BootFinished => OnBootFinished(f, e.medium)
  }

  /** A run: the events in the order their handlers ran. */
  function Run(f: State, es: seq<Event>): State {
    if es == [] then f else Step(Run(f, es[..|es| - 1]), es[|es| - 1])
  }

  lemma {:induction false} RunConcat(f: State, a: seq<Event>, b: seq<Event>)
    ensures Run(f, a + b) == Run(Run(f, a), b)
  {
    if b == [] {
      assert a + b == a;
    } else {
      var n := |b| - 1;
      var g := Run(f, a);
      RunConcat(f, a, b[..n]);
      calc {
        Run(f, a + b);
        { assert (a + b)[..|a + b| - 1] == a + b[..n] && (a + b)[|a + b| - 1] == b[n]; }
        Step(Run(f, a + b[..n]), b[n]);
        Step(Run(g, b[..n]), b[n]);
        Run(g, b);
      }
    }
  }

  /** Buttons and commands reach the store only through a change of mode. */
  lemma ModeHandlersStore(f: State, e: Event)
    requires e.action.Pressed? || e.action.Commanded?
    ensures var g := Step(f, e);
            g.store == if g.opMode == f.opMode then f.store else NvsStore.OpModeSaved(f.store, g.opMode, e.medium)
  {
  }

  /** The strings an event carries fit the buffers they are copied into. */
  predicate Fits(e: Event) {
    match e.action
    case UdpServerPosted(s, _) => NvsStore.FitsServer(s)
    case CredentialsPosted(n, p) => NvsStore.FitsCredentials(n, p)
    case _ => true
  }

  // ---- The program ----

  class Controller {
    const relay: RelayController
    const store: NvsStore.Store
    var status: MachineStatus
    var opMode: Int16
    var switchedOn: int
    var measurements: Measurements
    ghost var booted: bool

    ghost function Abs(): State
      reads this, relay, store
    {
      State(status, opMode, switchedOn, measurements, relay.Pins(), relay.writes, store.Abs(), booted)
    }

    /** An unpowered device. */
    constructor (content: NvsStore.Nvs)
      ensures fresh(relay) && fresh(store)
      ensures store.Abs() == NvsStore.State(false, content, NvsStore.EMPTY_NVS, NvsStore.ZERO_CACHE)
    {
      relay := new RelayController();
      store := new NvsStore.Store(content);
      status, opMode, switchedOn, measurements, booted := OFF, LOCAL, 0, NO_MEASUREMENTS, false;
    }

    method SetOpMode(newOpMode: Int16, md: NvsStore.Medium)
      modifies this, store
      ensures Abs() == WithOpMode(old(Abs()), newOpMode, md)
    {
      if newOpMode == opMode {
        return;
      }
      opMode := newOpMode;
      store.SaveLastOpMode(opMode, md);
    }

    method SetStatus(newStatus: MachineStatus, stamp: int)
      modifies this, relay
      ensures Abs() == WithStatus(old(Abs()), newStatus, stamp)
    {
      if status == newStatus {
        return;
      }
      if newStatus == ON_HIGH || newStatus == ON_LOW {
        switchedOn := stamp;
      }
      relay.HandleStateChange(newStatus);
      status := newStatus;
    }

    method UpdateStateForPM25(level: Float, c: Clock)
      modifies this, relay
      ensures Abs() == Controlled(old(Abs()), level, c)
    {
      if AtLeast(level, store.GetHighLimit()) {
        SetStatus(ON_HIGH, c.stamp);
      } else if AtLeast(level, store.GetLowLimit()) {
        SetStatus(ON_LOW, c.stamp);
      } else if c.decide - store.GetAfterrunSeconds() * 1000 > switchedOn {
        SetStatus(OFF, c.stamp);
      }
    }

    method SetMeasurements(m: Measurements, c: Clock)
      modifies this, relay
      ensures Abs() == WithMeasurements(old(Abs()), m, c)
    {
      measurements := m;
      if opMode == AUTO {
        UpdateStateForPM25(measurements.pm25, c);
      }
    }

    method AdvanceOpMode(md: NvsStore.Medium)
      modifies this, store
      ensures Abs() == NextOpMode(old(Abs()), md)
    {
      SetOpMode((opMode + 1) % 3, md);
    }

    method AdvanceStatus(stamp: int)
      modifies this, relay
      ensures Abs() == NextStatus(old(Abs()), stamp)
    {
      SetStatus((status + 1) % 3, stamp);
      relay.HandleStateChange(status);
    }

    method HandleReport(r: Report, c: Clock)
      modifies this, relay
      ensures Abs() == OnReport(old(Abs()), r, c)
    {
      var m := measurements;
      match r {
        case Temperature(raw) =>
          var value := TruncDiv100(raw);
          if m.temperature != value {
            m := m.(temperature := value);
            m := m.(lastTempUpdate := c.entry);
          }
        case Humidity(raw) =>
          var value := TruncDiv100(raw);
          if m.humidity != value {
            m := m.(humidity := value);
            m := m.(lastHumidityUpdate := c.entry);
          }
        case PM25(level) =>
          if Differs(m.pm25, level) {
            m := m.(pm25 := level);
            m := m.(lastPM25Update := c.entry);
          }
        case OtherCluster =>
      }
      SetMeasurements(m, c);
    }

    method ButtonPressed(b: Button, c: Clock, md: NvsStore.Medium)
      modifies this, relay, store
      ensures Abs() == OnButton(old(Abs()), b, c, md)
    {
      match b {
        case ModeButton =>
          AdvanceOpMode(md);
        case StatusButton =>
          SetOpMode(LOCAL, md);
          AdvanceStatus(c.stamp);
      }
    }

    method HandleOperation(op: Operation, c: Clock, md: NvsStore.Medium)
      modifies this, relay, store
      ensures Abs() == OnOperation(old(Abs()), op, c, md)
    {
      match op {
        case OpLow =>
          SetStatus(ON_LOW, c.stamp);
          SetOpMode(API, md);
        case OpHigh =>
          SetStatus(ON_HIGH, c.stamp);
          SetOpMode(API, md);
        case OpOff =>
          SetStatus(OFF, c.stamp);
          SetOpMode(API, md);
        case OpAuto =>
          SetOpMode(AUTO, md);
      }
    }

    /** The part of app_main up to button_controller_start. */
    method PowerOn(latched: Levels, opens: bool)
      requires opens ==> NvsStore.Loadable(store.durable)
      modifies this, relay, store
      ensures Abs() == OnPowerOn(old(Abs()), opens)
    {
      status, opMode, switchedOn, measurements, booted := OFF, LOCAL, 0, NO_MEASUREMENTS, false;
      store.PowerOn();
      store.StoreStart(opens);
      ghost var _ := relay.ControllerStart(latched);
    }

    /** The end of app_main. */
    method FinishBoot(md: NvsStore.Medium)
      requires !booted
      modifies this, store
      ensures Abs() == OnBootFinished(old(Abs()), md)
    {
      SetOpMode(store.cachedLastOpMode, md);
      booted := true;
    }

    /** Any handler, dispatched by its event; `latched` is only read at power-on. */
    method Handle(e: Event, latched: Levels)
      requires Fits(e)
      requires e.action == PoweredOn(true) ==> NvsStore.Loadable(store.durable)
      requires e.action.BootFinished? ==> !booted
      modifies this, relay, store
      ensures Abs() == Step(old(Abs()), e)
    {
      match e.action {
        case Reported(r) => HandleReport(r, e.clock);
        case Pressed(b) => ButtonPressed(b, e.clock, e.medium);
        case Commanded(op) => HandleOperation(op, e.clock, e.medium);
        case LimitsPosted(l, h, a) => store.SetLimit(l, h, a, e.medium);
        case UdpServerPosted(s, p) => store.SetUdpServer(s, p, e.medium);
        case CredentialsPosted(n, p) => store.SetWlanCredentials(n, p, e.medium);
        case StoreFlushed(ks, ts) => store.Flush(ks, ts);
        case PoweredOn(opens) => PowerOn(latched, opens);
        case BootFinished => FinishBoot(e.medium);
      }
    }
  }
}

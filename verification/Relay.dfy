/** main/relay_controller.c: two active-low relay pins and the individual writes to them. */
module Relay {
  import opened Types

  type Level = l: int | 0 <= l <= 1
  datatype Pin = LowSpeed | HighSpeed
  datatype PinWrite = PinWrite(pin: Pin, level: Level)
  datatype Levels = Levels(low: Level, high: Level)

  const RELEASED := Levels(1, 1)

  /** Both relays energised: the state the interlock must exclude. */
  predicate BothOn(p: Levels) {
    p.low == 0 && p.high == 0
  }

  function Drive(p: Levels, w: PinWrite): Levels {
    match w.pin
    case LowSpeed => p.(low := w.level)
    case HighSpeed => p.(high := w.level)
  }

  /** The pin levels after a sequence of writes. */
  function After(p: Levels, ws: seq<PinWrite>): Levels {
    if ws == [] then p else Drive(After(p, ws[..|ws| - 1]), ws[|ws| - 1])
  }

  /** No prefix of the writes leaves both relays energised. */
  ghost predicate Interlocked(p: Levels, ws: seq<PinWrite>) {
    forall k :: 0 <= k <= |ws| ==> !BothOn(After(p, ws[..k]))
  }

  /** The writes of one handleStateChange call. */
  function ChangeWrites(s: MachineStatus): seq<PinWrite> {
    [PinWrite(LowSpeed, 1), PinWrite(HighSpeed, 1)] +
    (if s == ON_LOW then [PinWrite(LowSpeed, 0)]
     else if s == ON_HIGH then [PinWrite(HighSpeed, 0)]
     else [])
  }

  /** The writes of controller_start, once gpio_config has turned the pins into outputs. */
  const StartWrites := [PinWrite(LowSpeed, 1), PinWrite(HighSpeed, 1)]

  /** Exactly the relay of the given status is energised. */
  function LevelsFor(s: MachineStatus): Levels {
    Levels(if s == ON_LOW then 0 else 1, if s == ON_HIGH then 0 else 1)
  }

  class RelayController {
    var low: Level
    var high: Level
    ghost var writes: seq<PinWrite>  // since controller_start returned

    function Pins(): Levels
      reads this
    {
      Levels(low, high)
    }

    constructor ()
      ensures Pins() == RELEASED && writes == []
    {
      low, high, writes := 1, 1, [];
    }

    method SetLevel(pin: Pin, level: Level)
      modifies this
      ensures Pins() == Drive(old(Pins()), PinWrite(pin, level))
      ensures writes == old(writes) + [PinWrite(pin, level)]
    {
      match pin {
        case LowSpeed => low := level;
        case HighSpeed => high := level;
      }
      writes := writes + [PinWrite(pin, level)];
    }

    /**
     * controller_start; `latched` is what the pins output when gpio_config enables them, `started` are the writes it
     * makes itself. The trace begins when it returns.
     */
    method ControllerStart(latched: Levels) returns (ghost started: seq<PinWrite>)
      modifies this
      ensures started == StartWrites && Pins() == After(latched, started) == RELEASED
      ensures writes == []
    {
      low, high, writes := latched.low, latched.high, [];
      SetLevel(LowSpeed, 1);
      SetLevel(HighSpeed, 1);
      started := writes;
      assert StartWrites[..1] == [PinWrite(LowSpeed, 1)];
      writes := [];
    }

    method HandleStateChange(s: MachineStatus)
      modifies this
      ensures Pins() == LevelsFor(s)
      ensures writes == old(writes) + ChangeWrites(s)
    {
      SetLevel(LowSpeed, 1);
      SetLevel(HighSpeed, 1);
      if s == ON_LOW {
        SetLevel(LowSpeed, 0);
      } else if s == ON_HIGH {
        SetLevel(HighSpeed, 0);
      }
    }
  }

  lemma {:induction false} AfterConcat(p: Levels, a: seq<PinWrite>, b: seq<PinWrite>)
    ensures After(p, a + b) == After(After(p, a), b)
  {
    if b == [] {
      assert a + b == a;
    } else {
      var n := |b| - 1;
      assert (a + b)[..|a| + n] == a + b[..n];
      AfterConcat(p, a, b[..n]);
    }
  }

  /** Appending writes to an interlocked trace. */
  lemma InterlockedConcat(p: Levels, a: seq<PinWrite>, b: seq<PinWrite>)
    requires Interlocked(p, a) && Interlocked(After(p, a), b)
    ensures Interlocked(p, a + b)
  {
    forall k | 0 <= k <= |a + b| ensures !BothOn(After(p, (a + b)[..k])) {
      if k <= |a| {
        assert (a + b)[..k] == a[..k];
      } else {
        assert (a + b)[..k] == a + b[..k - |a|];
        AfterConcat(p, a, b[..k - |a|]);
      }
    }
  }

  /** One undisturbed handleStateChange is safe at each of its writes, whatever status it follows and sets. */
  lemma ChangeIsInterlocked(p: Levels, s: MachineStatus)
    requires !BothOn(p)
    ensures Interlocked(p, ChangeWrites(s))
    ensures After(p, ChangeWrites(s)) == LevelsFor(s)
  {
    var w := ChangeWrites(s);
    assert w[..1] == [PinWrite(LowSpeed, 1)];
    assert w[..2] == [PinWrite(LowSpeed, 1), PinWrite(HighSpeed, 1)];
    assert w[..2][..1] == w[..1];
    assert After(p, w[..1]) == Levels(1, p.high);
    assert After(p, w[..2]) == RELEASED;
    assert w[..|w|] == w;
    if |w| == 3 {
      assert w[..3] == w;
    }
    assert After(p, w) == LevelsFor(s);
    forall k | 0 <= k <= |w| ensures !BothOn(After(p, w[..k])) {
      assert k == 0 || k == 1 || k == 2 || k == |w|;
    }
  }

  /** During controller_start itself the interlock depends on what the output latches held. */
  lemma StartInterlock(latched: Levels)
    ensures Interlocked(latched, StartWrites) <==> !BothOn(latched)
    ensures After(latched, StartWrites) == RELEASED
  {
    assert StartWrites[..0] == [];
    assert StartWrites[..1] == [PinWrite(LowSpeed, 1)];
    assert StartWrites[..2] == StartWrites;
    if !BothOn(latched) {
      forall k | 0 <= k <= 2 ensures !BothOn(After(latched, StartWrites[..k])) {
        assert k == 0 || k == 1 || k == 2;
      }
    } else {
      assert BothOn(After(latched, StartWrites[..0]));
    }
  }

  // ---- Why handlers must not interleave ----

  /** w is some interleaving of the write sequences of the tasks. */
  ghost predicate Interleaving(tasks: seq<seq<PinWrite>>, w: seq<PinWrite>)
    decreases |w|
  {
    if w == [] then forall i :: 0 <= i < |tasks| ==> tasks[i] == []
    else exists i :: Runs(tasks, i, w[0]) && Interleaving(Advanced(tasks, i), w[1..])
  }

  /** Task i can perform the write next. */
  predicate Runs(tasks: seq<seq<PinWrite>>, i: int, w: PinWrite) {
    0 <= i < |tasks| && tasks[i] != [] && tasks[i][0] == w
  }

  function Advanced(tasks: seq<seq<PinWrite>>, i: int): seq<seq<PinWrite>>
    requires 0 <= i < |tasks| && tasks[i] != []
  {
    tasks[i := tasks[i][1..]]
  }

  /** The writes of a task that calls handleStateChange for one status after another. */
  function CallWrites(calls: seq<MachineStatus>): seq<PinWrite> {
    if calls == [] then [] else ChangeWrites(calls[0]) + CallWrites(calls[1..])
  }

  function TaskWrites(tasks: seq<seq<MachineStatus>>): seq<seq<PinWrite>> {
    seq(|tasks|, i requires 0 <= i < |tasks| => CallWrites(tasks[i]))
  }

  lemma AfterCons(p: Levels, w: seq<PinWrite>)
    requires w != []
    ensures After(p, w) == After(Drive(p, w[0]), w[1..])
  {
    assert w == w[..1] + w[1..];
    assert w[..1][..0] == [];
    AfterConcat(p, w[..1], w[1..]);
  }

  lemma InterlockedCons(p: Levels, w: seq<PinWrite>)
    requires w != [] && !BothOn(p) && Interlocked(Drive(p, w[0]), w[1..])
    ensures Interlocked(p, w)
  {
    forall k | 0 <= k <= |w| ensures !BothOn(After(p, w[..k])) {
      if k > 0 {
        assert w[..k][1..] == w[1..][..k - 1];
        AfterCons(p, w[..k]);
      }
    }
  }

  function Other(x: Pin): Pin {
    if x == LowSpeed then HighSpeed else LowSpeed
  }

  function LevelOf(p: Levels, x: Pin): Level {
    if x == LowSpeed then p.low else p.high
  }

  /** The writes energise only relay x, and only once the other pin (now at level y) is known released. */
  predicate Guarded(x: Pin, y: Level, a: seq<PinWrite>)
    decreases |a|
  {
    a == [] ||
    (&& a[0] != PinWrite(Other(x), 0)
     && (a[0] == PinWrite(x, 0) ==> y == 1)
     && Guarded(x, if a[0].pin == Other(x) then a[0].level else y, a[1..]))
  }

  lemma {:induction false} GuardedMonotone(x: Pin, a: seq<PinWrite>)
    requires Guarded(x, 0, a)
    ensures Guarded(x, 1, a)
  {
    if a != [] && a[0].pin != Other(x) {
      GuardedMonotone(x, a[1..]);
    }
  }

  /** If every task energises only relay x, and only behind a release of the other one, no schedule is unsafe. */
  lemma {:induction false} GuardedInterleaving(x: Pin, p: Levels, tasks: seq<seq<PinWrite>>, w: seq<PinWrite>)
    requires !BothOn(p) && Interleaving(tasks, w)
    requires forall i :: 0 <= i < |tasks| ==> Guarded(x, LevelOf(p, Other(x)), tasks[i])
    ensures Interlocked(p, w)
    decreases |w|
  {
    if w == [] {
      assert forall k :: 0 <= k <= |w| ==> w[..k] == [];
    } else {
      var i :| Runs(tasks, i, w[0]) && Interleaving(Advanced(tasks, i), w[1..]);
      var q, rest := Drive(p, w[0]), Advanced(tasks, i);
      forall j | 0 <= j < |rest| ensures Guarded(x, LevelOf(q, Other(x)), rest[j]) {
        if j != i && LevelOf(p, Other(x)) == 0 {
          GuardedMonotone(x, tasks[j]);
        }
      }
      GuardedInterleaving(x, q, rest, w[1..]);
      InterlockedCons(p, w);
    }
  }

  lemma {:induction false} GuardedConcat(x: Pin, y: Level, a: seq<PinWrite>, b: seq<PinWrite>)
    requires Guarded(x, y, a) && Guarded(x, 0, b)
    ensures Guarded(x, y, a + b)
    decreases |a|
  {
    if a == [] {
      assert a + b == b;
      GuardedMonotone(x, b);
    } else {
      assert (a + b)[1..] == a[1..] + b;
      GuardedConcat(x, if a[0].pin == Other(x) then a[0].level else y, a[1..], b);
    }
  }

  lemma ChangeIsGuarded(x: Pin, y: Level, s: MachineStatus)
    requires s == OFF || s == (if x == LowSpeed then ON_LOW else ON_HIGH)
    ensures Guarded(x, y, ChangeWrites(s))
  {
    var w := ChangeWrites(s);
    assert Guarded(x, 1, w[2..]) by {
      if s != OFF {
        assert w[2..] == [PinWrite(x, 0)] && [PinWrite(x, 0)][1..] == [];
      }
    }
    if x == HighSpeed {
      assert Guarded(x, 1, w[1..]) by { assert w[1..][1..] == w[2..]; }
    } else {
      assert Guarded(x, y, w[1..]) by { assert w[1..][1..] == w[2..]; }
    }
  }

  lemma {:induction false} CallsAreGuarded(x: Pin, calls: seq<MachineStatus>)
    requires forall i :: 0 <= i < |calls| ==>
      calls[i] == OFF || calls[i] == if x == LowSpeed then ON_LOW else ON_HIGH
    ensures Guarded(x, 0, CallWrites(calls))
  {
    if calls != [] {
      CallsAreGuarded(x, calls[1..]);
      ChangeIsGuarded(x, 0, calls[0]);
      GuardedConcat(x, 0, ChangeWrites(calls[0]), CallWrites(calls[1..]));
    }
  }

  /** A task on its own is safe, whatever it calls. */
  lemma {:induction false} CallsAreInterlocked(p: Levels, calls: seq<MachineStatus>)
    requires !BothOn(p)
    ensures Interlocked(p, CallWrites(calls))
    decreases |calls|
  {
    if calls == [] {
      assert forall k :: 0 <= k <= |CallWrites(calls)| ==> CallWrites(calls)[..k] == [];
    } else {
      ChangeIsInterlocked(p, calls[0]);
      CallsAreInterlocked(LevelsFor(calls[0]), calls[1..]);
      InterlockedConcat(p, ChangeWrites(calls[0]), CallWrites(calls[1..]));
    }
  }

  predicate OnlyReleases(a: seq<PinWrite>) {
    forall w <- a :: w.level == 1
  }

  lemma {:induction false} OffCallsOnlyRelease(calls: seq<MachineStatus>)
    requires forall i :: 0 <= i < |calls| ==> calls[i] == OFF
    ensures OnlyReleases(CallWrites(calls))
  {
    if calls != [] {
      OffCallsOnlyRelease(calls[1..]);
    }
  }

  lemma InterlockedTail(p: Levels, a: seq<PinWrite>)
    requires a != [] && Interlocked(p, a)
    ensures !BothOn(p) && Interlocked(Drive(p, a[0]), a[1..])
  {
    assert a[..0] == [];
    forall k | 0 <= k <= |a[1..]| ensures !BothOn(After(Drive(p, a[0]), a[1..][..k])) {
      assert a[..k + 1][1..] == a[1..][..k];
      AfterCons(p, a[..k + 1]);
    }
  }

  /** One task d may energise both relays in turn as long as the others only release: they can only make it safer. */
  lemma {:induction false} OneDriverInterleaving(d: nat, p: Levels, q: Levels, tasks: seq<seq<PinWrite>>,
                                                 w: seq<PinWrite>)
    requires d < |tasks| && p.low <= q.low && p.high <= q.high
    requires Interlocked(p, tasks[d]) && Interleaving(tasks, w)
    requires forall i :: 0 <= i < |tasks| && i != d ==> OnlyReleases(tasks[i])
    ensures Interlocked(q, w)
    decreases |w|
  {
    assert tasks[d][..0] == [];
    assert !BothOn(After(p, tasks[d][..0]));
    if w == [] {
      assert forall k :: 0 <= k <= |w| ==> w[..k] == [];
    } else {
      var i :| Runs(tasks, i, w[0]) && Interleaving(Advanced(tasks, i), w[1..]);
      if i == d {
        InterlockedTail(p, tasks[d]);
        OneDriverInterleaving(d, Drive(p, w[0]), Drive(q, w[0]), Advanced(tasks, i), w[1..]);
      } else {
        assert w[0] in tasks[i];
        OneDriverInterleaving(d, p, Drive(q, w[0]), Advanced(tasks, i), w[1..]);
      }
      InterlockedCons(q, w);
    }
  }

  // ---- The schedule that energises both relays ----

  /** Task i runs alone for its first n writes. */
  lemma {:induction false} RunAlone(tasks: seq<seq<PinWrite>>, i: nat, n: nat, w: seq<PinWrite>)
    requires i < |tasks| && n <= |tasks[i]| && Interleaving(tasks[i := tasks[i][n..]], w)
    ensures Interleaving(tasks, tasks[i][..n] + w)
    decreases n
  {
    if n == 0 {
      assert tasks[i := tasks[i][0..]] == tasks && tasks[i][..0] + w == w;
    } else {
      var rest, v := Advanced(tasks, i), tasks[i][..n] + w;
      assert rest[i][n - 1..] == tasks[i][n..];
      assert rest[i := rest[i][n - 1..]] == tasks[i := tasks[i][n..]];
      RunAlone(rest, i, n - 1, w);
      assert v[1..] == rest[i][..n - 1] + w;
      assert Runs(tasks, i, v[0]);
    }
  }

  /** Whatever is left to run can be run. */
  lemma {:induction false} CanFinish(tasks: seq<seq<PinWrite>>, n: nat)
    requires n <= |tasks| && forall i :: n <= i < |tasks| ==> tasks[i] == []
    ensures exists w :: Interleaving(tasks, w)
    decreases n
  {
    if n == 0 {
      assert Interleaving(tasks, []);
    } else {
      var m := n - 1;
      var rest := tasks[m := tasks[m][|tasks[m]|..]];
      CanFinish(rest, m);
      var w :| Interleaving(rest, w);
      RunAlone(tasks, m, |tasks[m]|, w);
    }
  }

  /** Where a task energises the relay of a status it calls for. */
  lemma {:induction false} CallEnergises(calls: seq<MachineStatus>, s: MachineStatus) returns (n: nat)
    requires s in calls && IsOn(s)
    ensures n < |CallWrites(calls)|
    ensures CallWrites(calls)[n] == PinWrite(if s == ON_LOW then LowSpeed else HighSpeed, 0)
  {
    if calls[0] == s {
      n := 2;
    } else {
      var m := CallEnergises(calls[1..], s);
      n := |ChangeWrites(calls[0])| + m;
    }
  }

  /** One task calls for ON_LOW and another one for ON_HIGH. */
  ghost predicate Clash(tasks: seq<seq<MachineStatus>>) {
    exists i, j :: 0 <= i < |tasks| && 0 <= j < |tasks| && i != j && ON_LOW in tasks[i] && ON_HIGH in tasks[j]
  }

  /** Task i runs up to its m-th write, then task j up to its n-th, then each performs that write, then the rest. */
  lemma CanMeet(ts: seq<seq<PinWrite>>, i: nat, j: nat, m: nat, n: nat) returns (w: seq<PinWrite>)
    requires i < |ts| && j < |ts| && i != j && m < |ts[i]| && n < |ts[j]|
    ensures Interleaving(ts, ts[i][..m] + (ts[j][..n] + ([ts[i][m]] + ([ts[j][n]] + w))))
  {
    var u, v := ts[i][m], ts[j][n];
    var t1 := ts[i := ts[i][m..]];
    var t2 := t1[j := t1[j][n..]];
    var t3 := t2[i := t2[i][1..]];
    var t4 := t3[j := t3[j][1..]];
    CanFinish(t4, |t4|);
    w :| Interleaving(t4, w);
    assert t3[j][..1] == [v] && t2[i][..1] == [u];
    RunAlone(t3, j, 1, w);
    RunAlone(t2, i, 1, [v] + w);
    RunAlone(t1, j, n, [u] + ([v] + w));
    RunAlone(ts, i, m, t1[j][..n] + ([u] + ([v] + w)));
  }

  lemma BothEnergised(p: Levels, before: seq<PinWrite>, w: seq<PinWrite>)
    ensures !Interlocked(p, before + ([PinWrite(LowSpeed, 0)] + ([PinWrite(HighSpeed, 0)] + w)))
  {
    var u, v := PinWrite(LowSpeed, 0), PinWrite(HighSpeed, 0);
    var bad := before + ([u] + ([v] + w));
    assert bad[..|before| + 2] == before + [u] + [v];
    assert (before + [u] + [v])[..|before| + 1] == before + [u];
    assert BothOn(After(p, before + [u] + [v]));
  }

  lemma ClashIsUnsafe(p: Levels, tasks: seq<seq<MachineStatus>>, i: nat, j: nat)
    requires i < |tasks| && j < |tasks| && i != j && ON_LOW in tasks[i] && ON_HIGH in tasks[j]
    ensures exists w :: Interleaving(TaskWrites(tasks), w) && !Interlocked(p, w)
  {
    var ts := TaskWrites(tasks);
    var m := CallEnergises(tasks[i], ON_LOW);
    var n := CallEnergises(tasks[j], ON_HIGH);
    var w := CanMeet(ts, i, j, m, n);
    var rest := [ts[i][m]] + ([ts[j][n]] + w);
    assert ts[i][..m] + (ts[j][..n] + rest) == (ts[i][..m] + ts[j][..n]) + rest;
    BothEnergised(p, ts[i][..m] + ts[j][..n], w);
  }

  lemma NoClashIsSafe(p: Levels, tasks: seq<seq<MachineStatus>>, w: seq<PinWrite>)
    requires !BothOn(p) && !Clash(tasks) && Interleaving(TaskWrites(tasks), w)
    ensures Interlocked(p, w)
  {
    var ts := TaskWrites(tasks);
    if i, j :| 0 <= i < |tasks| && 0 <= j < |tasks| && ON_LOW in tasks[i] && ON_HIGH in tasks[j] {
      assert i == j;
      CallsAreInterlocked(p, tasks[i]);
      forall k | 0 <= k < |ts| && k != i ensures OnlyReleases(ts[k]) {
        OffCallsOnlyRelease(tasks[k]);
      }
      OneDriverInterleaving(i, p, p, ts, w);
    } else {
      var x := if exists j :: 0 <= j < |tasks| && ON_HIGH in tasks[j] then HighSpeed else LowSpeed;
      forall k | 0 <= k < |ts| ensures Guarded(x, LevelOf(p, Other(x)), ts[k]) {
        CallsAreGuarded(x, tasks[k]);
        GuardedMonotone(x, ts[k]);
      }
      GuardedInterleaving(x, p, ts, w);
    }
  }

  /**
   * Any number of tasks, each calling handleStateChange any number of times for any statuses: they keep the
   * interlock under every schedule exactly if no task calls for ON_LOW while another one calls for ON_HIGH.
   */
  lemma ConcurrentChanges(p: Levels, tasks: seq<seq<MachineStatus>>)
    requires !BothOn(p)
    ensures (forall w :: Interleaving(TaskWrites(tasks), w) ==> Interlocked(p, w)) <==> !Clash(tasks)
  {
    if Clash(tasks) {
      var i, j :| 0 <= i < |tasks| && 0 <= j < |tasks| && i != j && ON_LOW in tasks[i] && ON_HIGH in tasks[j];
      ClashIsUnsafe(p, tasks, i, j);
    } else {
      forall w | Interleaving(TaskWrites(tasks), w) ensures Interlocked(p, w) {
        NoClashIsSafe(p, tasks, w);
      }
    }
  }
}

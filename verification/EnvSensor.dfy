/**
 * main/env_sensor.c: the calibration of the pressure sensor pair while the fan is off. Readings are reals here;
 * float rounding is not modelled.
 */
module EnvSensor {
  import opened Types

  /** What one turn of the loop in esp_env_task reads: the machine status and the two sensors. */
  datatype Sample = Sample(status: MachineStatus, temp1: real, pres1: real, temp2: real, pres2: real)

  datatype Env = Env(cnt: int, calibrated: bool, offsetTemp: real, offsetPres: real, pressureDiff: int)

  const START := Env(0, false, 0.0, 0.0, 0)

  /** Conversion of a floating value to int: toward zero. */
  function Truncated(x: real): int {
    if x >= 0.0 then x.Floor else -(-x).Floor
  }

  /** abs takes an int, so the difference is truncated first. */
  function PublishedDiff(s: Sample, offsetPres: real): int {
    var d := Truncated(s.pres1 - offsetPres - s.pres2);
    if d < 0 then -d else d
  }

  function Sampled(e: Env, s: Sample): Env {
    var cnt := e.cnt + 1;
    var f := e.(pressureDiff := PublishedDiff(s, e.offsetPres));
    if s.status != OFF then f.(cnt := 0)
    else if cnt % 30 == 29 then Env(cnt, true, s.temp1 - s.temp2, s.pres1 - s.pres2, f.pressureDiff)
    else f.(cnt := cnt)
  }

  function AllSampled(ss: seq<Sample>): Env {
    if ss == [] then START else Sampled(AllSampled(ss[..|ss| - 1]), ss[|ss| - 1])
  }

  class EnvTask {
    var cnt: int
    var calibrated: bool
    var offsetTemp: real
    var offsetPres: real
    var pressureDiff: int

    ghost function Abs(): Env
      reads this
    {
      Env(cnt, calibrated, offsetTemp, offsetPres, pressureDiff)
    }

    constructor ()
      ensures Abs() == START
    {
      cnt, calibrated, offsetTemp, offsetPres, pressureDiff := 0, false, 0.0, 0.0, 0;
    }

    /** One turn of the loop in esp_env_task. */
    method Turn(s: Sample)
      modifies this
      ensures Abs() == Sampled(old(Abs()), s)
    {
      cnt := cnt + 1;
      pressureDiff := PublishedDiff(s, offsetPres);
      if s.status == OFF {
        if cnt % 30 == 29 {
          calibrated := true;
          offsetTemp := s.temp1 - s.temp2;
          offsetPres := s.pres1 - s.pres2;
        }
      } else {
        cnt := 0;
      }
    }
  }

  // ---- By history ----

  /** The number of consecutive OFF samples at the end. */
  function Streak(ss: seq<Sample>): (n: nat)
    ensures n <= |ss|
    ensures forall i :: |ss| - n <= i < |ss| ==> ss[i].status == OFF
    ensures n < |ss| ==> ss[|ss| - n - 1].status != OFF
  {
    if ss == [] || ss[|ss| - 1].status != OFF then 0 else Streak(ss[..|ss| - 1]) + 1
  }

  /** Sample i ends a streak whose length is 29 modulo 30. */
  predicate Captures(ss: seq<Sample>, i: nat)
    requires i < |ss|
  {
    Streak(ss[..i + 1]) % 30 == 29
  }

  /** The last capturing sample, or -1. */
  function LastCapture(ss: seq<Sample>): (i: int)
    ensures -1 <= i < |ss|
  {
    if ss == [] then -1
    else if Captures(ss, |ss| - 1) then |ss| - 1
    else LastCapture(ss[..|ss| - 1])
  }

  lemma CapturesInPrefix(ss: seq<Sample>, n: nat, j: nat)
    requires j < n <= |ss|
    ensures Captures(ss[..n], j) == Captures(ss, j)
  {
    assert ss[..n][..j + 1] == ss[..j + 1];
  }

  lemma CaptureIsOff(ss: seq<Sample>, i: nat)
    requires i < |ss| && Captures(ss, i)
    ensures ss[i].status == OFF
  {
    var p := ss[..i + 1];
    assert Streak(p) >= 29 && p[i] == ss[i];
  }

  lemma {:induction false} LastCaptureCaptures(ss: seq<Sample>)
    requires LastCapture(ss) >= 0
    ensures Captures(ss, LastCapture(ss))
  {
    var n := |ss| - 1;
    if !Captures(ss, n) {
      LastCaptureCaptures(ss[..n]);
      CapturesInPrefix(ss, n, LastCapture(ss));
    }
  }

  lemma {:induction false} NoLaterCapture(ss: seq<Sample>, j: nat)
    requires LastCapture(ss) < j < |ss|
    ensures !Captures(ss, j)
  {
    var n := |ss| - 1;
    if j < n {
      NoLaterCapture(ss[..n], j);
      CapturesInPrefix(ss, n, j);
    }
  }

  lemma LastCaptureIsLast(ss: seq<Sample>)
    ensures var i := LastCapture(ss);
            && (0 <= i ==> Captures(ss, i) && ss[i].status == OFF)
            && (forall j :: i < j < |ss| ==> !Captures(ss, j))
  {
    var i := LastCapture(ss);
    if 0 <= i {
      LastCaptureCaptures(ss);
      CaptureIsOff(ss, i);
    }
    forall j | i < j < |ss| ensures !Captures(ss, j) {
      NoLaterCapture(ss, j);
    }
  }

  function CapturedPres(ss: seq<Sample>): real {
    var i := LastCapture(ss);
    if i < 0 then 0.0 else ss[i].pres1 - ss[i].pres2
  }

  function CapturedTemp(ss: seq<Sample>): real {
    var i := LastCapture(ss);
    if i < 0 then 0.0 else ss[i].temp1 - ss[i].temp2
  }

  /**
   * The counter is the length of the current OFF streak, the offsets are those of the last capturing sample, and
   * the difference published with a sample uses the last capture strictly before that sample.
   */
  lemma {:induction false} CalibrationByHistory(ss: seq<Sample>)
    ensures var e := AllSampled(ss);
            && e.cnt == Streak(ss)
            && (e.calibrated <==> LastCapture(ss) >= 0)
            && e.offsetTemp == CapturedTemp(ss) && e.offsetPres == CapturedPres(ss)
            && (ss == [] ==> e.pressureDiff == 0)
            && (ss != [] ==> e.pressureDiff == PublishedDiff(ss[|ss| - 1], CapturedPres(ss[..|ss| - 1])))
  {
    if ss != [] {
      CalibrationByHistory(ss[..|ss| - 1]);
      assert ss[..|ss|] == ss;
    }
  }

  /** The published difference is the whole part of the distance between the two corrected readings. */
  lemma PublishedIsDistance(s: Sample, offsetPres: real)
    ensures var d := s.pres1 - offsetPres - s.pres2;
            var distance := if d < 0.0 then -d else d;
            PublishedDiff(s, offsetPres) as real <= distance < PublishedDiff(s, offsetPres) as real + 1.0
  {
  }
}

/** The value types of main/constants.h and the C conversions the firmware relies on. */
module Types {

  type Int16 = x: int | -0x8000 <= x < 0x8000
  type Int32 = x: int | -0x8000_0000 <= x < 0x8000_0000
  type Uint16 = x: int | 0 <= x < 0x1_0000

  /** Storing a uint16_t in an int16_t (two's complement). */
  function ToInt16(u: Uint16): Int16 {
    if u < 0x8000 then u else u - 0x1_0000
  }

  /** Reading an int16_t as a uint16_t: the value modulo 65536. */
  function ToUint16(i: int): Uint16 {
    i % 0x1_0000
  }

  lemma NarrowingIsLossless(u: Uint16, i: Int16)
    ensures ToUint16(ToInt16(u)) == u
    ensures ToInt16(ToUint16(i)) == i
  {
  }

  // enum OpMode; an Int16 because the store keeps it in an int16_t.
  const LOCAL: Int16 := 0
  const AUTO: Int16 := 1
  const API: Int16 := 2

  predicate IsOpMode(m: int) {
    m == LOCAL || m == AUTO || m == API
  }

  // enum MachineStatus
  type MachineStatus = s: int | 0 <= s < 3
  const OFF: MachineStatus := 0
  const ON_LOW: MachineStatus := 1
  const ON_HIGH: MachineStatus := 2

  predicate IsOn(s: MachineStatus) {
    s == ON_HIGH || s == ON_LOW
  }

  /** A C float. Readings are only stored and compared, never computed with, so no rounding occurs. */
  datatype Float = NaN | NegInf | PosInf | Finite(value: real)

  /** `f >= limit`, false for a NaN. Every uint16_t is exact as a float. */
  predicate AtLeast(f: Float, limit: Uint16) {
    f.PosInf? || (f.Finite? && f.value >= limit as real)
  }

  /** `f != g`, true as soon as one side is a NaN. */
  predicate Differs(f: Float, g: Float) {
    f.NaN? || g.NaN? || f != g
  }

  /** `x / 100` for a C short: truncation toward zero (section 6.5.5 of ISO C11). */
  function TruncDiv100(x: Int16): Int16 {
    var n: int := x;
    if n >= 0 then n / 100 else -(-n / 100)
  }

  /** The esp_timer readings (in ms) one handler takes, in the order it takes them. */
  datatype Clock = Clock(entry: int, decide: int, stamp: int)
}

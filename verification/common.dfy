/** What several components share: an optional value, and numbers as the simulator writes them. */
module Common {

  datatype Option<+T> = None | Some(value: T)

  /** The time of what never happens, the greatest 64-bit one. */
  const NEVER_EXPIRES: int := 0x7FFF_FFFF_FFFF_FFFF

  const NANOSECONDS_IN_A_SECOND: int := 1_000_000_000

  function Max(a: int, b: int): int {
    if a < b then b else a
  }

  function Min(a: int, b: int): int {
    if a < b then a else b
  }

  function Least(a: real, b: real): real {
    if a < b then a else b
  }

  /** A float cut to a whole number, towards zero. */
  function Truncated(x: real): int {
    if 0.0 <= x then x.Floor else -(-x).Floor
  }

  /** Less than one is cut off, and always towards zero. */
  ghost predicate IsCut(t: int, x: real) {
    if 0.0 <= x then t as real <= x < (t + 1) as real else (t - 1) as real < x <= t as real
  }

  lemma TruncatedIsCut(x: real, t: int)
    ensures IsCut(t, x) <==> t == Truncated(x)
  {
    var f := x.Floor;
    var g := (-x).Floor;
  }
}

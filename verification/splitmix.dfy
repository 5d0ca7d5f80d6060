/** The random number generator: a counter on 64-bit words and a mix of its value. */
module SplitMix {

  const M: nat := 0x1_0000_0000_0000_0000

  type Word = n: nat | n < M

  const GAMMA: nat := 0x9e3779b97f4a7c15
  const FIRST: nat := 0xbf58476d1ce4e5b9
  const SECOND: nat := 0x94d049bb133111eb

  // ---------------------------------------------------------------- bits

  function Pow2(k: nat): nat {
    if k == 0 then 1 else 2 * Pow2(k - 1)
  }

  function Shift(a: nat, k: nat): nat {
    if k == 0 then a else Shift(a / 2, k - 1)
  }

  function Xor(a: nat, b: nat): nat
    decreases a + b
  {
    if a == 0 && b == 0 then 0 else (a + b) % 2 + 2 * Xor(a / 2, b / 2)
  }

  lemma XorHalves(a: nat, b: nat)
    ensures Xor(a, b) % 2 == (a + b) % 2 && Xor(a, b) / 2 == Xor(a / 2, b / 2)
  {
    if a != 0 || b != 0 {
      BitOnTop((a + b) % 2, Xor(a / 2, b / 2));
    }
  }

  lemma BitOnTop(bit: nat, rest: nat)
    requires bit < 2
    ensures (bit + 2 * rest) % 2 == bit && (bit + 2 * rest) / 2 == rest
  {
  }

  lemma {:induction false} XorAssociates(a: nat, b: nat, c: nat)
    ensures Xor(Xor(a, b), c) == Xor(a, Xor(b, c))
    decreases a + b + c
  {
    hide Xor;
    if a == 0 && b == 0 && c == 0 {
      XorCancels(0);
    } else {
      XorAssociates(a / 2, b / 2, c / 2);
      XorHalves(a, b);
      XorHalves(b, c);
      XorHalves(Xor(a, b), c);
      XorHalves(a, Xor(b, c));
    }
  }

  lemma {:induction false} XorCancels(a: nat)
    ensures Xor(a, a) == 0 && Xor(a, 0) == a && Xor(0, a) == a
  {
    if a != 0 {
      XorCancels(a / 2);
      assert (a + a) % 2 == 0;
    }
  }

  lemma {:induction false} XorFits(a: nat, b: nat, k: nat)
    requires a < Pow2(k) && b < Pow2(k)
    ensures Xor(a, b) < Pow2(k)
  {
    if k == 0 {
      XorCancels(0);
    } else if a != 0 || b != 0 {
      XorFits(a / 2, b / 2, k - 1);
    }
  }

  lemma {:induction false} XorShifts(a: nat, b: nat, k: nat)
    ensures Shift(Xor(a, b), k) == Xor(Shift(a, k), Shift(b, k))
  {
    if k > 0 {
      XorHalves(a, b);
      XorShifts(a / 2, b / 2, k - 1);
    }
  }

  /** Each bit of an xor is set where exactly one of the two is. */
  lemma {:induction false} XorIsBitwise(a: nat, b: nat, k: nat)
    ensures Shift(Xor(a, b), k) % 2 == (Shift(a, k) % 2 + Shift(b, k) % 2) % 2
  {
    hide Xor;
    XorHalves(a, b);
    if k == 0 {
      SumParity(a, b);
    } else {
      XorIsBitwise(a / 2, b / 2, k - 1);
    }
  }

  lemma SumParity(a: nat, b: nat)
    ensures (a + b) % 2 == (a % 2 + b % 2) % 2
  {
  }

  lemma {:induction false} ShiftDivides(a: nat, k: nat)
    ensures Shift(a, k) * Pow2(k) <= a < (Shift(a, k) + 1) * Pow2(k)
  {
    if k > 0 {
      ShiftDivides(a / 2, k - 1);
      Doubled(a, Shift(a / 2, k - 1), Pow2(k - 1));
    }
  }

  lemma Doubled(a: nat, s: nat, p: nat)
    requires s * p <= a / 2 < (s + 1) * p
    ensures s * (2 * p) <= a < (s + 1) * (2 * p)
  {
    assert s * (2 * p) == 2 * (s * p) && (s + 1) * (2 * p) == 2 * ((s + 1) * p);
  }

  lemma {:induction false} ShiftsAdd(a: nat, j: nat, k: nat)
    ensures Shift(Shift(a, j), k) == Shift(a, j + k)
  {
    if j > 0 {
      ShiftsAdd(a / 2, j - 1, k);
    }
  }

  lemma {:induction false} ShiftFits(a: nat, k: nat, n: nat)
    requires a < Pow2(n + k)
    ensures Shift(a, k) < Pow2(n)
  {
    if k > 0 {
      ShiftFits(a / 2, k - 1, n);
    }
  }

  lemma {:induction false} ShiftAway(a: nat, k: nat, n: nat)
    requires a < Pow2(n) && n <= k
    ensures Shift(a, k) == 0
    decreases k
  {
    if n == 0 {
      assert a == 0;
      if k > 0 {
        ShiftAway(0, k - 1, 0);
      }
    } else {
      ShiftAway(a / 2, k - 1, n - 1);
    }
  }

  lemma {:induction false} Pow2Adds(a: nat, b: nat)
    ensures Pow2(a + b) == Pow2(a) * Pow2(b)
  {
    if a > 0 {
      Pow2Adds(a - 1, b);
      assert Pow2(a + b) == 2 * Pow2(a - 1 + b);
    }
  }

  lemma Pow2One()
    ensures Pow2(1) == 2
  {
  }

  lemma WordBits()
    ensures Pow2(64) == M && Pow2(53) == 0x20_0000_0000_0000
  {
    hide Pow2;
    Pow2One();
    Pow2Adds(1, 1);
    Pow2Adds(2, 2);
    Pow2Adds(4, 4);
    Pow2Adds(8, 8);
    Pow2Adds(16, 16);
    Pow2Adds(32, 32);
    Pow2Adds(32, 16);
    Pow2Adds(48, 4);
    Pow2Adds(52, 1);
  }

  // ---------------------------------------------------------------- the mix

  /** A word xored with itself shifted right. */
  function XorShift(x: Word, k: nat): Word {
    WordBits();
    ShiftSmaller(x, k);
    XorFits(x, Shift(x, k), 64);
    Xor(x, Shift(x, k))
  }

  lemma {:induction false} ShiftSmaller(a: nat, k: nat)
    ensures Shift(a, k) <= a
  {
    if k > 0 {
      ShiftSmaller(a / 2, k - 1);
    }
  }

  function Times(x: Word, factor: nat): Word {
    x * factor % M
  }

  function Mix(x: Word): Word {
    XorShift(Times(XorShift(Times(XorShift(x, 30), FIRST), 27), SECOND), 31)
  }

  /** The words whose xor-shift and product are a given one. */
  function Unshift(y: Word, k: nat): Word {
    WordBits();
    ShiftSmaller(y, k);
    ShiftSmaller(y, k + k);
    XorFits(y, Shift(y, k), 64);
    XorFits(Xor(y, Shift(y, k)), Shift(y, k + k), 64);
    Xor(Xor(y, Shift(y, k)), Shift(y, k + k))
  }

  const GAMMA_INVERSE: nat := 0xf1de83e19937733d
  const FIRST_INVERSE: nat := 0x96de1b173f119089
  const SECOND_INVERSE: nat := 0x319642b2d24d8ec3

  function Unmix(y: Word): Word {
    Unshift(Times(Unshift(Times(Unshift(y, 31), SECOND_INVERSE), 27), FIRST_INVERSE), 30)
  }

  /** Shifting by at least a third of a word is undone by xoring twice more. */
  lemma Unshifts(x: Word, k: nat)
    requires 64 <= 3 * k
    ensures Unshift(XorShift(x, k), k) == x && XorShift(Unshift(x, k), k) == x
  {
    WordBits();
    var s, s2, s3 := Shift(x, k), Shift(x, k + k), Shift(x, k + k + k);
    ShiftsAdd(x, k, k);
    ShiftsAdd(x, k, k + k);
    ShiftsAdd(x, k + k, k);
    ShiftAway(x, k + k + k, 64);
    XorShifts(x, s, k);
    XorShifts(x, s, k + k);
    XorShifts(Xor(x, s), s2, k);
    Telescopes(x, s, s2);
    XorCancels(s2);
    Telescopes'(x, s, s2);
  }

  lemma Telescopes(x: nat, s: nat, s2: nat)
    ensures Xor(Xor(Xor(x, s), Xor(s, s2)), s2) == x
  {
    XorAssociates(Xor(x, s), Xor(s, s2), s2);
    XorAssociates(s, s2, s2);
    XorCancels(s2);
    XorCancels(s);
    XorAssociates(x, s, s);
    XorCancels(x);
  }

  lemma Telescopes'(x: nat, s: nat, s2: nat)
    ensures Xor(Xor(Xor(x, s), s2), Xor(Xor(s, s2), 0)) == x
  {
    XorCancels(Xor(s, s2));
    XorAssociates(x, s, s2);
    XorAssociates(x, Xor(s, s2), Xor(s, s2));
    XorCancels(x);
  }

  /** Multiplying by an odd constant is undone by multiplying by its inverse. */
  lemma Untimes(x: Word, factor: nat, inverse: nat, q: nat)
    requires factor * inverse == q * M + 1
    ensures Times(Times(x, factor), inverse) == x
  {
    var y := x * factor;
    var d := y / M;
    assert y == d * M + y % M;
    calc {
      (y % M) * inverse;
      (y - d * M) * inverse;
      y * inverse - d * M * inverse;
      { assert y * inverse == x * (factor * inverse) == x * (q * M + 1) == x * q * M + x; }
      x + (x * q - d * inverse) * M;
    }
    ModuloShift(x, x * q - d * inverse);
  }

  lemma ModuloShift(x: nat, k: int)
    requires x < M
    ensures (x + k * M) % M == x
  {
  }

  /** The mix is a bijection on words. */
  lemma MixIsBijection(x: Word)
    ensures Unmix(Mix(x)) == x && Mix(Unmix(x)) == x
  {
    hide XorShift, Unshift, Times;
    var a := XorShift(x, 30);
    var b := Times(a, FIRST);
    var c := XorShift(b, 27);
    var d := Times(c, SECOND);
    Unshifts(d, 31);
    Untimes(c, SECOND, SECOND_INVERSE, 2077064247507883091);
    Unshifts(b, 27);
    Untimes(a, FIRST, FIRST_INVERSE, 8125545580553827436);
    Unshifts(x, 30);

    var e := Unshift(x, 31);
    var f := Times(e, SECOND_INVERSE);
    var g := Unshift(f, 27);
    var h := Times(g, FIRST_INVERSE);
    Unshifts(h, 30);
    Untimes(g, FIRST_INVERSE, FIRST, 8125545580553827436);
    Unshifts(f, 27);
    Untimes(e, SECOND_INVERSE, SECOND, 2077064247507883091);
    Unshifts(x, 31);
  }

  // ---------------------------------------------------------------- the sequence

  function StateAfter(seed: Word, steps: nat): Word {
    (seed + steps * GAMMA) % M
  }

  /** The draw after a number of others. */
  function Output(seed: Word, n: nat): Word {
    Mix(StateAfter(seed, n + 1))
  }

  /** The counter is back where it was after a multiple of 2^64 steps and not before. */
  lemma StateRepeats(seed: Word, n: nat, m: nat)
    requires n <= m
    ensures StateAfter(seed, n) == StateAfter(seed, m) <==> (m - n) % M == 0
  {
    var d := m - n;
    SameRest(seed + n * GAMMA, seed + m * GAMMA);
    assert seed + m * GAMMA - (seed + n * GAMMA) == d * GAMMA;
    GammaIsOdd(d);
  }

  lemma SameRest(a: nat, b: nat)
    requires a <= b
    ensures a % M == b % M <==> (b - a) % M == 0
  {
  }

  lemma GammaIsOdd(d: nat)
    ensures d * GAMMA % M == 0 <==> d % M == 0
  {
    var q, r := d * GAMMA / M, d / M;
    if d * GAMMA % M == 0 {
      assert d * GAMMA == M * q;
      assert d * GAMMA * GAMMA_INVERSE == d + d * 10771413168148108919 * M;
      assert d == M * (q * GAMMA_INVERSE - d * 10771413168148108919);
      Multiple(q * GAMMA_INVERSE - d * 10771413168148108919);
    }
    if d % M == 0 {
      assert d * GAMMA == M * (r * GAMMA);
      Multiple(r * GAMMA);
    }
  }

  lemma Multiple(k: int)
    ensures M * k % M == 0
  {
  }

  /** Two draws are the same exactly when a multiple of 2^64 draws lies between them. */
  lemma OutputsRepeat(seed: Word, n: nat, m: nat)
    requires n <= m
    ensures Output(seed, n) == Output(seed, m) <==> (m - n) % M == 0
  {
    StateRepeats(seed, n + 1, m + 1);
    MixIsBijection(StateAfter(seed, n + 1));
    MixIsBijection(StateAfter(seed, m + 1));
  }

  /** Every word is among the first 2^64 draws. */
  lemma EveryWordIsDrawn(seed: Word, w: Word) returns (n: nat)
    ensures n < M && Output(seed, n) == w
  {
    MixIsBijection(w);
    n := StepTo(seed, Unmix(w));
  }

  lemma StepTo(seed: Word, x: Word) returns (n: nat)
    ensures n < M && StateAfter(seed, n + 1) == x
  {
    var d := x + M - seed;
    var e := d * GAMMA_INVERSE + M - 1;
    n := e % M;
    var q := e / M;
    assert n + 1 == d * GAMMA_INVERSE + (1 - q) * M;
    assert (n + 1) * GAMMA == d * (GAMMA_INVERSE * GAMMA) + (1 - q) * M * GAMMA;
    var k := 1 + d * 10771413168148108919 + (1 - q) * GAMMA;
    assert seed + (n + 1) * GAMMA == x + k * M;
    ModuloShift(x, k);
  }

  // ---------------------------------------------------------------- the generator

  const INT_MAX: int := 0x7fff_ffff_ffff_ffff

  class SplitMix64 {
    var state: Word
    var start: Word

    constructor (seed: Word)
      ensures state == start == seed
    {
      state, start := seed, seed;
    }

    method Next() returns (result: Word)
      modifies `state
      ensures state == StateAfter(old(state), 1) && result == Output(old(state), 0)
    {
      state := (state + GAMMA) % M;
      result := state;
      result := Times(XorShift(result, 30), FIRST);
      result := Times(XorShift(result, 27), SECOND);
      result := XorShift(result, 31);
    }

    method NextFloat64() returns (r: real)
      modifies `state
      ensures state == StateAfter(old(state), 1)
      ensures 0.0 <= r < 1.0 && r == Shift(Output(old(state), 0), 11) as real / 9007199254740992.0
    {
      var result := Next();
      WordBits();
      ShiftFits(result, 11, 53);
      r := Shift(result, 11) as real / 9007199254740992.0;
    }

    /** Many draws: the sequence of the seed, without a repetition for 2^64 of them. */
    method Draw(count: nat) returns (draws: seq<Word>)
      modifies `state
      ensures state == StateAfter(old(state), count) && |draws| == count
      ensures forall i :: 0 <= i < count ==> draws[i] == Output(old(state), i)
      ensures count <= M ==> forall i, j :: 0 <= i < j < count ==> draws[i] != draws[j]
    {
      hide Mix;
      draws := [];
      while |draws| < count
        invariant |draws| <= count && state == StateAfter(old(state), |draws|)
        invariant forall i :: 0 <= i < |draws| ==> draws[i] == Output(old(state), i)
      {
        StepsAdd(old(state), |draws|);
        var w := Next();
        draws := draws + [w];
      }
      if count <= M {
        forall i, j | 0 <= i < j < count ensures draws[i] != draws[j] {
          OutputsRepeat(old(state), i, j);
        }
      }
    }

    /** A signed seed is kept as the word of the same bits. */
    method Seed(s: int)
      requires -INT_MAX - 1 <= s <= INT_MAX
      modifies this
      ensures state == start == s % M && Signed(start) == s
    {
      start := s % M;
      state := s % M;
    }

    method GetSeed() returns (s: int)
      ensures s == Signed(start) && -INT_MAX - 1 <= s <= INT_MAX
    {
      s := Signed(start);
    }
  }

  function Signed(w: Word): int {
    if w <= INT_MAX then w else w - M
  }

  lemma StepsAdd(seed: Word, n: nat)
    ensures StateAfter(StateAfter(seed, n), 1) == StateAfter(seed, n + 1)
  {
    var a := seed + n * GAMMA;
    var q := a / M;
    assert seed + (n + 1) * GAMMA == a + GAMMA;
    assert a % M + GAMMA == a + GAMMA - q * M;
    SameRest(a % M + GAMMA, a + GAMMA);
    Multiple(q);
  }
}

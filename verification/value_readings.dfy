/** What a datum is worth as another type, and when two compare, said without the getters: a whole number is cut
    towards zero, a duration counts whole nanoseconds, texts are ordered by their first difference. */
module ValueReadings {
  import opened Common
  import opened Values

  function TypeOfDatum(x: Datum): Type {
    match x
    case I(_) => Int
    case F(_) => Float
    case D(_) => Duration
    case S(_) => String
    case B(_) => Bool
  }

  /** What a value that has no reading as the type is worth. */
  function Blank(t: Type): Datum
    requires t != Unknown
  {
    if t == Bool then B(false) else if t == String then S([]) else if t == Int then I(0) else if t == Float then F(0.0) else D(0)
  }

  /** The constant's own reading of that type. */
  function LiteralAs(lit: Literal, t: Type): Datum
    requires t != Unknown
  {
    var Literal(_, i, f, d, s, b) := lit;
    if t == Bool then B(b) else if t == String then S(s) else if t == Int then I(i) else if t == Float then F(f) else D(d)
  }

  // ---------------------------------------------------------------- one value as another type

  function WholePart(x: real): (t: int)
    ensures IsCut(t, x)
  {
    if x < 0.0 then -((-x).Floor) else x.Floor
  }

  function WholeSeconds(nanoseconds: int): int {
    if nanoseconds < 0 then -(-nanoseconds / 1_000_000_000) else nanoseconds / 1_000_000_000
  }

  /** Zero, empty and false are not true. */
  predicate Truth(x: Datum) {
    x != I(0) && x != F(0.0) && x != D(0) && x != S([]) && x != B(false)
  }

  function AsInt(x: Datum): int {
    match x
    case B(b) => if b then 1 else 0
    case I(i) => i
    case F(f) => WholePart(f)
    case D(d) => WholeSeconds(d)
    case S(_) => 0
  }

  function AsFloat(x: Datum): real {
    match x
    case B(b) => if b then 1.0 else 0.0
    case I(i) => i as real
    case F(f) => f
    case D(d) => d as real / 1_000_000_000.0
    case S(_) => 0.0
  }

  function AsDuration(x: Datum): int {
    match x
    case I(i) => i * 1_000_000_000
    case F(f) => WholePart(f * 1_000_000_000.0)
    case D(d) => d
    case _ => 0
  }

  function AsText(x: Datum, state: State): string {
    match x
    case I(i) => state.showInt(i)
    case F(f) => state.showFloat(f)
    case D(d) => state.showDuration(d)
    case S(s) => s
    case B(_) => []
  }

  /** The value read as the type, or nothing where it has no such reading: text as a number or a duration, a yes/no
      value as a duration or text. */
  function As(x: Datum, t: Type, state: State): (r: Datum)
    requires t != Unknown
    ensures OfType(r, t)
  {
    if t == Bool then B(Truth(x))
    else if t == String then S(AsText(x, state))
    else if t == Int then I(AsInt(x))
    else if t == Float then F(AsFloat(x))
    else D(AsDuration(x))
  }

  lemma SecondsAreCut(d: int)
    ensures WholeSeconds(d) == Truncated(d as real / 1_000_000_000.0)
  {
    var x := d as real / 1_000_000_000.0;
    var w := WholeSeconds(d);
    var n, q := if d < 0 then -d else d, if d < 0 then -w else w;
    assert q * 1_000_000_000 <= n < (q + 1) * 1_000_000_000;
    assert q as real <= n as real / 1_000_000_000.0 < (q + 1) as real;
    assert IsCut(w, x);
    TruncatedIsCut(x, w);
  }

  /** A wrapper reads what the value is worth as the wrapper's type; and it may stand exactly where there is such a
      reading. */
  lemma ConvertedAs(x: Datum, t: Type, state: State)
    requires t != Unknown
    ensures CanCoerce(TypeOfDatum(x), t) ==> Convert(x, t, state) == As(x, t, state)
    ensures !CanCoerce(TypeOfDatum(x), t) ==> As(x, t, state) == Blank(t)
    ensures CanCoerce(TypeOfDatum(x), t) <==> !(x.S? && t in {Int, Float, Duration}) && !(x.B? && t in {Duration, String})
  {
    if x.D? {
      SecondsAreCut(x.d);
    }
    if x.F? {
      TruncatedIsCut(x.f, WholePart(x.f));
      TruncatedIsCut(1_000_000_000.0 * x.f, WholePart(x.f * 1_000_000_000.0));
    }
  }

  lemma ReadConstant(lit: Literal, t: Type)
    requires t != Unknown
    ensures Constant(lit, t) == LiteralAs(lit, t) && Zero(t) == Blank(t)
  {
  }

  /** No text is nothing: the empty one is no number and no duration. */
  predicate ParsesText(text: string, p: Parses) {
    text == "" ==> p.lower == "" && p.duration.None? && p.whole.None? && p.percent.None? && p.number.None?
  }

  /** A parsed constant that is retyped upwards, as a number or a duration, reads as a wrapper around it would.  As a
      yes/no value it reads as true, even when it is a zero, and as text as it was written. */
  lemma RetypedIsWrapped(text: string, p: Parses, t: Type, state: State)
    requires ParsesText(text, p) && t != Unknown
    ensures var lit := NewConst(text, p);
            && LiteralOk(lit)
            && (lit.typ in {Int, Float, Duration} && t in {Int, Float, Duration} && Priority(lit.typ) <= Priority(t) ==>
                  Constant(lit, t) == Convert(Constant(lit, lit.typ), t, state))
            && (lit.typ in {Int, Float, Duration} ==> Constant(lit, Bool) == B(true) && Constant(lit, String) == S(text))
  {
    var lit := NewConst(text, p);
    if lit.typ == Int && t == Duration {
      TruncatedIsCut(SECOND as real * lit.f, SECOND * lit.i);
    }
  }

  // ---------------------------------------------------------------- two values compared

  /** The texts agree up to k, where the first ends or goes on with the smaller character. */
  predicate FirstDiffers(a: string, b: string, k: nat) {
    && k <= |a| && k < |b| && a[..k] == b[..k]
    && (k == |a| || a[k] < b[k])
  }

  ghost predicate Precedes(a: string, b: string) {
    exists k: nat :: FirstDiffers(a, b, k)
  }

  lemma {:induction false} LessIsPrecedes(a: string, b: string)
    ensures TextLess(a, b) <==> Precedes(a, b)
    decreases |a|
  {
    if a == [] {
      assert b != [] ==> FirstDiffers(a, b, 0);
    } else if b != [] {
      LessIsPrecedes(a[1..], b[1..]);
      if a[0] < b[0] {
        assert FirstDiffers(a, b, 0);
      }
      if a[0] == b[0] && Precedes(a[1..], b[1..]) {
        var k: nat :| FirstDiffers(a[1..], b[1..], k);
        assert a[..k + 1] == [a[0]] + a[1..][..k] && b[..k + 1] == [b[0]] + b[1..][..k];
        assert FirstDiffers(a, b, k + 1);
      }
      if Precedes(a, b) {
        var k: nat :| FirstDiffers(a, b, k);
        if k > 0 {
          assert a[..k][0] == b[..k][0];
          assert a[1..][..k - 1] == a[..k][1..] && b[1..][..k - 1] == b[..k][1..];
          assert FirstDiffers(a[1..], b[1..], k - 1);
        }
      }
    }
  }

  /** Of two different texts exactly one precedes the other, and none precedes itself. */
  lemma {:induction false} OnePrecedes(a: string, b: string)
    ensures a != b ==> (Precedes(a, b) <==> !Precedes(b, a))
    ensures a == b ==> !Precedes(a, b)
    decreases |a|
  {
    LessIsPrecedes(a, b);
    LessIsPrecedes(b, a);
    hide Precedes;
    if a != [] && b != [] {
      OnePrecedes(a[1..], b[1..]);
      LessIsPrecedes(a[1..], b[1..]);
      LessIsPrecedes(b[1..], a[1..]);
      if a[0] == b[0] {
        assert a == [a[0]] + a[1..] && b == [b[0]] + b[1..];
      }
    }
  }

  /** The smaller number, the shorter time, the text that precedes; yes/no values are not ordered. */
  ghost predicate Below(x: Datum, y: Datum) {
    match (x, y)
    case (I(i), I(j)) => i < j
    case (F(f), F(g)) => f < g
    case (D(d), D(e)) => d < e
    case (S(s), S(t)) => Precedes(s, t)
    case _ => false
  }

  /** What a comparison of two values of one type says. */
  ghost predicate Holds(op: Operator, x: Datum, y: Datum) {
    && TypeOfDatum(x) == TypeOfDatum(y)
    && match op {
         case Eq => x == y
         case Ne => x != y
         case Lt => Below(x, y)
         case Gt => Below(y, x)
         case Le => !x.B? && !Below(y, x)
         case Ge => !x.B? && !Below(x, y)
       }
  }

  lemma ComparedHolds(op: Operator, x: Datum, y: Datum)
    ensures Compared(op, x, y) <==> Holds(op, x, y)
  {
    hide Precedes;
    if x.S? && y.S? {
      LessIsPrecedes(x.s, y.s);
      LessIsPrecedes(y.s, x.s);
      OnePrecedes(x.s, y.s);
    }
  }

  // ---------------------------------------------------------------- types

  /** The order of the types: whole numbers, numbers, durations, text, yes/no values; an unknown type is below all. */
  lemma TypesInOrder(s: Type, t: Type)
    ensures Priority(Unknown) < Priority(Int) < Priority(Float) < Priority(Duration) < Priority(String) < Priority(Bool)
    ensures HigherOrder(s, t) in {s, t} && Priority(s) <= Priority(HigherOrder(s, t)) && Priority(t) <= Priority(HigherOrder(s, t))
  {
  }
}

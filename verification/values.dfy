/** Conditions of a rotation: compiling a parsed condition into a tree of value nodes, folding constants
    on the way, and reading a node in a state of the simulation.

    Every node gets a number when it is constructed, so that the nodes of the live tree can be told
    from those that folding has taken out of it. */
module Values {
  import opened Common

  /** In rising priority: of two operands the one of lower priority is read as the other's type. */
  datatype Type = Unknown | Int | Float | Duration | String | Bool

  /** What a getter returns. */
  datatype Datum = I(i: int) | F(f: real) | D(d: int) | S(s: string) | B(b: bool)

  /** A parsed constant.  It carries a reading for every type; unless it is true or false, its yes/no
      reading is whether its text is non-empty. */
  datatype Literal = Literal(typ: Type, i: int, f: real, d: int, s: string, b: bool)

  ghost predicate LiteralOk(lit: Literal) {
    && lit.typ != Unknown
    && (lit.typ != Bool ==> lit.b == (lit.s != ""))
    && (lit.typ in {Int, Float, Duration} ==> lit.s != "")
  }

  /** What the library makes of a constant's text: in lower case; as a duration, a whole number, a percentage and a
      number, where it is one. */
  datatype Parses = Parses(lower: string, duration: Option<int>, whole: Option<int>, percent: Option<real>, number: Option<real>)

  function Wrapped32(i: int): int {
    (i + 0x8000_0000) % 0x1_0000_0000 - 0x8000_0000
  }

  /** The first reading that there is decides the type. */
  function NewConst(text: string, p: Parses): (lit: Literal)
    ensures lit.s == text && lit.typ != Unknown
  {
    var plain := Literal(String, 0, 0.0, 0, text, text != "");
    if p.lower == "true" then plain.(typ := Bool, b := true)
    else if p.lower == "false" then plain.(typ := Bool, b := false)
    else if p.duration.Some? then plain.(typ := Duration, d := p.duration.value)
    else if p.whole.Some? then Numbered(plain, Int, Wrapped32(p.whole.value), Wrapped32(p.whole.value) as real)
    else if p.percent.Some? then Numbered(plain, Float, 0, p.percent.value / 100.0)
    else if p.number.Some? then Numbered(plain, Float, 0, p.number.value)
    else plain
  }

  /** A number is read as so many seconds. */
  function Numbered(plain: Literal, t: Type, i: int, f: real): Literal {
    plain.(typ := t, i := i, f := f, d := Truncated(NANOSECONDS_IN_A_SECOND as real * f))
  }

  datatype Operator = Eq | Ne | Lt | Le | Gt | Ge

  /** A parsed condition.  A leaf is any value that reads the simulation; one that names nothing known
      does not resolve. */
  datatype Condition =
    | Lit(lit: Literal)
    | Leaf(leaf: nat, typ: Type)
    | Unresolved
    | And(all: seq<Condition>)
    | Or(any: seq<Condition>)
    | Not(inner: Condition)
    | Compare(op: Operator, lhs: Condition, rhs: Condition)
    | Hole(name: string)

  /** A compiled node. */
  datatype Value =
    | VConst(id: nat, lit: Literal)
    | VLeaf(id: nat, leaf: nat, typ: Type)
    | VCoerced(id: nat, typ: Type, inner: Value)
    | VAnd(id: nat, vals: seq<Value>)
    | VOr(id: nat, vals: seq<Value>)
    | VNot(id: nat, val: Value)
    | VCompare(id: nat, op: Operator, lhs: Value, rhs: Value)
    | VHole(id: nat, name: string)

  /** A state of the simulation, as far as conditions read it, and how numbers are shown as text. */
  datatype State = State(ints: nat -> int, floats: nat -> real, durations: nat -> int, strings: nat -> string, bools: nat -> bool,
                         showInt: int -> string, showFloat: real -> string, showDuration: int -> string)

  function TypeOf(v: Value): Type {
    match v
    case VConst(_, lit) => lit.typ
    case VLeaf(_, _, typ) => typ
    case VCoerced(_, typ, _) => typ
    case VAnd(_, _) => Bool
    case VOr(_, _) => Bool
    case VNot(_, _) => Bool
    case VCompare(_, _, _, _) => Bool
    case VHole(_, _) => Unknown
  }

  predicate CanCoerce(from: Type, to: Type) {
    match from
    case String => to == String || to == Bool
    case Bool => to != Duration && to != String
    case _ => true
  }

  // ---------------------------------------------------------------- reading

  /** Whether reading the node as the type reaches no getter that panics. */
  predicate CanRead(v: Value, t: Type)
    decreases v
  {
    match v
    case VConst(_, _) => t != Unknown
    case VLeaf(_, _, typ) => t == typ && t != Unknown
    case VCoerced(_, _, inner) => t != Unknown && CanCoerce(TypeOf(inner), t) && (TypeOf(inner) != Unknown ==> CanRead(inner, TypeOf(inner)))
    case VAnd(_, vals) => t == Bool && forall i :: 0 <= i < |vals| ==> CanRead(vals[i], Bool)
    case VOr(_, vals) => t == Bool && forall i :: 0 <= i < |vals| ==> CanRead(vals[i], Bool)
    case VNot(_, val) => t == Bool && CanRead(val, Bool)
    case VCompare(_, _, lhs, rhs) => t == Bool && (TypeOf(lhs) != Unknown ==> CanRead(lhs, TypeOf(lhs)) && CanRead(rhs, TypeOf(lhs)))
    case VHole(_, _) => t != Unknown
  }

  function Zero(t: Type): Datum
    requires t != Unknown
  {
    match t
    case Int => I(0)
    case Float => F(0.0)
    case Duration => D(0)
    case String => S("")
    case Bool => B(false)
  }

  function Constant(lit: Literal, t: Type): Datum
    requires t != Unknown
  {
    match t
    case Int => I(lit.i)
    case Float => F(lit.f)
    case Duration => D(lit.d)
    case String => S(lit.s)
    case Bool => B(lit.b)
  }

  const SECOND := NANOSECONDS_IN_A_SECOND

  predicate OfType(x: Datum, t: Type) {
    match t
    case Int => x.I?
    case Float => x.F?
    case Duration => x.D?
    case String => x.S?
    case Bool => x.B?
    case Unknown => false
  }

  /** A wrapper's reading of a value of another type. */
  function Convert(x: Datum, to: Type, state: State): (r: Datum)
    requires to != Unknown && CanCoerce(match x { case I(_) => Int case F(_) => Float case D(_) => Duration case S(_) => String case B(_) => Bool }, to)
    ensures OfType(r, to)
  {
    match (to, x)
    case (Bool, B(b)) => x
    case (Bool, I(i)) => B(i != 0)
    case (Bool, F(f)) => B(f != 0.0)
    case (Bool, D(d)) => B(d != 0)
    case (Bool, S(s)) => B(s != "")
    case (Int, B(b)) => I(if b then 1 else 0)
    case (Int, I(i)) => x
    case (Int, F(f)) => I(Truncated(f))
    case (Int, D(d)) => I(Truncated(d as real / SECOND as real))
    case (Float, B(b)) => F(if b then 1.0 else 0.0)
    case (Float, I(i)) => F(i as real)
    case (Float, F(f)) => x
    case (Float, D(d)) => F(d as real / SECOND as real)
    case (Duration, I(i)) => D(SECOND * i)
    case (Duration, F(f)) => D(Truncated(SECOND as real * f))
    case (Duration, D(d)) => x
    case (String, I(i)) => S(state.showInt(i))
    case (String, F(f)) => S(state.showFloat(f))
    case (String, D(d)) => S(state.showDuration(d))
    case (String, S(s)) => x
  }

  predicate TextLess(a: string, b: string) {
    if b == "" then false
    else if a == "" then true
    else a[0] < b[0] || (a[0] == b[0] && TextLess(a[1..], b[1..]))
  }

  /** A comparison of two values of one type; yes/no values only compare for equality. */
  function Compared(op: Operator, x: Datum, y: Datum): bool {
    match (x, y)
    case (I(a), I(b)) => Ordered(op, a == b, a < b)
    case (F(a), F(b)) => Ordered(op, a == b, a < b)
    case (D(a), D(b)) => Ordered(op, a == b, a < b)
    case (S(a), S(b)) => Ordered(op, a == b, TextLess(a, b))
    case (B(a), B(b)) => (op == Eq && a == b) || (op == Ne && a != b)
    case _ => false
  }

  predicate Ordered(op: Operator, equal: bool, less: bool) {
    match op
    case Eq => equal
    case Ne => !equal
    case Lt => less
    case Le => less || equal
    case Gt => !less && !equal
    case Ge => !less
  }

  function Read(v: Value, t: Type, state: State): (x: Datum)
    requires CanRead(v, t)
    ensures OfType(x, t)
    decreases v
  {
    match v
    case VConst(_, lit) => Constant(lit, t)
    case VLeaf(_, leaf, _) =>
      (match t
       case Int => I(state.ints(leaf))
       case Float => F(state.floats(leaf))
       case Duration => D(state.durations(leaf))
       case String => S(state.strings(leaf))
       case Bool => B(state.bools(leaf)))
    case VCoerced(_, _, inner) => if TypeOf(inner) == Unknown then Zero(t) else Convert(Read(inner, TypeOf(inner), state), t, state)
    case VAnd(_, vals) => B(AllTrue(vals, state))
    case VOr(_, vals) => B(AnyTrue(vals, state))
    case VNot(_, val) => B(!Read(val, Bool, state).b)
    case VCompare(_, op, lhs, rhs) =>
      if TypeOf(lhs) == Unknown then B(false) else B(Compared(op, Read(lhs, TypeOf(lhs), state), Read(rhs, TypeOf(lhs), state)))
    case VHole(_, _) => Zero(t)
  }

  predicate AllTrue(vals: seq<Value>, state: State)
    requires forall i :: 0 <= i < |vals| ==> CanRead(vals[i], Bool)
    decreases vals
  {
    vals == [] || (Read(vals[0], Bool, state).b && AllTrue(vals[1..], state))
  }

  predicate AnyTrue(vals: seq<Value>, state: State)
    requires forall i :: 0 <= i < |vals| ==> CanRead(vals[i], Bool)
    decreases vals
  {
    vals != [] && (Read(vals[0], Bool, state).b || AnyTrue(vals[1..], state))
  }

  // ---------------------------------------------------------------- construction

  /** The nodes constructed so far, those that folding has orphaned, and those given up unfinished: a
      constant replaced by its retyped copy, or the operands of a comparison that was rejected. */
  datatype Build = Build(next: nat, orphans: seq<nat>, dropped: seq<nat>)

  /** A node and everything below it, in the order in which an orphaned value is collected. */
  function Nodes(v: Value): seq<nat>
    decreases v
  {
    [v.id] + (match v
              case VCoerced(_, _, inner) => Nodes(inner)
              case VAnd(_, vals) => NodesOf(vals)
              case VOr(_, vals) => NodesOf(vals)
              case VNot(_, val) => Nodes(val)
              case VCompare(_, _, lhs, rhs) => Nodes(lhs) + Nodes(rhs)
              case _ => [])
  }

  function NodesOf(vals: seq<Value>): seq<nat>
    decreases vals
  {
    if vals == [] then [] else Nodes(vals[0]) + NodesOf(vals[1..])
  }

  function Found(v: Option<Value>): seq<nat> {
    match v case None => [] case Some(x) => Nodes(x)
  }

  function CoerceTo(v: Option<Value>, t: Type, b: Build): (Option<Value>, Build) {
    match v
    case None => (None, b)
    case Some(x) =>
      if TypeOf(x) == t then (v, b)
      else if x.VConst? then
        (Some(VConst(b.next, x.lit.(typ := t))), b.(next := b.next + 1, dropped := b.dropped + [x.id]))
      else if !CanCoerce(TypeOf(x), t) then (None, b.(dropped := b.dropped + Nodes(x)))
      else (Some(VCoerced(b.next, t, x)), b.(next := b.next + 1))
  }

  function Priority(t: Type): nat {
    match t case Unknown => 0 case Int => 1 case Float => 2 case Duration => 3 case String => 4 case Bool => 5
  }

  function HigherOrder(s: Type, t: Type): Type {
    if Priority(s) <= Priority(t) then t else s
  }

  /** The type two operands are read as; Unknown, which leaves them as they are, while one is a hole. */
  function CommonType(x: Value, y: Value): Type {
    if x.VHole? || y.VHole? then Unknown else HigherOrder(TypeOf(x), TypeOf(y))
  }

  function Present(vals: seq<Option<Value>>): seq<Value> {
    if vals == [] then [] else (if vals[0].Some? then [vals[0].value] else []) + Present(vals[1..])
  }

  predicate IsConst(v: Value, b: bool) {
    v.VConst? && v.lit.typ == Bool && v.lit.b == b
  }

  /** The first constant operand that decides the node, if any. */
  function Decisive(vals: seq<Value>, b: bool): Option<nat> {
    if vals == [] then None
    else if IsConst(vals[0], b) then Some(0)
    else
      match Decisive(vals[1..], b)
      case None => None
      case Some(k) => Some(k + 1)
  }

  lemma DecisiveIsConst(vals: seq<Value>, b: bool)
    ensures Decisive(vals, b).Some? ==> Decisive(vals, b).value < |vals| && IsConst(vals[Decisive(vals, b).value], b)
  {
  }

  /** How a condition is compiled: whether constants are folded, and the fills of the holes if they are
      known at parse time. */
  datatype Mode = Mode(fold: bool, fills: Option<map<string, Condition>>)

  function Compile(c: Condition, mode: Mode, b: Build): (Option<Value>, Build)
    decreases if mode.fills.Some? then 1 else 0, c, 0
  {
    match c
    case Lit(lit) => (Some(VConst(b.next, lit)), b.(next := b.next + 1))
    case Leaf(leaf, typ) => (Some(VLeaf(b.next, leaf, typ)), b.(next := b.next + 1))
    case Unresolved => (None, b)
    case And(all) =>
      var (vals, b1) := CompileAll(all, mode, b);
      Gather(Present(vals), true, mode.fold, b1)
    case Or(any) =>
      var (vals, b1) := CompileAll(any, mode, b);
      Gather(Present(vals), false, mode.fold, b1)
    case Not(inner) =>
      var (v0, b0) := Compile(inner, mode, b);
      var (v, b1) := CoerceTo(v0, Bool, b0);
      (match v
       case None => (None, b1)
       case Some(x) => Negate(x, mode.fold, b1))
    case Compare(op, lhs, rhs) =>
      var (l, b1) := Compile(lhs, mode, b);
      var (r, b2) := Compile(rhs, mode, b1);
      if l.None? || r.None? then (None, b2.(dropped := b2.dropped + Found(l) + Found(r)))
      else Relate(op, l.value, r.value, b2)
    case Hole(name) =>
      if mode.fills.Some? && name in mode.fills.value then Compile(mode.fills.value[name], mode.(fills := None), b)
      else (Some(VHole(b.next, name)), b.(next := b.next + 1))
  }

  /** Operands of And and Or, each read as a yes/no value. */
  function CompileAll(cs: seq<Condition>, mode: Mode, b: Build): (seq<Option<Value>>, Build)
    decreases if mode.fills.Some? then 1 else 0, cs, 0
  {
    if cs == [] then ([], b)
    else
      var (v0, b0) := Compile(cs[0], mode, b);
      var (v, b1) := CoerceTo(v0, Bool, b0);
      var (rest, b2) := CompileAll(cs[1..], mode, b1);
      ([v] + rest, b2)
  }

  /** An And (conj) or an Or of the operands that resolved.  One operand stands for itself; a constant
      that decides the whole replaces it, and its siblings are orphaned. */
  function Gather(vals: seq<Value>, conj: bool, fold: bool, b: Build): (Option<Value>, Build) {
    if vals == [] then (None, b)
    else if |vals| == 1 then (Some(vals[0]), b)
    else
      DecisiveIsConst(vals, !conj);
      match Decisive(vals, !conj)
      case Some(k) =>
        if fold then (Some(vals[k]), b.(orphans := b.orphans + NodesOf(vals[..k]) + NodesOf(vals[k + 1..])))
        else (Some(if conj then VAnd(b.next, vals) else VOr(b.next, vals)), b.(next := b.next + 1))
      case None => (Some(if conj then VAnd(b.next, vals) else VOr(b.next, vals)), b.(next := b.next + 1))
  }

  /** Not of a constant is the constant flipped in place. */
  function Negate(v: Value, fold: bool, b: Build): (Option<Value>, Build) {
    if fold && v.VConst? && v.lit.typ == Bool
    then (Some(VConst(v.id, v.lit.(b := !v.lit.b, s := if v.lit.b then "false" else "true"))), b)
    else (Some(VNot(b.next, v)), b.(next := b.next + 1))
  }

  /** A comparison reads both operands as their common type; yes/no values allow only equality. */
  function Relate(op: Operator, l: Value, r: Value, b: Build): (Option<Value>, Build) {
    var (l', r', b1) := SameType(l, r, b);
    if TypeOf(l'.value) != Unknown && TypeOf(r'.value) != Unknown && TypeOf(l'.value) == Bool && op != Eq && op != Ne
    then (None, b1.(dropped := b1.dropped + Nodes(l'.value) + Nodes(r'.value)))
    else (Some(VCompare(b1.next, op, l'.value, r'.value)), b1.(next := b1.next + 1))
  }

  function SameType(l: Value, r: Value, b: Build): (res: (Option<Value>, Option<Value>, Build))
    ensures res.0.Some? && res.1.Some?
  {
    var t := CommonType(l, r);
    if t == Unknown then (Some(l), Some(r), b)
    else
      var (l', b1) := CoerceTo(Some(l), t, b);
      var (r', b2) := CoerceTo(Some(r), t, b1);
      (l', r', b2)
  }

  // ---------------------------------------------------------------- filling the holes of a compiled value

  /** A group reference puts its own fills into a tree that was compiled with holes.  What holds a fill is
      rebuilt without folding: only a comparison reads its operands as one type again, and a wrapper that
      cannot read the fill stays as it was.  A fill that does not resolve leaves its hole. */
  function Replace(v: Value, fills: map<string, Condition>): Value
    decreases v
  {
    match v
    case VHole(_, name) =>
      if name in fills then
        (match Compile(fills[name], Mode(true, None), Build(0, [], [])).0
         case None => v
         case Some(x) => x)
      else v
    case VCoerced(id, t, inner) =>
      var inner' := Replace(inner, fills);
      if inner' == inner || !CanCoerce(TypeOf(inner'), t) then v else VCoerced(id, t, inner')
    case VAnd(id, vals) => VAnd(id, ReplaceAll(vals, fills))
    case VOr(id, vals) => VOr(id, ReplaceAll(vals, fills))
    case VNot(id, val) => VNot(id, Replace(val, fills))
    case VCompare(id, op, lhs, rhs) =>
      var lhs', rhs' := Replace(lhs, fills), Replace(rhs, fills);
      if lhs' == lhs && rhs' == rhs then v
      else
        var (l, r, _) := SameType(lhs', rhs', Build(0, [], []));
        VCompare(id, op, l.value, r.value)
    case _ => v
  }

  function ReplaceAll(vals: seq<Value>, fills: map<string, Condition>): seq<Value>
    decreases vals
  {
    if vals == [] then [] else [Replace(vals[0], fills)] + ReplaceAll(vals[1..], fills)
  }

  // ---------------------------------------------------------------- no reading panics

  ghost predicate WellFormed(c: Condition)
    decreases c
  {
    match c
    case Lit(lit) => LiteralOk(lit)
    case Leaf(_, typ) => typ != Unknown
    case And(all) => forall i :: 0 <= i < |all| ==> WellFormed(all[i])
    case Or(any) => forall i :: 0 <= i < |any| ==> WellFormed(any[i])
    case Not(inner) => WellFormed(inner)
    case Compare(_, lhs, rhs) => WellFormed(lhs) && WellFormed(rhs)
    case _ => true
  }

  ghost predicate FillsWellFormed(mode: Mode) {
    mode.fills.Some? ==> forall name :: name in mode.fills.value ==> WellFormed(mode.fills.value[name])
  }

  /** Of unknown type are the holes only, and anything else can be read as its type. */
  ghost predicate Readable(v: Value) {
    if TypeOf(v) == Unknown then v.VHole? else CanRead(v, TypeOf(v))
  }

  ghost predicate OperandsReadable(vals: seq<Option<Value>>) {
    forall i :: 0 <= i < |vals| && vals[i].Some? ==> TypeOf(vals[i].value) == Bool && CanRead(vals[i].value, Bool)
  }

  lemma CoercedReadable(v: Value, t: Type, b: Build)
    requires Readable(v) && t != Unknown
    ensures var r := CoerceTo(Some(v), t, b).0; r.Some? ==> TypeOf(r.value) == t && CanRead(r.value, t)
  {
  }

  lemma PresentReadable(vals: seq<Option<Value>>)
    requires OperandsReadable(vals)
    ensures forall i :: 0 <= i < |Present(vals)| ==> TypeOf(Present(vals)[i]) == Bool && CanRead(Present(vals)[i], Bool)
  {
    if vals != [] {
      assert forall i :: 0 <= i < |vals[1..]| ==> vals[1..][i] == vals[i + 1];
      PresentReadable(vals[1..]);
    }
  }

  lemma GatheredReadable(vals: seq<Value>, conj: bool, fold: bool, b: Build)
    requires forall i :: 0 <= i < |vals| ==> TypeOf(vals[i]) == Bool && CanRead(vals[i], Bool)
    ensures var r := Gather(vals, conj, fold, b).0; r.Some? ==> TypeOf(r.value) == Bool && CanRead(r.value, Bool)
  {
    DecisiveIsConst(vals, !conj);
  }

  lemma RelatedReadable(op: Operator, l: Value, r: Value, b: Build)
    requires Readable(l) && Readable(r)
    ensures var v := Relate(op, l, r, b).0; v.Some? ==> TypeOf(v.value) == Bool && CanRead(v.value, Bool)
  {
    var t := CommonType(l, r);
    if t != Unknown {
      CoercedReadable(l, t, b);
      CoercedReadable(r, t, CoerceTo(Some(l), t, b).1);
    }
  }

  /** Whatever compiles can be read as its type: no getter of it panics in any state. */
  lemma {:induction false} CompiledReadable(c: Condition, mode: Mode, b: Build)
    requires WellFormed(c) && FillsWellFormed(mode)
    ensures var r := Compile(c, mode, b).0; r.Some? ==> Readable(r.value)
    decreases if mode.fills.Some? then 1 else 0, c, 0
  {
    match c
    case Lit(_) =>
    case Leaf(_, _) =>
    case Unresolved =>
    case And(all) =>
      AllCompiledReadable(all, mode, b);
      var (vals, b1) := CompileAll(all, mode, b);
      PresentReadable(vals);
      GatheredReadable(Present(vals), true, mode.fold, b1);
    case Or(any) =>
      AllCompiledReadable(any, mode, b);
      var (vals, b1) := CompileAll(any, mode, b);
      PresentReadable(vals);
      GatheredReadable(Present(vals), false, mode.fold, b1);
    case Not(inner) =>
      CompiledReadable(inner, mode, b);
      var (v, b1) := Compile(inner, mode, b);
      if v.Some? {
        CoercedReadable(v.value, Bool, b1);
      }
    case Compare(op, lhs, rhs) =>
      CompiledReadable(lhs, mode, b);
      var (l, b1) := Compile(lhs, mode, b);
      CompiledReadable(rhs, mode, b1);
      var (r, b2) := Compile(rhs, mode, b1);
      if l.Some? && r.Some? {
        RelatedReadable(op, l.value, r.value, b2);
      }
    case Hole(name) =>
      if mode.fills.Some? && name in mode.fills.value {
        CompiledReadable(mode.fills.value[name], mode.(fills := None), b);
      }
  }

  lemma {:induction false} AllCompiledReadable(cs: seq<Condition>, mode: Mode, b: Build)
    requires (forall i :: 0 <= i < |cs| ==> WellFormed(cs[i])) && FillsWellFormed(mode)
    ensures OperandsReadable(CompileAll(cs, mode, b).0)
    decreases if mode.fills.Some? then 1 else 0, cs, 0
  {
    if cs != [] {
      CompiledReadable(cs[0], mode, b);
      var (v0, b0) := Compile(cs[0], mode, b);
      if v0.Some? {
        CoercedReadable(v0.value, Bool, b0);
      }
      AllCompiledReadable(cs[1..], mode, CoerceTo(v0, Bool, b0).1);
    }
  }
}

/** What a compiled condition reads as, said without the compiler; where the nodes it constructs end up;
    and filling the holes of a compiled condition against compiling it filled. */
module ValueFacts {
  import opened Common
  import opened Values
  import opened ValueReadings

  type Fills = Option<map<string, Condition>>

  // ---------------------------------------------------------------- meaning of a condition

  function Raw(leaf: nat, typ: Type, state: State): Datum {
    match typ
    case Int => I(state.ints(leaf))
    case Float => F(state.floats(leaf))
    case Duration => D(state.durations(leaf))
    case String => S(state.strings(leaf))
    case Bool => B(state.bools(leaf))
    case Unknown => B(false)
  }

  /** A comparison of yes/no values for anything but equality. */
  predicate Rejected(op: Operator, s: Type, t: Type) {
    s != Unknown && t != Unknown && HigherOrder(s, t) == Bool && op != Eq && op != Ne
  }

  /** The type of a condition, if it resolves to a value at all. */
  ghost function Kind(c: Condition, fills: Fills): Option<Type>
    decreases if fills.Some? then 1 else 0, c
  {
    match c
    case Lit(lit) => Some(lit.typ)
    case Leaf(_, typ) => Some(typ)
    case Unresolved => None
    case And(all) => if exists i :: 0 <= i < |all| && Kind(all[i], fills).Some? then Some(Bool) else None
    case Or(any) => if exists i :: 0 <= i < |any| && Kind(any[i], fills).Some? then Some(Bool) else None
    case Not(inner) => if Kind(inner, fills).Some? then Some(Bool) else None
    case Compare(op, lhs, rhs) =>
      (match (Kind(lhs, fills), Kind(rhs, fills))
       case (Some(s), Some(t)) => if Rejected(op, s, t) then None else Some(Bool)
       case _ => None)
    case Hole(name) => if fills.Some? && name in fills.value then Kind(fills.value[name], None) else Some(Unknown)
  }

  /** What the condition reads as in a state.  And holds when every operand that resolves holds, Or when one
      does; a hole without a fill reads as zero, and a comparison whose left side is one does not hold. */
  ghost function Meaning(c: Condition, t: Type, fills: Fills, state: State): (x: Datum)
    requires t != Unknown
    ensures OfType(x, t)
    decreases if fills.Some? then 1 else 0, c, 0
  {
    match c
    case Lit(lit) => LiteralAs(lit, t)
    case Leaf(leaf, typ) => As(Raw(leaf, typ, state), t, state)
    case Unresolved => Blank(t)
    case And(all) => As(B(EveryHolds(all, fills, state)), t, state)
    case Or(any) => As(B(SomeHolds(any, fills, state)), t, state)
    case Not(inner) => As(B(!Meaning(inner, Bool, fills, state).b), t, state)
    case Compare(op, lhs, rhs) =>
      var u := SharedType(Kind(lhs, fills), Kind(rhs, fills));
      if u == Unknown then As(B(false), t, state)
      else As(B(Holds(op, Meaning(lhs, u, fills, state), Meaning(rhs, u, fills, state))), t, state)
    case Hole(name) => if fills.Some? && name in fills.value then Meaning(fills.value[name], t, None, state) else Blank(t)
  }

  ghost predicate EveryHolds(cs: seq<Condition>, fills: Fills, state: State)
    decreases if fills.Some? then 1 else 0, cs, 1
  {
    forall i :: 0 <= i < |cs| && Kind(cs[i], fills).Some? ==> Meaning(cs[i], Bool, fills, state).b
  }

  ghost predicate SomeHolds(cs: seq<Condition>, fills: Fills, state: State)
    decreases if fills.Some? then 1 else 0, cs, 1
  {
    exists i :: 0 <= i < |cs| && Kind(cs[i], fills).Some? && Meaning(cs[i], Bool, fills, state).b
  }

  /** The type both sides of a comparison are read as. */
  function SharedType(s: Option<Type>, t: Option<Type>): Type {
    match (s, t)
    case (Some(x), Some(y)) => if y == Unknown then x else if x == Unknown then Unknown else HigherOrder(x, y)
    case _ => Unknown
  }

  // ---------------------------------------------------------------- compiling keeps the meaning

  /** Reading a node once it has been coerced. */
  function ReadAs(v: Value, t: Type, state: State): Datum
    requires Readable(v) && t != Unknown && Priority(TypeOf(v)) <= Priority(t)
  {
    if TypeOf(v) == t then Read(v, t, state)
    else if v.VConst? then Constant(v.lit, t)
    else if TypeOf(v) == Unknown then Zero(t)
    else Convert(Read(v, TypeOf(v), state), t, state)
  }

  ghost predicate Means(v: Value, c: Condition, fills: Fills) {
    && Kind(c, fills) == Some(TypeOf(v))
    && Readable(v)
    && forall t, state :: t != Unknown && Priority(TypeOf(v)) <= Priority(t) ==> ReadAs(v, t, state) == Meaning(c, t, fills, state)
  }

  /** A node of the given type that reads in every state as the condition does. */
  ghost predicate MeansAs(v: Value, t: Type, c: Condition, fills: Fills)
    requires t != Unknown
  {
    TypeOf(v) == t && CanRead(v, t) && forall state :: Read(v, t, state) == Meaning(c, t, fills, state)
  }

  ghost predicate Compiled(v: Option<Value>, c: Condition, fills: Fills) {
    match v
    case None => Kind(c, fills).None?
    case Some(x) => Means(x, c, fills)
  }

  ghost predicate CompiledOperand(v: Option<Value>, c: Condition, fills: Fills) {
    match v
    case None => Kind(c, fills).None?
    case Some(x) => Kind(c, fills).Some? && MeansAs(x, Bool, c, fills)
  }

  ghost predicate CompiledOperands(vals: seq<Option<Value>>, cs: seq<Condition>, fills: Fills) {
    |vals| == |cs| && forall i :: 0 <= i < |cs| ==> CompiledOperand(vals[i], cs[i], fills)
  }

  lemma CoercedMeans(v: Value, t: Type, c: Condition, fills: Fills, b: Build)
    requires Means(v, c, fills) && t != Unknown && Priority(TypeOf(v)) <= Priority(t)
    ensures var r := CoerceTo(Some(v), t, b).0; r.Some? && MeansAs(r.value, t, c, fills)
  {
    var r := CoerceTo(Some(v), t, b).0;
    CoercedReadable(v, t, b);
    forall state ensures r.Some? && Read(r.value, t, state) == Meaning(c, t, fills, state) {
      assert ReadAs(v, t, state) == Meaning(c, t, fills, state);
    }
  }

  /** A yes/no node is read as nothing but a yes/no value. */
  lemma YesNoMeans(v: Value, c: Condition, fills: Fills)
    requires Kind(c, fills) == Some(Bool) && MeansAs(v, Bool, c, fills)
    ensures Means(v, c, fills)
  {
    forall t, state | t != Unknown && Priority(TypeOf(v)) <= Priority(t) ensures ReadAs(v, t, state) == Meaning(c, t, fills, state) {
      assert t == Bool;
    }
  }

  lemma {:induction false} PresentReads(vals: seq<Option<Value>>, state: State)
    requires OperandsReadable(vals)
    ensures forall i :: 0 <= i < |Present(vals)| ==> CanRead(Present(vals)[i], Bool)
    ensures AllTrue(Present(vals), state) <==> forall i :: 0 <= i < |vals| && vals[i].Some? ==> Read(vals[i].value, Bool, state).b
    ensures AnyTrue(Present(vals), state) <==> exists i :: 0 <= i < |vals| && vals[i].Some? && Read(vals[i].value, Bool, state).b
    ensures Present(vals) == [] <==> forall i :: 0 <= i < |vals| ==> vals[i].None?
  {
    PresentReadable(vals);
    if vals != [] {
      var rest := vals[1..];
      assert forall i :: 0 <= i < |rest| ==> rest[i] == vals[i + 1];
      PresentReads(rest, state);
      assert forall i :: 0 < i < |vals| ==> vals[i] == rest[i - 1];
      if vals[0].Some? {
        assert Present(vals)[0] == vals[0].value && Present(vals)[1..] == Present(rest);
      } else {
        assert Present(vals) == Present(rest);
      }
    }
  }

  /** What Gather builds from operands reads as their conjunction or disjunction, folded or not. */
  lemma GatheredReads(vals: seq<Value>, conj: bool, fold: bool, b: Build, state: State)
    requires forall i :: 0 <= i < |vals| ==> TypeOf(vals[i]) == Bool && CanRead(vals[i], Bool)
    ensures var r := Gather(vals, conj, fold, b).0;
            if vals == [] then r.None?
            else r.Some? && CanRead(r.value, Bool) && Read(r.value, Bool, state).b == (if conj then AllTrue(vals, state) else AnyTrue(vals, state))
  {
    DecisiveIsConst(vals, !conj);
    if |vals| > 1 && Decisive(vals, !conj).Some? {
      DecisiveDecides(vals, Decisive(vals, !conj).value, state);
    }
    if |vals| == 1 {
      assert vals[1..] == [];
      assert AllTrue(vals[1..], state) && !AnyTrue(vals[1..], state);
    }
  }

  lemma {:induction false} DecisiveDecides(vals: seq<Value>, k: nat, state: State)
    requires forall i :: 0 <= i < |vals| ==> CanRead(vals[i], Bool)
    requires k < |vals|
    ensures !Read(vals[k], Bool, state).b ==> !AllTrue(vals, state)
    ensures Read(vals[k], Bool, state).b ==> AnyTrue(vals, state)
  {
    if k > 0 {
      DecisiveDecides(vals[1..], k - 1, state);
    }
  }

  lemma OperandsAreReadable(ws: seq<Option<Value>>, cs: seq<Condition>, fills: Fills)
    requires CompiledOperands(ws, cs, fills)
    ensures OperandsReadable(ws)
  {
    forall i | 0 <= i < |ws| && ws[i].Some? ensures TypeOf(ws[i].value) == Bool && CanRead(ws[i].value, Bool) {
      assert CompiledOperand(ws[i], cs[i], fills);
    }
  }

  lemma GatheredMeans(vals: seq<Option<Value>>, cs: seq<Condition>, conj: bool, fold: bool, fills: Fills, b: Build)
    requires CompiledOperands(vals, cs, fills)
    ensures Compiled(Gather(Present(vals), conj, fold, b).0, if conj then And(cs) else Or(cs), fills)
  {
    var c := if conj then And(cs) else Or(cs);
    var r := Gather(Present(vals), conj, fold, b).0;
    hide Gather, Present, ReadAs, Compile, CompileAll, CoerceTo;
    OperandsAreReadable(vals, cs, fills);
    PresentReadable(vals);
    GatheredReadable(Present(vals), conj, fold, b);
    forall state: State ensures r.Some? ==> Read(r.value, Bool, state) == Meaning(c, Bool, fills, state) {
      PresentReads(vals, state);
      GatheredReads(Present(vals), conj, fold, b, state);
      OperandsHold(vals, cs, fills, state);
    }
    assert r.Some? <==> Kind(c, fills).Some? by {
      var state: State :| true;
      PresentReads(vals, state);
      GatheredReads(Present(vals), conj, fold, b, state);
      forall i | 0 <= i < |vals| ensures vals[i].Some? <==> Kind(cs[i], fills).Some? {
        assert CompiledOperand(vals[i], cs[i], fills);
      }
    }
    if r.Some? {
      YesNoMeans(r.value, c, fills);
    }
  }

  lemma OperandsHold(vals: seq<Option<Value>>, cs: seq<Condition>, fills: Fills, state: State)
    requires CompiledOperands(vals, cs, fills) && OperandsReadable(vals)
    ensures EveryHolds(cs, fills, state) <==> forall i :: 0 <= i < |vals| && vals[i].Some? ==> Read(vals[i].value, Bool, state).b
    ensures SomeHolds(cs, fills, state) <==> exists i :: 0 <= i < |vals| && vals[i].Some? && Read(vals[i].value, Bool, state).b
  {
    assert forall i :: 0 <= i < |vals| ==> CompiledOperand(vals[i], cs[i], fills);
    forall i | 0 <= i < |vals|
      ensures vals[i].Some? <==> Kind(cs[i], fills).Some?
      ensures vals[i].Some? ==> Read(vals[i].value, Bool, state) == Meaning(cs[i], Bool, fills, state)
    {
      assert CompiledOperand(vals[i], cs[i], fills);
    }
  }

  lemma ComparedMeans(id: nat, op: Operator, t: Type, l: Value, r: Value, lhs: Condition, rhs: Condition, fills: Fills)
    requires t != Unknown && MeansAs(l, t, lhs, fills) && MeansAs(r, t, rhs, fills)
    requires Kind(lhs, fills).Some? && Kind(rhs, fills).Some? && !Rejected(op, Kind(lhs, fills).value, Kind(rhs, fills).value)
    requires SharedType(Kind(lhs, fills), Kind(rhs, fills)) == t
    ensures Means(VCompare(id, op, l, r), Compare(op, lhs, rhs), fills)
  {
    var x := VCompare(id, op, l, r);
    forall state ensures Read(x, Bool, state) == Meaning(Compare(op, lhs, rhs), Bool, fills, state) {
      assert Read(l, t, state) == Meaning(lhs, t, fills, state);
      assert Read(r, t, state) == Meaning(rhs, t, fills, state);
      ComparedHolds(op, Read(l, t, state), Read(r, t, state));
    }
    YesNoMeans(x, Compare(op, lhs, rhs), fills);
  }

  lemma RelatedMeans(op: Operator, l: Value, r: Value, lhs: Condition, rhs: Condition, fills: Fills, b: Build)
    requires Means(l, lhs, fills) && Means(r, rhs, fills)
    ensures Compiled(Relate(op, l, r, b).0, Compare(op, lhs, rhs), fills)
  {
    if CommonType(l, r) == Unknown {
      RelatedWithHole(op, l, r, lhs, rhs, fills, b);
    } else {
      RelatedOfTypes(op, l, r, lhs, rhs, fills, b);
    }
  }

  lemma RelatedWithHole(op: Operator, l: Value, r: Value, lhs: Condition, rhs: Condition, fills: Fills, b: Build)
    requires Means(l, lhs, fills) && Means(r, rhs, fills) && CommonType(l, r) == Unknown
    ensures Compiled(Relate(op, l, r, b).0, Compare(op, lhs, rhs), fills)
  {
    hide Compile, Meaning, ReadAs;
    var c, v := Compare(op, lhs, rhs), VCompare(b.next, op, l, r);
    assert Relate(op, l, r, b).0 == Some(v);
    forall state ensures CanRead(v, Bool) && Read(v, Bool, state) == Meaning(c, Bool, fills, state) {
      HoleCompared(op, l, r, lhs, rhs, fills, b.next, state);
    }
    YesNoMeans(v, c, fills);
  }

  lemma HoleCompared(op: Operator, l: Value, r: Value, lhs: Condition, rhs: Condition, fills: Fills, id: nat, state: State)
    requires Means(l, lhs, fills) && Means(r, rhs, fills) && CommonType(l, r) == Unknown
    ensures var v := VCompare(id, op, l, r); CanRead(v, Bool) && Read(v, Bool, state) == Meaning(Compare(op, lhs, rhs), Bool, fills, state)
  {
    if !l.VHole? {
      assert ReadAs(l, TypeOf(l), state) == Meaning(lhs, TypeOf(l), fills, state);
      assert ReadAs(r, TypeOf(l), state) == Meaning(rhs, TypeOf(l), fills, state);
      ComparedHolds(op, Read(l, TypeOf(l), state), Read(r, TypeOf(l), state));
    }
  }

  lemma RelatedOfTypes(op: Operator, l: Value, r: Value, lhs: Condition, rhs: Condition, fills: Fills, b: Build)
    requires Means(l, lhs, fills) && Means(r, rhs, fills) && CommonType(l, r) != Unknown
    ensures Compiled(Relate(op, l, r, b).0, Compare(op, lhs, rhs), fills)
  {
    hide Meaning, Read, CanRead, ReadAs, Convert, Compile, CompileAll;
    var t := CommonType(l, r);
    CoercedMeans(l, t, lhs, fills, b);
    CoercedMeans(r, t, rhs, fills, CoerceTo(Some(l), t, b).1);
    var (l', r', b2) := SameType(l, r, b);
    if !Rejected(op, TypeOf(l), TypeOf(r)) {
      ComparedMeans(b2.next, op, t, l'.value, r'.value, lhs, rhs, fills);
    }
  }

  lemma NegatedMeans(v: Value, inner: Condition, fold: bool, fills: Fills, b: Build)
    requires Kind(inner, fills).Some? && MeansAs(v, Bool, inner, fills)
    ensures Compiled(Negate(v, fold, b).0, Not(inner), fills)
  {
    hide Compile, CompileAll;
    var r := Negate(v, fold, b).0.value;
    forall state ensures Read(r, Bool, state) == Meaning(Not(inner), Bool, fills, state) {
      assert Read(v, Bool, state) == Meaning(inner, Bool, fills, state);
    }
    YesNoMeans(r, Not(inner), fills);
  }

  lemma LeafMeans(c: Condition, v: Value, fills: Fills)
    requires WellFormed(c)
    requires (c.Lit? && v.VConst? && v.lit == c.lit) || (c.Leaf? && v.VLeaf? && v.leaf == c.leaf && v.typ == c.typ)
    ensures Means(v, c, fills)
  {
    forall t, state | t != Unknown && Priority(TypeOf(v)) <= Priority(t) ensures ReadAs(v, t, state) == Meaning(c, t, fills, state) {
    }
  }

  /** A condition compiles to a value exactly when it resolves, and that value has the condition's type and
      reads in every state as the condition means, whether or not constants are folded. */
  lemma {:induction false} CompiledMeans(c: Condition, mode: Mode, b: Build)
    requires WellFormed(c) && FillsWellFormed(mode)
    ensures Compiled(Compile(c, mode, b).0, c, mode.fills)
    decreases if mode.fills.Some? then 1 else 0, c, 0
  {
    match c
    case Lit(lit) => LeafMeans(c, Compile(c, mode, b).0.value, mode.fills);
    case Leaf(_, _) => LeafMeans(c, Compile(c, mode, b).0.value, mode.fills);
    case Unresolved =>
    case And(all) =>
      AllCompiledMean(all, mode, b);
      var (vals, b1) := CompileAll(all, mode, b);
      GatheredMeans(vals, all, true, mode.fold, mode.fills, b1);
    case Or(any) =>
      AllCompiledMean(any, mode, b);
      var (vals, b1) := CompileAll(any, mode, b);
      GatheredMeans(vals, any, false, mode.fold, mode.fills, b1);
    case Not(inner) =>
      CompiledMeans(inner, mode, b);
      var (v, b1) := Compile(inner, mode, b);
      if v.Some? {
        CoercedMeans(v.value, Bool, inner, mode.fills, b1);
        var (w, b2) := CoerceTo(v, Bool, b1);
        NegatedMeans(w.value, inner, mode.fold, mode.fills, b2);
      }
    case Compare(op, lhs, rhs) =>
      CompiledMeans(lhs, mode, b);
      var (l, b1) := Compile(lhs, mode, b);
      CompiledMeans(rhs, mode, b1);
      var (r, b2) := Compile(rhs, mode, b1);
      if l.Some? && r.Some? {
        RelatedMeans(op, l.value, r.value, lhs, rhs, mode.fills, b2);
      }
    case Hole(name) =>
      if mode.fills.Some? && name in mode.fills.value {
        var fill := mode.fills.value[name];
        CompiledMeans(fill, mode.(fills := None), b);
        var v := Compile(fill, mode.(fills := None), b).0;
        if v.Some? {
          forall t, state | t != Unknown && Priority(TypeOf(v.value)) <= Priority(t)
            ensures ReadAs(v.value, t, state) == Meaning(c, t, mode.fills, state)
          {
            assert ReadAs(v.value, t, state) == Meaning(fill, t, None, state);
          }
        }
      }
  }

  lemma {:induction false} AllCompiledMean(cs: seq<Condition>, mode: Mode, b: Build)
    requires (forall i :: 0 <= i < |cs| ==> WellFormed(cs[i])) && FillsWellFormed(mode)
    ensures CompiledOperands(CompileAll(cs, mode, b).0, cs, mode.fills)
    decreases if mode.fills.Some? then 1 else 0, cs, 0
  {
    if cs != [] {
      CompiledMeans(cs[0], mode, b);
      var (v0, b0) := Compile(cs[0], mode, b);
      if v0.Some? {
        CoercedMeans(v0.value, Bool, cs[0], mode.fills, b0);
      }
      var (v, b1) := CoerceTo(v0, Bool, b0);
      AllCompiledMean(cs[1..], mode, b1);
    }
  }

  /** Folding changes no reading: with and without it the same conditions compile, to values of one type that
      read the same in every state. */
  lemma FoldingPreserves(c: Condition, fills: Fills, b: Build, b': Build)
    requires WellFormed(c) && FillsWellFormed(Mode(true, fills))
    ensures var v := Compile(c, Mode(true, fills), b).0;
            var w := Compile(c, Mode(false, fills), b').0;
            && (v.Some? <==> w.Some?)
            && (v.Some? ==>
                  && TypeOf(v.value) == TypeOf(w.value)
                  && (TypeOf(v.value) != Unknown ==>
                        forall state :: CanRead(v.value, TypeOf(v.value)) && CanRead(w.value, TypeOf(v.value))
                                        && Read(v.value, TypeOf(v.value), state) == Read(w.value, TypeOf(v.value), state)))
  {
    CompiledMeans(c, Mode(true, fills), b);
    CompiledMeans(c, Mode(false, fills), b');
    var v := Compile(c, Mode(true, fills), b).0;
    var w := Compile(c, Mode(false, fills), b').0;
    if v.Some? && TypeOf(v.value) != Unknown {
      var t := TypeOf(v.value);
      forall state ensures Read(v.value, t, state) == Read(w.value, t, state) {
        assert ReadAs(v.value, t, state) == Meaning(c, t, fills, state);
        assert ReadAs(w.value, t, state) == Meaning(c, t, fills, state);
      }
    }
  }

  // ---------------------------------------------------------------- where constructed nodes end up

  function Count(s: seq<nat>, n: nat): nat {
    if s == [] then 0 else (if s[0] == n then 1 else 0) + Count(s[1..], n)
  }

  lemma {:induction false} CountJoins(s: seq<nat>, t: seq<nat>, n: nat)
    ensures Count(s + t, n) == Count(s, n) + Count(t, n)
  {
    if s == [] {
      assert s + t == t;
    } else {
      assert (s + t)[1..] == s[1..] + t;
      CountJoins(s[1..], t, n);
    }
  }

  /** How often node n is among those constructed and no longer part of any live tree. */
  function Gone(b: Build, n: nat): nat {
    Count(b.orphans, n) + Count(b.dropped, n)
  }

  /** Going from b to b', in which the nodes of before went into the construction: node n, if it was one of
      them or was constructed in between, is in the live tree or among those gone, once. */
  ghost predicate Accounts(b: Build, before: nat, b': Build, live: nat, n: nat) {
    b.next <= b'.next && live + Gone(b', n) == before + Gone(b, n) + (if b.next <= n < b'.next then 1 else 0)
  }

  function CountIn(v: Option<Value>, n: nat): nat {
    Count(Found(v), n)
  }

  lemma CountOne(v: Value, n: nat)
    ensures Count([v.id], n) == if v.id == n then 1 else 0
    ensures v.VConst? || v.VLeaf? || v.VHole? ==> Count(Nodes(v), n) == if v.id == n then 1 else 0
    ensures v.VCoerced? ==> Count(Nodes(v), n) == (if v.id == n then 1 else 0) + Count(Nodes(v.inner), n)
    ensures v.VAnd? || v.VOr? ==> Count(Nodes(v), n) == (if v.id == n then 1 else 0) + Count(NodesOf(v.vals), n)
    ensures v.VNot? ==> Count(Nodes(v), n) == (if v.id == n then 1 else 0) + Count(Nodes(v.val), n)
    ensures v.VCompare? ==> Count(Nodes(v), n) == (if v.id == n then 1 else 0) + Count(Nodes(v.lhs), n) + Count(Nodes(v.rhs), n)
  {
    assert [v.id][1..] == [];
    var below := Nodes(v)[1..];
    assert Nodes(v) == [v.id] + below;
    CountJoins([v.id], below, n);
    if v.VCompare? {
      CountJoins(Nodes(v.lhs), Nodes(v.rhs), n);
    }
  }

  lemma CoercionAccounts(v: Option<Value>, t: Type, b: Build, n: nat)
    ensures var (r, b') := CoerceTo(v, t, b); Accounts(b, CountIn(v, n), b', CountIn(r, n), n)
  {
    var (r, b') := CoerceTo(v, t, b);
    if v.Some? {
      CountOne(v.value, n);
      CountJoins(b.dropped, Nodes(v.value), n);
      CountJoins(b.dropped, [v.value.id], n);
      if r.Some? {
        CountOne(r.value, n);
      }
    }
  }

  lemma NegationAccounts(v: Value, fold: bool, b: Build, n: nat)
    ensures var (r, b') := Negate(v, fold, b); Accounts(b, Count(Nodes(v), n), b', CountIn(r, n), n)
  {
    CountOne(v, n);
    CountOne(Negate(v, fold, b).0.value, n);
  }

  lemma {:induction false} NodesOfJoin(vals: seq<Value>, more: seq<Value>)
    ensures NodesOf(vals + more) == NodesOf(vals) + NodesOf(more)
  {
    if vals == [] {
      assert vals + more == more;
    } else {
      assert (vals + more)[1..] == vals[1..] + more;
      NodesOfJoin(vals[1..], more);
    }
  }

  lemma NodesOfOne(v: Value)
    ensures NodesOf([v]) == Nodes(v)
  {
    assert [v][1..] == [];
  }

  lemma GatheringAccounts(vals: seq<Value>, conj: bool, fold: bool, b: Build, n: nat)
    ensures var (r, b') := Gather(vals, conj, fold, b); Accounts(b, Count(NodesOf(vals), n), b', CountIn(r, n), n)
  {
    DecisiveIsConst(vals, !conj);
    var (r, b') := Gather(vals, conj, fold, b);
    if |vals| == 1 {
      assert vals == [vals[0]];
      NodesOfOne(vals[0]);
    } else if |vals| > 1 && Decisive(vals, !conj).Some? && fold {
      var k := Decisive(vals, !conj).value;
      SplitCounts(vals, k, n);
      CountJoins(b.orphans, NodesOf(vals[..k]), n);
      CountJoins(b.orphans + NodesOf(vals[..k]), NodesOf(vals[k + 1..]), n);
    } else if |vals| > 1 {
      CountOne(r.value, n);
    }
  }

  lemma SplitCounts(vals: seq<Value>, k: nat, n: nat)
    requires k < |vals|
    ensures Count(NodesOf(vals), n) == Count(NodesOf(vals[..k]), n) + Count(Nodes(vals[k]), n) + Count(NodesOf(vals[k + 1..]), n)
  {
    assert vals == vals[..k] + [vals[k]] + vals[k + 1..];
    NodesOfJoin(vals[..k] + [vals[k]], vals[k + 1..]);
    NodesOfJoin(vals[..k], [vals[k]]);
    NodesOfOne(vals[k]);
    CountJoins(NodesOf(vals[..k]) + Nodes(vals[k]), NodesOf(vals[k + 1..]), n);
    CountJoins(NodesOf(vals[..k]), Nodes(vals[k]), n);
  }

  lemma AccountsJoin(b: Build, first: nat, b1: Build, first': nat, second: nat, b2: Build, second': nat, n: nat)
    requires Accounts(b, first, b1, first', n) && Accounts(b1, second, b2, second', n)
    ensures Accounts(b, first + second, b2, first' + second', n)
  {
  }

  lemma PairAccounts(l: Value, r: Value, b: Build, n: nat)
    ensures var (l', r', b') := SameType(l, r, b);
            Accounts(b, Count(Nodes(l), n) + Count(Nodes(r), n), b', CountIn(l', n) + CountIn(r', n), n)
  {
    hide CoerceTo, Nodes, Count, Gone, CommonType;
    var t := CommonType(l, r);
    if t != Unknown {
      CoercionAccounts(Some(l), t, b, n);
      var (l', b1) := CoerceTo(Some(l), t, b);
      CoercionAccounts(Some(r), t, b1, n);
      var (r', b2) := CoerceTo(Some(r), t, b1);
      AccountsJoin(b, CountIn(Some(l), n), b1, CountIn(l', n), CountIn(Some(r), n), b2, CountIn(r', n), n);
    }
  }

  lemma RelationAccounts(op: Operator, l: Value, r: Value, b: Build, n: nat)
    ensures var (v, b') := Relate(op, l, r, b); Accounts(b, Count(Nodes(l), n) + Count(Nodes(r), n), b', CountIn(v, n), n)
  {
    hide SameType, Nodes, Count, TypeOf;
    PairAccounts(l, r, b, n);
    var (l', r', b2) := SameType(l, r, b);
    CountJoins(b2.dropped, Nodes(l'.value), n);
    CountJoins(b2.dropped + Nodes(l'.value), Nodes(r'.value), n);
    CountOne(VCompare(b2.next, op, l'.value, r'.value), n);
    CountBare([], n);
  }

  lemma CountBare(s: seq<nat>, n: nat)
    ensures s == [] ==> Count(s, n) == 0
    ensures |s| == 1 ==> Count(s, n) == if s[0] == n then 1 else 0
  {
    if |s| == 1 {
      assert s[1..] == [];
    }
  }

  function FoundAll(vals: seq<Option<Value>>): seq<nat> {
    NodesOf(Present(vals))
  }

  lemma ComparisonAccounts(op: Operator, l: Option<Value>, r: Option<Value>, b: Build, n: nat)
    ensures l.Some? && r.Some? ==>
              var (v, b') := Relate(op, l.value, r.value, b); Accounts(b, CountIn(l, n) + CountIn(r, n), b', CountIn(v, n), n)
    ensures Accounts(b, CountIn(l, n) + CountIn(r, n), b.(dropped := b.dropped + Found(l) + Found(r)), 0, n)
  {
    if l.Some? && r.Some? {
      RelationAccounts(op, l.value, r.value, b, n);
    }
    CountJoins(b.dropped, Found(l), n);
    CountJoins(b.dropped + Found(l), Found(r), n);
  }

  /** Every node a compilation constructs is, once, in the tree it returns, among the orphans or among the
      nodes given up, and nothing else is added to those. */
  lemma {:induction false} CompilationAccounts(c: Condition, mode: Mode, b: Build, n: nat)
    ensures var (v, b') := Compile(c, mode, b); Accounts(b, 0, b', CountIn(v, n), n)
    decreases if mode.fills.Some? then 1 else 0, c, 0
  {
    hide Gather, Negate, Relate, CoerceTo, Nodes, NodesOf, Count;
    var (v, b') := Compile(c, mode, b);
    CountBare([], n);
    match c
    case Lit(_) => CountOne(v.value, n);
    case Leaf(_, _) => CountOne(v.value, n);
    case Unresolved =>
    case And(all) =>
      AllCompilationsAccount(all, mode, b, n);
      var (vals, b1) := CompileAll(all, mode, b);
      GatheringAccounts(Present(vals), true, mode.fold, b1, n);
    case Or(any) =>
      AllCompilationsAccount(any, mode, b, n);
      var (vals, b1) := CompileAll(any, mode, b);
      GatheringAccounts(Present(vals), false, mode.fold, b1, n);
    case Not(inner) =>
      CompilationAccounts(inner, mode, b, n);
      var (v0, b0) := Compile(inner, mode, b);
      CoercionAccounts(v0, Bool, b0, n);
      var (v1, b1) := CoerceTo(v0, Bool, b0);
      if v1.Some? {
        NegationAccounts(v1.value, mode.fold, b1, n);
      }
    case Compare(op, lhs, rhs) =>
      CompilationAccounts(lhs, mode, b, n);
      var (l, b1) := Compile(lhs, mode, b);
      CompilationAccounts(rhs, mode, b1, n);
      var (r, b2) := Compile(rhs, mode, b1);
      ComparisonAccounts(op, l, r, b2, n);
    case Hole(name) =>
      if mode.fills.Some? && name in mode.fills.value {
        CompilationAccounts(mode.fills.value[name], mode.(fills := None), b, n);
      } else {
        CountOne(v.value, n);
      }
  }

  lemma {:induction false} AllCompilationsAccount(cs: seq<Condition>, mode: Mode, b: Build, n: nat)
    ensures var (vals, b') := CompileAll(cs, mode, b); Accounts(b, 0, b', Count(FoundAll(vals), n), n)
    decreases if mode.fills.Some? then 1 else 0, cs, 0
  {
    if cs != [] {
      CompilationAccounts(cs[0], mode, b, n);
      var (v0, b0) := Compile(cs[0], mode, b);
      CoercionAccounts(v0, Bool, b0, n);
      var (v, b1) := CoerceTo(v0, Bool, b0);
      AllCompilationsAccount(cs[1..], mode, b1, n);
      var rest := CompileAll(cs[1..], mode, b1).0;
      FoundFirst(v, rest, n);
    }
  }

  lemma FoundFirst(v: Option<Value>, rest: seq<Option<Value>>, n: nat)
    ensures Count(FoundAll([v] + rest), n) == CountIn(v, n) + Count(FoundAll(rest), n)
  {
    assert ([v] + rest)[1..] == rest;
    if v.Some? {
      NodesOfJoin([v.value], Present(rest));
      NodesOfOne(v.value);
      CountJoins(Nodes(v.value), FoundAll(rest), n);
    } else {
      assert Present([v] + rest) == [] + Present(rest) == Present(rest);
    }
  }

  /** A compilation that starts from nothing partitions the nodes it constructs: each is in the tree it
      returns, among the orphans or among the nodes given up, exactly once. */
  lemma EveryNodeOnce(c: Condition, mode: Mode, n: nat)
    ensures var (v, b) := Compile(c, mode, Build(0, [], []));
            CountIn(v, n) + Count(b.orphans, n) + Count(b.dropped, n) == (if n < b.next then 1 else 0)
  {
    CompilationAccounts(c, mode, Build(0, [], []), n);
  }

  // ---- when nothing is given up

  /** Reading the condition as the type would copy a constant. */
  ghost predicate Retyped(c: Condition, t: Type, fills: Fills) {
    match c
    case Lit(lit) => lit.typ != t
    case Hole(name) => fills.Some? && name in fills.value && fills.value[name].Lit? && fills.value[name].lit.typ != t
    case _ => false
  }

  /** No constant is read as another type, and both sides of a comparison resolve, to comparable values. */
  ghost predicate KeepsAll(c: Condition, fills: Fills)
    decreases if fills.Some? then 1 else 0, c
  {
    match c
    case And(all) => forall i :: 0 <= i < |all| ==> KeepsAll(all[i], fills) && !Retyped(all[i], Bool, fills)
    case Or(any) => forall i :: 0 <= i < |any| ==> KeepsAll(any[i], fills) && !Retyped(any[i], Bool, fills)
    case Not(inner) => KeepsAll(inner, fills) && !Retyped(inner, Bool, fills)
    case Compare(op, lhs, rhs) =>
      && KeepsAll(lhs, fills) && KeepsAll(rhs, fills)
      && (match (Kind(lhs, fills), Kind(rhs, fills))
          case (Some(s), Some(t)) =>
            && !Rejected(op, s, t)
            && (s != Unknown && t != Unknown ==> !Retyped(lhs, HigherOrder(s, t), fills) && !Retyped(rhs, HigherOrder(s, t), fills))
          case (None, None) => true
          case _ => false)
    case Hole(name) => fills.Some? && name in fills.value ==> KeepsAll(fills.value[name], None)
    case _ => true
  }

  lemma CoercionKeeps(v: Value, t: Type, b: Build)
    requires t != Unknown && Priority(TypeOf(v)) <= Priority(t)
    ensures var b' := CoerceTo(Some(v), t, b).1;
            b.dropped <= b'.dropped && (|b'.dropped| == |b.dropped| <==> !(v.VConst? && TypeOf(v) != t))
  {
  }

  /** The constants that are copied when read as another type are the literals of another type. */
  lemma RetypedIsCopied(c: Condition, t: Type, mode: Mode, b: Build)
    requires WellFormed(c) && FillsWellFormed(mode)
    ensures var v := Compile(c, mode, b).0;
            v.Some? && t != Unknown && Priority(TypeOf(v.value)) <= Priority(t) ==>
              (Retyped(c, t, mode.fills) <==> v.value.VConst? && TypeOf(v.value) != t)
    decreases if mode.fills.Some? then 1 else 0
  {
    CompiledMeans(c, mode, b);
    if c.Hole? && mode.fills.Some? && c.name in mode.fills.value {
      RetypedIsCopied(mode.fills.value[c.name], t, mode.(fills := None), b);
      assert !mode.fills.value[c.name].Lit? ==> !Retyped(mode.fills.value[c.name], t, None);
    }
  }

  lemma RelationKeeps(op: Operator, l: Value, r: Value, b: Build)
    requires Readable(l) && Readable(r)
    ensures var b' := Relate(op, l, r, b).1;
            var t := CommonType(l, r);
            && b.dropped <= b'.dropped
            && (|b'.dropped| == |b.dropped| <==>
                  && !Rejected(op, TypeOf(l), TypeOf(r))
                  && (t != Unknown ==> !(l.VConst? && TypeOf(l) != t) && !(r.VConst? && TypeOf(r) != t)))
  {
    var t := CommonType(l, r);
    if t != Unknown {
      CoercionKeeps(l, t, b);
      CoercionKeeps(r, t, CoerceTo(Some(l), t, b).1);
    }
    var (l', r', b2) := SameType(l, r, b);
    assert TypeOf(l'.value) == (if t == Unknown then TypeOf(l) else t);
    assert TypeOf(r'.value) == (if t == Unknown then TypeOf(r) else t);
    assert |Nodes(l'.value)| >= 1;
  }

  /** Nodes are given up exactly when a constant is read as another type or a comparison does not resolve. */
  lemma {:induction false} NothingGivenUp(c: Condition, mode: Mode, b: Build)
    requires WellFormed(c) && FillsWellFormed(mode)
    ensures var b' := Compile(c, mode, b).1;
            b.dropped <= b'.dropped && (|b'.dropped| == |b.dropped| <==> KeepsAll(c, mode.fills))
    decreases if mode.fills.Some? then 1 else 0, c, 1
  {
    hide Meaning, ReadAs, Relate, Nodes, Kind;
    match c
    case And(all) => NothingGivenUpInAll(all, mode, b);
    case Or(any) => NothingGivenUpInAll(any, mode, b);
    case Not(inner) => NothingGivenUpNegating(c, inner, mode, b);
    case Compare(op, lhs, rhs) => NothingGivenUpComparing(c, op, lhs, rhs, mode, b);
    case Hole(name) =>
      if mode.fills.Some? && name in mode.fills.value {
        NothingGivenUp(mode.fills.value[name], mode.(fills := None), b);
      }
    case _ =>
  }

  lemma {:induction false} NothingGivenUpNegating(c: Condition, inner: Condition, mode: Mode, b: Build)
    requires c == Not(inner) && WellFormed(c) && FillsWellFormed(mode)
    ensures var b' := Compile(c, mode, b).1;
            b.dropped <= b'.dropped && (|b'.dropped| == |b.dropped| <==> KeepsAll(c, mode.fills))
    decreases if mode.fills.Some? then 1 else 0, c, 0
  {
    hide Meaning, ReadAs, Relate, Nodes, Kind;
    NothingGivenUp(inner, mode, b);
    CompiledMeans(inner, mode, b);
    RetypedIsCopied(inner, Bool, mode, b);
    var (v, b0) := Compile(inner, mode, b);
    if v.Some? {
      CoercionKeeps(v.value, Bool, b0);
    }
  }

  lemma {:induction false} NothingGivenUpInAll(cs: seq<Condition>, mode: Mode, b: Build)
    requires (forall i :: 0 <= i < |cs| ==> WellFormed(cs[i])) && FillsWellFormed(mode)
    ensures var b' := CompileAll(cs, mode, b).1;
            && b.dropped <= b'.dropped
            && (|b'.dropped| == |b.dropped| <==> forall i :: 0 <= i < |cs| ==> KeepsAll(cs[i], mode.fills) && !Retyped(cs[i], Bool, mode.fills))
    decreases if mode.fills.Some? then 1 else 0, cs, 0
  {
    if cs != [] {
      NothingGivenUp(cs[0], mode, b);
      CompiledMeans(cs[0], mode, b);
      RetypedIsCopied(cs[0], Bool, mode, b);
      var (v0, b0) := Compile(cs[0], mode, b);
      if v0.Some? {
        CoercionKeeps(v0.value, Bool, b0);
      }
      assert v0.None? ==> !Retyped(cs[0], Bool, mode.fills);
      var (v, b1) := CoerceTo(v0, Bool, b0);
      NothingGivenUpInAll(cs[1..], mode, b1);
      assert forall i :: 1 <= i < |cs| ==> cs[i] == cs[1..][i - 1];
    }
  }

  lemma ComparisonKeeps(op: Operator, l: Option<Value>, r: Option<Value>, b: Build)
    requires (l.Some? ==> Readable(l.value)) && (r.Some? ==> Readable(r.value))
    ensures var b' := if l.Some? && r.Some? then Relate(op, l.value, r.value, b).1 else b.(dropped := b.dropped + Found(l) + Found(r));
            && b.dropped <= b'.dropped
            && (|b'.dropped| == |b.dropped| <==> if l.Some? && r.Some? then KeptTogether(op, l.value, r.value) else l.None? && r.None?)
  {
    if l.Some? && r.Some? {
      RelationKeeps(op, l.value, r.value, b);
    } else {
      assert l.Some? ==> |Found(l)| > 0;
      assert r.Some? ==> |Found(r)| > 0;
    }
  }

  /** The comparison is not rejected and copies no constant. */
  ghost predicate KeptTogether(op: Operator, l: Value, r: Value) {
    var t := CommonType(l, r);
    !Rejected(op, TypeOf(l), TypeOf(r)) && (t != Unknown ==> !(l.VConst? && TypeOf(l) != t) && !(r.VConst? && TypeOf(r) != t))
  }

  lemma {:induction false} NothingGivenUpComparing(c: Condition, op: Operator, lhs: Condition, rhs: Condition, mode: Mode, b: Build)
    requires c == Compare(op, lhs, rhs) && WellFormed(c) && FillsWellFormed(mode)
    ensures var b' := Compile(c, mode, b).1;
            b.dropped <= b'.dropped && (|b'.dropped| == |b.dropped| <==> KeepsAll(c, mode.fills))
    decreases if mode.fills.Some? then 1 else 0, c, 0
  {
    hide Meaning, ReadAs, Relate, Nodes, Kind, Retyped;
    NothingGivenUp(lhs, mode, b);
    CompiledMeans(lhs, mode, b);
    var (l, b1) := Compile(lhs, mode, b);
    NothingGivenUp(rhs, mode, b1);
    CompiledMeans(rhs, mode, b1);
    var (r, b2) := Compile(rhs, mode, b1);
    ComparisonKeeps(op, l, r, b2);
    if l.Some? && r.Some? {
      var t := CommonType(l.value, r.value);
      RetypedIsCopied(lhs, t, mode, b);
      RetypedIsCopied(rhs, t, mode, b1);
    }
  }

  // ---------------------------------------------------------------- filling against compiling filled

  /** A literal that reads as zero although its text is not empty. */
  predicate ZeroNumber(c: Condition) {
    c.Lit? && match c.lit.typ
              case Int => c.lit.i == 0
              case Float => c.lit.f == 0.0
              case Duration => c.lit.d == 0
              case _ => false
  }

  ghost predicate FillsClosed(fills: map<string, Condition>) {
    forall name :: name in fills ==> WellFormed(fills[name]) && Kind(fills[name], None).Some? && Kind(fills[name], None) != Some(Unknown)
  }

  /** The wrapper's yes/no reading of a compiled fill is the fill's own exactly when the fill is not a zero:
      the constant's own yes/no reading is that of its text. */
  lemma WrappedFill(fill: Condition, v: Value, state: State)
    requires WellFormed(fill) && Means(v, fill, None) && TypeOf(v) != Unknown
    requires v.VConst? && TypeOf(v) != Bool ==> fill == Lit(v.lit)
    requires fill.Lit? ==> v.VConst? && v.lit == fill.lit
    ensures Convert(Read(v, TypeOf(v), state), Bool, state) == Meaning(fill, Bool, None, state) <==> !ZeroNumber(fill)
  {
    assert ReadAs(v, Bool, state) == Meaning(fill, Bool, None, state);
  }

  /** Filled after parsing: a zero does not stand directly under And, Or or Not, and no comparison is one that
      would have been rejected had it been parsed filled. */
  ghost predicate Fillable(c: Condition, fills: map<string, Condition>)
    decreases c
  {
    match c
    case And(all) => forall i :: 0 <= i < |all| ==> Fillable(all[i], fills) && !ZeroFilled(all[i], fills)
    case Or(any) => forall i :: 0 <= i < |any| ==> Fillable(any[i], fills) && !ZeroFilled(any[i], fills)
    case Not(inner) => Fillable(inner, fills) && !ZeroFilled(inner, fills)
    case Compare(op, lhs, rhs) =>
      && Fillable(lhs, fills) && Fillable(rhs, fills)
      && (match (Kind(lhs, Some(fills)), Kind(rhs, Some(fills))) case (Some(s), Some(t)) => !Rejected(op, s, t) case _ => true)
    case _ => true
  }

  predicate ZeroFilled(c: Condition, fills: map<string, Condition>) {
    c.Hole? && c.name in fills && ZeroNumber(fills[c.name])
  }

  /** Whatever is not a yes/no value is a constant, a leaf or a hole. */
  ghost predicate Plain(v: Value) {
    TypeOf(v) == Bool || v.VConst? || v.VLeaf? || v.VHole?
  }

  lemma CompiledPlain(c: Condition, mode: Mode, b: Build)
    requires WellFormed(c) && FillsWellFormed(mode)
    ensures var v := Compile(c, mode, b).0; v.Some? ==> Plain(v.value)
    ensures var v := Compile(c, mode, b).0; c.Lit? ==> v.value.VConst? && v.value.lit == c.lit
    ensures var v := Compile(c, mode, b).0; mode.fills.None? && v.Some? && v.value.VConst? && TypeOf(v.value) != Bool ==> c == Lit(v.value.lit)
    ensures var v := Compile(c, mode, b).0; mode.fills.None? && v.Some? && v.value.VHole? ==> c == Hole(v.value.name)
    ensures var v := Compile(c, mode, b).0; mode.fills.None? && c.Hole? ==> v.Some? && v.value.VHole? && v.value.name == c.name
    decreases if mode.fills.Some? then 1 else 0
  {
    CompiledMeans(c, mode, b);
    if c.Hole? && mode.fills.Some? && c.name in mode.fills.value {
      CompiledPlain(mode.fills.value[c.name], mode.(fills := None), b);
    }
  }

  ghost predicate FilledMeans(v: Option<Value>, c: Condition, fills: map<string, Condition>) {
    match v
    case None => Kind(c, Some(fills)).None?
    case Some(x) => Means(Replace(x, fills), c, Some(fills))
  }

  /** Coercing first and filling then, for a value that is not a hole itself. */
  lemma FilledCoercion(v: Value, t: Type, c: Condition, fills: map<string, Condition>, b: Build)
    requires Plain(v) && !v.VHole? && Means(Replace(v, fills), c, Some(fills))
    requires t != Unknown && Priority(TypeOf(v)) <= Priority(t)
    ensures var r := CoerceTo(Some(v), t, b).0; r.Some? && MeansAs(Replace(r.value, fills), t, c, Some(fills))
    ensures TypeOf(Replace(v, fills)) == TypeOf(v)
  {
    CoercedMeans(Replace(v, fills), t, c, Some(fills), b);
  }

  lemma FilledHole(v: Value, name: string, fills: map<string, Condition>)
    requires v.VHole? && v.name == name && FillsClosed(fills)
    ensures Means(Replace(v, fills), Hole(name), Some(fills))
  {
    if name in fills {
      var fill, b := fills[name], Build(0, [], []);
      CompiledMeans(fill, Mode(true, None), b);
      var x := Compile(fill, Mode(true, None), b).0.value;
      forall t, state | t != Unknown && Priority(TypeOf(x)) <= Priority(t)
        ensures ReadAs(x, t, state) == Meaning(Hole(name), t, Some(fills), state)
      {
        assert ReadAs(x, t, state) == Meaning(fill, t, None, state);
      }
    }
  }

  /** A hole wrapped to be read as a yes/no value reads as its fill does, unless that is a zero. */
  lemma FilledWrapper(v: Value, name: string, fills: map<string, Condition>, id: nat)
    requires v.VHole? && v.name == name && FillsClosed(fills) && !ZeroFilled(Hole(name), fills)
    ensures MeansAs(Replace(VCoerced(id, Bool, v), fills), Bool, Hole(name), Some(fills))
  {
    if name in fills {
      var fill, b := fills[name], Build(0, [], []);
      CompiledMeans(fill, Mode(true, None), b);
      CompiledPlain(fill, Mode(true, None), b);
      var x := Compile(fill, Mode(true, None), b).0.value;
      forall state ensures Convert(Read(x, TypeOf(x), state), Bool, state) == Meaning(Hole(name), Bool, Some(fills), state) {
        WrappedFill(fill, x, state);
      }
    }
  }

  lemma FilledOperand(c: Condition, fills: map<string, Condition>, b: Build, b': Build)
    requires WellFormed(c) && FillsClosed(fills) && !ZeroFilled(c, fills)
    requires FilledMeans(Compile(c, Mode(true, None), b).0, c, fills)
    ensures var v := CoerceTo(Compile(c, Mode(true, None), b).0, Bool, b').0;
            CompiledOperand(Replaced(v, fills), c, Some(fills))
  {
    CompiledPlain(c, Mode(true, None), b);
    var v := Compile(c, Mode(true, None), b).0;
    if v.Some? {
      if v.value.VHole? {
        FilledWrapper(v.value, c.name, fills, b'.next);
      } else {
        FilledCoercion(v.value, Bool, c, fills, b');
      }
    }
  }

  function Replaced(v: Option<Value>, fills: map<string, Condition>): Option<Value> {
    match v case None => None case Some(x) => Some(Replace(x, fills))
  }

  function AllReplaced(vals: seq<Option<Value>>, fills: map<string, Condition>): (r: seq<Option<Value>>)
    ensures |r| == |vals| && forall i :: 0 <= i < |vals| ==> r[i] == Replaced(vals[i], fills)
  {
    seq(|vals|, i requires 0 <= i < |vals| => Replaced(vals[i], fills))
  }

  lemma {:induction false} PresentReplaced(vals: seq<Option<Value>>, fills: map<string, Condition>)
    ensures Present(AllReplaced(vals, fills)) == ReplaceAll(Present(vals), fills)
  {
    if vals != [] {
      assert AllReplaced(vals, fills)[1..] == AllReplaced(vals[1..], fills);
      PresentReplaced(vals[1..], fills);
      if vals[0].Some? {
        assert Present(vals)[1..] == Present(vals[1..]);
      } else {
        assert Present(vals) == Present(vals[1..]);
        assert Present(AllReplaced(vals, fills)) == Present(AllReplaced(vals[1..], fills));
      }
    }
  }

  lemma {:induction false} ReplaceAllAt(vals: seq<Value>, fills: map<string, Condition>)
    ensures |ReplaceAll(vals, fills)| == |vals| && forall i :: 0 <= i < |vals| ==> ReplaceAll(vals, fills)[i] == Replace(vals[i], fills)
  {
    if vals != [] {
      ReplaceAllAt(vals[1..], fills);
    }
  }

  /** Filling what was gathered reads as gathering what was filled, although only the former is folded. */
  lemma FilledGathering(vals: seq<Value>, conj: bool, fills: map<string, Condition>, b: Build, state: State)
    requires vals != [] && |ReplaceAll(vals, fills)| == |vals|
    requires forall i :: 0 <= i < |vals| ==> ReplaceAll(vals, fills)[i] == Replace(vals[i], fills)
    requires forall i :: 0 <= i < |vals| ==> TypeOf(ReplaceAll(vals, fills)[i]) == Bool && CanRead(ReplaceAll(vals, fills)[i], Bool)
    ensures var r := Replace(Gather(vals, conj, true, b).0.value, fills);
            && TypeOf(r) == Bool && CanRead(r, Bool)
            && Read(r, Bool, state).b == (if conj then AllTrue(ReplaceAll(vals, fills), state) else AnyTrue(ReplaceAll(vals, fills), state))
  {
    DecisiveIsConst(vals, !conj);
    var ws := ReplaceAll(vals, fills);
    if |vals| == 1 {
      assert ws[1..] == [];
      assert AllTrue(ws[1..], state) && !AnyTrue(ws[1..], state);
    } else if Decisive(vals, !conj).Some? {
      DecisiveDecides(ws, Decisive(vals, !conj).value, state);
    }
  }

  lemma FilledGathered(vals: seq<Option<Value>>, cs: seq<Condition>, conj: bool, fills: map<string, Condition>, b: Build)
    requires CompiledOperands(AllReplaced(vals, fills), cs, Some(fills))
    ensures FilledMeans(Gather(Present(vals), conj, true, b).0, if conj then And(cs) else Or(cs), fills)
  {
    var c := if conj then And(cs) else Or(cs);
    var ws := AllReplaced(vals, fills);
    var v := Gather(Present(vals), conj, true, b).0;
    var w := Gather(Present(ws), conj, false, b).0;
    GatheredMeans(ws, cs, conj, false, Some(fills), b);
    OperandsAreReadable(ws, cs, Some(fills));
    PresentReadable(ws);
    PresentReplaced(vals, fills);
    ReplaceAllAt(Present(vals), fills);
    DecisiveIsConst(Present(vals), !conj);
    if v.Some? {
      GatheredSame(Present(vals), conj, fills, b, c);
    }
  }

  lemma GatheredSame(vals: seq<Value>, conj: bool, fills: map<string, Condition>, b: Build, c: Condition)
    requires vals != [] && |ReplaceAll(vals, fills)| == |vals|
    requires forall i :: 0 <= i < |vals| ==> ReplaceAll(vals, fills)[i] == Replace(vals[i], fills)
    requires forall i :: 0 <= i < |vals| ==> TypeOf(ReplaceAll(vals, fills)[i]) == Bool && CanRead(ReplaceAll(vals, fills)[i], Bool)
    requires Compiled(Gather(ReplaceAll(vals, fills), conj, false, b).0, c, Some(fills))
    ensures Gather(vals, conj, true, b).0.Some? && Means(Replace(Gather(vals, conj, true, b).0.value, fills), c, Some(fills))
  {
    hide Meaning, Kind, Compile;
    DecisiveIsConst(vals, !conj);
    var ws := ReplaceAll(vals, fills);
    GatheredReadable(ws, conj, false, b);
    var r, w := Replace(Gather(vals, conj, true, b).0.value, fills), Gather(ws, conj, false, b).0.value;
    forall state: State ensures TypeOf(r) == Bool && CanRead(r, Bool) && Read(r, Bool, state) == Meaning(c, Bool, Some(fills), state) {
      FilledGathering(vals, conj, fills, b, state);
      GatheredReads(ws, conj, false, b, state);
      assert ReadAs(w, Bool, state) == Meaning(c, Bool, Some(fills), state);
    }
    assert TypeOf(r) == Bool && CanRead(r, Bool) by {
      var state: State :| true;
      FilledGathering(vals, conj, fills, b, state);
    }
    YesNoMeans(r, c, Some(fills));
  }

  lemma FilledRelation(op: Operator, l: Value, r: Value, lhs: Condition, rhs: Condition, fills: map<string, Condition>, b: Build)
    requires Plain(l) && Plain(r) && Readable(l) && Readable(r)
    requires Means(Replace(l, fills), lhs, Some(fills)) && Means(Replace(r, fills), rhs, Some(fills))
    requires !Rejected(op, TypeOf(Replace(l, fills)), TypeOf(Replace(r, fills)))
    ensures FilledMeans(Relate(op, l, r, b).0, Compare(op, lhs, rhs), fills)
  {
    if CommonType(l, r) == Unknown {
      FilledRelationOfHole(op, l, r, lhs, rhs, fills, b);
    } else {
      FilledRelationOfTypes(op, l, r, lhs, rhs, fills, b);
    }
  }

  lemma FilledRelationOfHole(op: Operator, l: Value, r: Value, lhs: Condition, rhs: Condition, fills: map<string, Condition>, b: Build)
    requires Readable(l) && Readable(r) && CommonType(l, r) == Unknown
    requires Means(Replace(l, fills), lhs, Some(fills)) && Means(Replace(r, fills), rhs, Some(fills))
    requires !Rejected(op, TypeOf(Replace(l, fills)), TypeOf(Replace(r, fills)))
    ensures FilledMeans(Relate(op, l, r, b).0, Compare(op, lhs, rhs), fills)
  {
    hide Kind, Meaning, ReadAs, Convert;
    var c, start := Compare(op, lhs, rhs), Build(0, [], []);
    var l', r' := Replace(l, fills), Replace(r, fills);
    RelatedMeans(op, l', r', lhs, rhs, Some(fills), start);
    assert Relate(op, l', r', start).0.Some? by { RelatedSome(op, l', r', start); }
    var w := Relate(op, l', r', start).0.value;
    var v := VCompare(b.next, op, l, r);
    assert Relate(op, l, r, b).0 == Some(v);
    var x := Replace(v, fills);
    assert x == VCompare(b.next, w.op, w.lhs, w.rhs);
    Renumbered(w, b.next, c, Some(fills));
  }

  lemma RelatedSome(op: Operator, l: Value, r: Value, b: Build)
    requires Readable(l) && Readable(r) && !Rejected(op, TypeOf(l), TypeOf(r))
    ensures Relate(op, l, r, b).0.Some?
  {
    var t := CommonType(l, r);
    if t != Unknown {
      CoercionKeeps(l, t, b);
      CoercedReadable(l, t, b);
    }
  }

  /** The number of a node plays no part in what it means. */
  lemma Renumbered(w: Value, id: nat, c: Condition, fills: Fills)
    requires w.VCompare? && Means(w, c, fills)
    ensures Means(VCompare(id, w.op, w.lhs, w.rhs), c, fills)
  {
    var x := VCompare(id, w.op, w.lhs, w.rhs);
    forall t, state | t != Unknown && Priority(TypeOf(x)) <= Priority(t) ensures ReadAs(x, t, state) == Meaning(c, t, fills, state) {
      assert ReadAs(w, t, state) == Meaning(c, t, fills, state);
    }
  }

  /** Coercing both operands first and filling then. */
  lemma FilledPair(l: Value, r: Value, lhs: Condition, rhs: Condition, fills: map<string, Condition>, b: Build)
    requires Plain(l) && Plain(r) && CommonType(l, r) != Unknown
    requires Means(Replace(l, fills), lhs, Some(fills)) && Means(Replace(r, fills), rhs, Some(fills))
    ensures var t := CommonType(l, r);
            var (l1, r1, _) := SameType(l, r, b);
            && TypeOf(l1.value) == t && MeansAs(Replace(l1.value, fills), t, lhs, Some(fills))
            && TypeOf(r1.value) == t && MeansAs(Replace(r1.value, fills), t, rhs, Some(fills))
            && TypeOf(Replace(l, fills)) == TypeOf(l) && TypeOf(Replace(r, fills)) == TypeOf(r)
  {
    hide Means, MeansAs, Replace;
    var t := CommonType(l, r);
    FilledCoercion(l, t, lhs, fills, b);
    FilledCoercion(r, t, rhs, fills, CoerceTo(Some(l), t, b).1);
  }

  lemma FilledRelationOfTypes(op: Operator, l: Value, r: Value, lhs: Condition, rhs: Condition, fills: map<string, Condition>, b: Build)
    requires Plain(l) && Plain(r) && Readable(l) && Readable(r) && CommonType(l, r) != Unknown
    requires Means(Replace(l, fills), lhs, Some(fills)) && Means(Replace(r, fills), rhs, Some(fills))
    requires !Rejected(op, TypeOf(Replace(l, fills)), TypeOf(Replace(r, fills)))
    ensures FilledMeans(Relate(op, l, r, b).0, Compare(op, lhs, rhs), fills)
  {
    hide Meaning, Read, CanRead, ReadAs, Kind, Compile;
    FilledPair(l, r, lhs, rhs, fills, b);
    var t := CommonType(l, r);
    var (l1, r1, b2) := SameType(l, r, b);
    var l', r' := Replace(l1.value, fills), Replace(r1.value, fills);
    var v := VCompare(b2.next, op, l1.value, r1.value);
    assert Relate(op, l, r, b).0 == Some(v);
    FilledComparison(v, t, fills);
    ComparedMeans(b2.next, op, t, l', r', lhs, rhs, Some(fills));
  }

  lemma FilledComparison(v: Value, t: Type, fills: map<string, Condition>)
    requires v.VCompare? && t != Unknown && TypeOf(Replace(v.lhs, fills)) == t && TypeOf(Replace(v.rhs, fills)) == t
    ensures Replace(v, fills) == VCompare(v.id, v.op, Replace(v.lhs, fills), Replace(v.rhs, fills))
  {
  }

  lemma FilledNegation(v: Value, inner: Condition, fills: map<string, Condition>, b: Build)
    requires Kind(inner, Some(fills)).Some? && MeansAs(Replace(v, fills), Bool, inner, Some(fills))
    ensures FilledMeans(Negate(v, true, b).0, Not(inner), fills)
  {
    NegatedMeans(Replace(v, fills), inner, true, Some(fills), b);
    var r := Replace(Negate(v, true, b).0.value, fills);
    forall state ensures CanRead(r, Bool) && Read(r, Bool, state) == Meaning(Not(inner), Bool, Some(fills), state) {
      assert Read(Replace(v, fills), Bool, state) == Meaning(inner, Bool, Some(fills), state);
    }
    YesNoMeans(r, Not(inner), Some(fills));
  }

  /** Compiled with holes and filled afterwards, a condition means what it means filled. */
  lemma {:induction false} FilledCompiledMeans(c: Condition, fills: map<string, Condition>, b: Build)
    requires WellFormed(c) && FillsClosed(fills) && Fillable(c, fills)
    ensures FilledMeans(Compile(c, Mode(true, None), b).0, c, fills)
    decreases c, 0
  {
    var mode := Mode(true, None);
    match c
    case Lit(lit) => LeafMeans(c, Compile(c, mode, b).0.value, Some(fills));
    case Leaf(_, _) => LeafMeans(c, Compile(c, mode, b).0.value, Some(fills));
    case Unresolved =>
    case And(all) =>
      AllFilledCompiledMean(all, fills, b);
      var (vals, b1) := CompileAll(all, mode, b);
      FilledGathered(vals, all, true, fills, b1);
    case Or(any) =>
      AllFilledCompiledMean(any, fills, b);
      var (vals, b1) := CompileAll(any, mode, b);
      FilledGathered(vals, any, false, fills, b1);
    case Not(inner) =>
      FilledCompiledMeans(inner, fills, b);
      var (v, b1) := Compile(inner, mode, b);
      FilledOperand(inner, fills, b, b1);
      var (w, b2) := CoerceTo(v, Bool, b1);
      if w.Some? {
        FilledNegation(w.value, inner, fills, b2);
      }
    case Compare(op, lhs, rhs) =>
      FilledCompiledMeans(lhs, fills, b);
      var (l, b1) := Compile(lhs, mode, b);
      FilledCompiledMeans(rhs, fills, b1);
      var (r, b2) := Compile(rhs, mode, b1);
      if l.Some? && r.Some? {
        CompiledPlain(lhs, mode, b);
        CompiledPlain(rhs, mode, b1);
        CompiledMeans(lhs, mode, b);
        CompiledMeans(rhs, mode, b1);
        FilledRelation(op, l.value, r.value, lhs, rhs, fills, b2);
      }
    case Hole(name) => FilledHole(Compile(c, mode, b).0.value, name, fills);
  }

  lemma {:induction false} AllFilledCompiledMean(cs: seq<Condition>, fills: map<string, Condition>, b: Build)
    requires FillsClosed(fills)
    requires forall i :: 0 <= i < |cs| ==> WellFormed(cs[i]) && Fillable(cs[i], fills) && !ZeroFilled(cs[i], fills)
    ensures CompiledOperands(AllReplaced(CompileAll(cs, Mode(true, None), b).0, fills), cs, Some(fills))
    decreases cs, 0
  {
    if cs != [] {
      FilledCompiledMeans(cs[0], fills, b);
      var (v0, b0) := Compile(cs[0], Mode(true, None), b);
      FilledOperand(cs[0], fills, b, b0);
      var (v, b1) := CoerceTo(v0, Bool, b0);
      AllFilledCompiledMean(cs[1..], fills, b1);
    }
  }

  /** Filling after parsing is inlining at parse time: the same conditions compile, to values of one type
      that read the same in every state. */
  lemma FillingIsInlining(c: Condition, fills: map<string, Condition>, b: Build, b': Build)
    requires WellFormed(c) && FillsClosed(fills) && Fillable(c, fills)
    ensures var v := Replaced(Compile(c, Mode(true, None), b).0, fills);
            var w := Compile(c, Mode(true, Some(fills)), b').0;
            && (v.Some? <==> w.Some?)
            && (v.Some? ==>
                  && TypeOf(v.value) == TypeOf(w.value)
                  && (TypeOf(v.value) != Unknown ==>
                        forall state :: CanRead(v.value, TypeOf(v.value)) && CanRead(w.value, TypeOf(v.value))
                                        && Read(v.value, TypeOf(v.value), state) == Read(w.value, TypeOf(v.value), state)))
  {
    FilledCompiledMeans(c, fills, b);
    CompiledMeans(c, Mode(true, Some(fills)), b');
    var v := Replaced(Compile(c, Mode(true, None), b).0, fills);
    var w := Compile(c, Mode(true, Some(fills)), b').0;
    if v.Some? && TypeOf(v.value) != Unknown {
      var t := TypeOf(v.value);
      forall state ensures Read(v.value, t, state) == Read(w.value, t, state) {
        assert ReadAs(v.value, t, state) == Meaning(c, t, Some(fills), state);
        assert ReadAs(w.value, t, state) == Meaning(c, t, Some(fills), state);
      }
    }
  }

  lemma HoleCompiles(name: string, b: Build)
    ensures Compile(Hole(name), Mode(true, None), b) == (Some(VHole(b.next, name)), b.(next := b.next + 1))
  {
  }

  lemma NotHoleCompiles(name: string, b: Build)
    ensures Compile(Not(Hole(name)), Mode(true, None), b).0 == Some(VNot(b.next + 2, VCoerced(b.next + 1, Bool, VHole(b.next, name))))
  {
    hide Gather, Relate, SameType, CompileAll;
    HoleCompiles(name, b);
    var b1 := b.(next := b.next + 1);
    assert CoerceTo(Some(VHole(b.next, name)), Bool, b1) == (Some(VCoerced(b.next + 1, Bool, VHole(b.next, name))), b1.(next := b.next + 2));
  }

  lemma FillCompiles(name: string, fill: Condition) returns (x: Value)
    requires WellFormed(fill) && Kind(fill, None).Some? && Kind(fill, None) != Some(Unknown)
    ensures forall id {:trigger VHole(id, name)} :: Replace(VHole(id, name), map[name := fill]) == x
    ensures TypeOf(x) != Unknown && Readable(x) && Means(x, fill, None)
    ensures x.VConst? && TypeOf(x) != Bool ==> fill == Lit(x.lit)
    ensures fill.Lit? ==> x.VConst? && x.lit == fill.lit
  {
    var start := Build(0, [], []);
    CompiledMeans(fill, Mode(true, None), start);
    CompiledPlain(fill, Mode(true, None), start);
    x := Compile(fill, Mode(true, None), start).0.value;
  }

  lemma MeaningOfFilled(name: string, fill: Condition, t: Type, state: State)
    requires t != Unknown
    ensures Kind(Hole(name), Some(map[name := fill])) == Kind(fill, None)
    ensures Meaning(Hole(name), t, Some(map[name := fill]), state) == Meaning(fill, t, None, state)
  {
  }

  /** Directly under Not, filling agrees with inlining exactly when the fill is not a zero. */
  lemma FillingUnderNot(name: string, fill: Condition, b: Build, b': Build, state: State)
    requires WellFormed(fill) && Kind(fill, None).Some? && Kind(fill, None) != Some(Unknown)
    ensures var fills := map[name := fill];
            var v := Replaced(Compile(Not(Hole(name)), Mode(true, None), b).0, fills);
            var w := Compile(Not(Hole(name)), Mode(true, Some(fills)), b').0;
            && v.Some? && w.Some? && CanRead(v.value, Bool) && CanRead(w.value, Bool)
            && (Read(v.value, Bool, state) == Read(w.value, Bool, state) <==> !ZeroNumber(fill))
  {
    hide Compile, WellFormed, Means, Compiled, Kind, Meaning;
    var fills, c := map[name := fill], Not(Hole(name));
    NotHoleCompiles(name, b);
    var x := FillCompiles(name, fill);
    WrappedFill(fill, x, state);
    var v := Compile(c, Mode(true, None), b).0.value;
    var hole := VHole(b.next, name);
    assert v == VNot(b.next + 2, VCoerced(b.next + 1, Bool, hole));
    assert Replace(hole, fills) == x;
    assert Replace(v.val, fills) == VCoerced(b.next + 1, Bool, x);
    assert Replace(v, fills) == VNot(b.next + 2, VCoerced(b.next + 1, Bool, x));
    InlinedUnderNot(name, fill, b', state);
  }

  lemma InlinedUnderNot(name: string, fill: Condition, b: Build, state: State)
    requires WellFormed(fill) && Kind(fill, None).Some?
    ensures var w := Compile(Not(Hole(name)), Mode(true, Some(map[name := fill])), b).0;
            w.Some? && CanRead(w.value, Bool) && Read(w.value, Bool, state).b == !Meaning(fill, Bool, None, state).b
  {
    var fills, c := map[name := fill], Not(Hole(name));
    MeaningOfFilled(name, fill, Bool, state);
    CompiledMeans(c, Mode(true, Some(fills)), b);
    var w := Compile(c, Mode(true, Some(fills)), b).0.value;
    assert ReadAs(w, Bool, state) == Meaning(c, Bool, Some(fills), state);
  }

  lemma RejectedReads(op: Operator, l: Value, r: Value, fills: map<string, Condition>, b: Build, state: State)
    requires Readable(l) && Readable(r) && CommonType(l, r) == Unknown
    requires Readable(Replace(l, fills)) && Readable(Replace(r, fills))
    requires Rejected(op, TypeOf(Replace(l, fills)), TypeOf(Replace(r, fills)))
    ensures var v := Replaced(Relate(op, l, r, b).0, fills);
            v.Some? && CanRead(v.value, Bool) && Read(v.value, Bool, state) == B(false)
  {
    var start, l', r' := Build(0, [], []), Replace(l, fills), Replace(r, fills);
    CoercedReadable(l', Bool, start);
    var (l1, b1) := CoerceTo(Some(l'), Bool, start);
    CoercedReadable(r', Bool, b1);
    var r1 := CoerceTo(Some(r'), Bool, b1).0;
    assert Relate(op, l, r, b).0 == Some(VCompare(b.next, op, l, r));
    assert Replace(VCompare(b.next, op, l, r), fills) == VCompare(b.next, op, l1.value, r1.value);
  }

  /** A comparison with a hole that inlining rejects is still there after filling, and never holds. */
  lemma FillingRejected(c: Condition, fills: map<string, Condition>, b: Build, b': Build, state: State)
    requires WellFormed(c) && FillsClosed(fills) && c.Compare? && (c.lhs.Hole? || c.rhs.Hole?)
    requires Fillable(c.lhs, fills) && Fillable(c.rhs, fills)
    requires Kind(c.lhs, Some(fills)).Some? && Kind(c.rhs, Some(fills)).Some?
    requires Rejected(c.op, Kind(c.lhs, Some(fills)).value, Kind(c.rhs, Some(fills)).value)
    ensures Compile(c, Mode(true, Some(fills)), b').0.None?
    ensures var v := Replaced(Compile(c, Mode(true, None), b).0, fills);
            v.Some? && CanRead(v.value, Bool) && Read(v.value, Bool, state) == B(false)
  {
    CompiledMeans(c, Mode(true, Some(fills)), b');
    var mode := Mode(true, None);
    var (l, b1) := Compile(c.lhs, mode, b);
    var (r, b2) := Compile(c.rhs, mode, b1);
    FilledCompiledMeans(c.lhs, fills, b);
    FilledCompiledMeans(c.rhs, fills, b1);
    CompiledMeans(c.lhs, mode, b);
    CompiledMeans(c.rhs, mode, b1);
    CompiledPlain(c.lhs, mode, b);
    CompiledPlain(c.rhs, mode, b1);
    RejectedReads(c.op, l.value, r.value, fills, b2, state);
  }
}

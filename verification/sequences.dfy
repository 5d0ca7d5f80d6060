/** Strict sequences: a controller that steps through its actions and, while a step sits in the spell queue,
    hooks the queue's callback so that the cast moves it on; with the plain sequences, which wrap the same
    callback in their own way. */
module Sequences {

  /** What a queue action runs when it fires: the cast, or a sequence's wrapper around the callback it found. */
  datatype Callback =
    | Cast
    | Strictly(strict: StrictSequence, on: QueueAction, inner: Callback)
    | Plainly(plain: PlainSequence, on: QueueAction, inner: Callback)

  /** The ghost fields say how a well-wrapped callback is built: the strict sequences that hook the action,
      outermost first, around what was there before. */
  class QueueAction {
    var onAction: Callback
    ghost var owners: seq<StrictSequence>
    ghost var base: Callback

    constructor ()
      ensures onAction == Cast && owners == [] && base == Cast
    {
      onAction, owners, base := Cast, [], Cast;
    }
  }

  class StrictSequence {
    const steps: nat
    var curIdx: nat
    var hooked: QueueAction?
    var hookedOnAction: Callback

    constructor (steps: nat)
      ensures this.steps == steps && curIdx == 0 && hooked == null
    {
      this.steps := steps;
      curIdx, hooked, hookedOnAction := 0, null, Cast;
    }

    predicate AtLastStep()
      reads this
    {
      curIdx + 1 == steps
    }
  }

  class PlainSequence {
    const steps: nat
    var curIdx: nat

    constructor (steps: nat)
      ensures this.steps == steps && curIdx == 0
    {
      this.steps := steps;
      curIdx := 0;
    }
  }

  /** Who decides the next action: a strict sequence or another controlling action, such as a wait. */
  datatype Controller = Strict(s: StrictSequence) | Other(id: nat)

  /** What one look of the controller finds. */
  datatype Look = Look(ready: bool, castReady: bool, movesOn: bool, gated: bool, gateHolds: bool,
                       queuedNow: bool, afterHardcast: bool, hardcastRuns: bool, waitsForCastEnd: bool, gcdSoon: bool, done: bool)

  /** Where a sequence stands: its step, whether that is the last, its hook and what the hook replaced. */
  datatype Position = Position(step: nat, last: bool, hooked: QueueAction?, hookedOnAction: Callback)

  /** What the rotation does next. */
  datatype Next = Step(s: StrictSequence, k: nat) | CooldownAhead | Nothing | PriorityList

  /** What a sequence on top makes of a look: its step goes out now or is queued, it waits, it hooks the queued
      spell and waits, or it gives up control.  Waiting, it may let a major cooldown go ahead. */
  datatype Verdict = Go(moves: bool) | Hold(ahead: bool) | HookUp(ahead: bool) | Leave

  function VerdictOf(look: Look, curIdx: nat, hooked: bool): Verdict {
    if look.ready then
      if curIdx > 0 && look.gated && !(look.castReady && look.gateHolds) then (if look.castReady then Leave else Hold(false))
      else Go(look.castReady || look.movesOn)
    else if look.queuedNow then HookUp(look.afterHardcast && !look.hardcastRuns)
    else if hooked && look.afterHardcast then Hold(true)
    else if !look.waitsForCastEnd && look.gcdSoon then Leave
    else Hold(false)
  }

  // ---------------------------------------------------------------- callbacks as values

  /** The strict sequences that wrap a callback, outermost first. */
  function Stricts(cb: Callback): seq<StrictSequence> {
    match cb
    case Cast => []
    case Strictly(s, _, inner) => [s] + Stricts(inner)
    case Plainly(_, _, inner) => Stricts(inner)
  }

  /** The callback beneath the i-th of its strict wrappers. */
  function Beneath(cb: Callback, i: nat): Callback
    requires i < |Stricts(cb)|
  {
    match cb
    case Strictly(_, _, inner) => if i == 0 then inner else Beneath(inner, i - 1)
    case Plainly(_, _, inner) => Beneath(inner, i)
  }

  /** Every wrapper is on the one action, and the plain ones are known. */
  ghost predicate AllOn(cb: Callback, q: QueueAction, plains: seq<PlainSequence>) {
    match cb
    case Cast => true
    case Strictly(_, on, inner) => on == q && AllOn(inner, q, plains)
    case Plainly(p, on, inner) => on == q && p in plains && AllOn(inner, q, plains)
  }

  /** How often a plain sequence wraps a callback. */
  function Wraps(cb: Callback, p: PlainSequence): nat {
    match cb
    case Cast => 0
    case Strictly(_, _, inner) => Wraps(inner, p)
    case Plainly(o, _, inner) => Wraps(inner, p) + if o == p then 1 else 0
  }

  ghost predicate Distinct(s: seq<StrictSequence>) {
    forall i, j :: 0 <= i < j < |s| ==> s[i] != s[j]
  }

  /** What stays installed when a callback has run whose strict wrappers are all in place: a strict wrapper
      takes itself off first, a plain one puts back what it found last. */
  function Settles(cb: Callback): Callback {
    match cb
    case Cast => Cast
    case Strictly(_, _, inner) => Settles(inner)
    case Plainly(_, _, inner) => inner
  }

  /** No wrapper stands beneath a plain one. */
  predicate PlainInnermost(cb: Callback) {
    match cb
    case Cast => true
    case Strictly(_, _, inner) => PlainInnermost(inner)
    case Plainly(_, _, inner) => inner == Cast
  }

  /** A callback that has run leaves the cast itself installed exactly if no wrapper stands beneath a plain one;
      a plain sequence nested in another, or wrapped around a strict one's hook, leaves a stale wrapper. */
  lemma {:induction false} CastIsBack(cb: Callback)
    ensures Settles(cb) == Cast <==> PlainInnermost(cb)
    ensures forall s :: s in Stricts(Settles(cb)) ==> s in Stricts(cb)
  {
    match cb
    case Cast =>
    case Strictly(_, _, inner) => CastIsBack(inner);
    case Plainly(_, _, inner) =>
  }

  /** The wrappers of the owners around a base, the first outermost. */
  function Wrap(owners: seq<StrictSequence>, q: QueueAction, base: Callback): Callback {
    if owners == [] then base else Strictly(owners[0], q, Wrap(owners[1..], q, base))
  }

  lemma {:induction false} Wrapping(owners: seq<StrictSequence>, q: QueueAction, base: Callback, plains: seq<PlainSequence>)
    requires base == Cast || (base.Plainly? && base.on == q && base.inner == Cast && base.plain in plains)
    ensures Stricts(Wrap(owners, q, base)) == owners && AllOn(Wrap(owners, q, base), q, plains)
    ensures forall i :: 0 <= i < |owners| ==> Beneath(Wrap(owners, q, base), i) == Wrap(owners[i + 1..], q, base)
    ensures PlainInnermost(Wrap(owners, q, base)) && Settles(Wrap(owners, q, base)) == Cast
    ensures forall p :: Wraps(Wrap(owners, q, base), p) == if base.Plainly? && base.plain == p then 1 else 0
  {
    if owners != [] {
      Wrapping(owners[1..], q, base, plains);
      assert forall i :: 1 <= i < |owners| ==> owners[1..][i..] == owners[i + 1..];
    }
  }

  // ---------------------------------------------------------------- hooks and the stack

  /** The owners stand on the stack, the first nearest the top. */
  ghost predicate InOrder(owners: seq<StrictSequence>, stack: seq<Controller>)
    decreases |stack|
  {
    || owners == []
    || (stack != [] && InOrder(if stack[|stack| - 1] == Strict(owners[0]) then owners[1..] else owners, stack[..|stack| - 1]))
  }

  ghost predicate NoneTwice(stack: seq<Controller>) {
    forall i, j :: 0 <= i < j < |stack| && stack[i].Strict? ==> stack[i] != stack[j]
  }

  lemma LastLeaves(stack: seq<Controller>)
    requires stack != [] && NoneTwice(stack)
    ensures var rest := stack[..|stack| - 1];
            && NoneTwice(rest)
            && (forall c :: c in rest ==> c in stack)
            && (forall c :: c in stack && c != stack[|stack| - 1] ==> c in rest)
            && (stack[|stack| - 1].Strict? ==> stack[|stack| - 1] !in rest)
  {
  }

  lemma {:induction false} OwnersControl(owners: seq<StrictSequence>, stack: seq<Controller>)
    requires InOrder(owners, stack) && NoneTwice(stack)
    ensures forall o :: o in owners ==> Strict(o) in stack
    ensures Distinct(owners)
    decreases |stack|
  {
    if owners != [] {
      LastLeaves(stack);
      OwnersControl(if stack[|stack| - 1] == Strict(owners[0]) then owners[1..] else owners, stack[..|stack| - 1]);
    }
  }

  /** The controller on top owns the outermost hook of any action it hooks. */
  lemma TopIsOutermost(owners: seq<StrictSequence>, stack: seq<Controller>, s: StrictSequence)
    requires InOrder(owners, stack) && NoneTwice(stack) && stack != [] && stack[|stack| - 1] == Strict(s) && s in owners
    ensures owners[0] == s
  {
    if owners[0] != s {
      LastLeaves(stack);
      OwnersControl(owners, stack[..|stack| - 1]);
    }
  }

  lemma PushKeepsOrder(owners: seq<StrictSequence>, stack: seq<Controller>, c: Controller)
    requires InOrder(owners, stack) && NoneTwice(stack) && (c.Strict? ==> c !in stack)
    ensures InOrder(owners, stack + [c])
  {
    OwnersControl(owners, stack);
    assert (stack + [c])[..|stack|] == stack;
  }

  lemma {:induction false} FewerInOrder(owners: seq<StrictSequence>, stack: seq<Controller>)
    requires InOrder(owners, stack) && owners != []
    ensures InOrder(owners[1..], stack)
    decreases |stack|, 0
  {
    var top, rest := stack[|stack| - 1], stack[..|stack| - 1];
    if top == Strict(owners[0]) {
      PushAny(owners[1..], rest, top);
    } else {
      FewerInOrder(owners, rest);
      PushAny(owners[1..], rest, top);
    }
    assert rest + [top] == stack;
  }

  lemma {:induction false} PushAny(owners: seq<StrictSequence>, stack: seq<Controller>, c: Controller)
    requires InOrder(owners, stack)
    ensures InOrder(owners, stack + [c])
    decreases |stack|, 1
  {
    assert (stack + [c])[..|stack|] == stack;
    if owners != [] && c == Strict(owners[0]) {
      FewerInOrder(owners, stack);
    }
  }

  /** Which of the sequences are at their last step. */
  ghost function Lasts(owners: seq<StrictSequence>): (last: seq<bool>)
    reads owners
    ensures |last| == |owners| && forall i :: 0 <= i < |owners| ==> last[i] == owners[i].AtLastStep()
  {
    if owners == [] then [] else [owners[0].AtLastStep()] + Lasts(owners[1..])
  }

  /** Those that are, innermost first: they give up control when the callback runs. */
  ghost function Leaving(owners: seq<StrictSequence>, last: seq<bool>): seq<StrictSequence>
    requires |last| == |owners|
  {
    if owners == [] then [] else Leaving(owners[1..], last[1..]) + if last[0] then [owners[0]] else []
  }

  /** The sequences that leave stand on top of the stack, the first to leave topmost. */
  ghost predicate Tops(stack: seq<Controller>, leaving: seq<StrictSequence>) {
    |leaving| <= |stack| && forall i :: 0 <= i < |leaving| ==> stack[|stack| - 1 - i] == Strict(leaving[i])
  }

  lemma TopsOneMore(stack: seq<Controller>, leaving: seq<StrictSequence>, s: StrictSequence)
    ensures Tops(stack, leaving + [s]) <==>
              Tops(stack, leaving) && var rest := stack[..|stack| - |leaving|]; rest != [] && rest[|rest| - 1] == Strict(s)
    ensures Tops(stack, leaving + [s]) ==>
              |leaving| < |stack| && var n := |stack| - |leaving|; stack[..n][..n - 1] == stack[..n - 1]
  {
    var more := leaving + [s];
    if Tops(stack, more) {
      assert forall i :: 0 <= i < |leaving| ==> more[i] == leaving[i];
      assert more[|leaving|] == s;
    }
  }

  /** At most the outermost of the owners can leave, and only from the top. */
  lemma OnlyOutermostLeaves(owners: seq<StrictSequence>, last: seq<bool>, stack: seq<Controller>)
    requires InOrder(owners, stack) && NoneTwice(stack) && |last| == |owners|
    ensures Tops(stack, Leaving(owners, last)) <==> NoneBelow(last) && (owners != [] && last[0] ==> IsTop(stack, owners[0]))
    ensures NoneBelow(last) ==> Leaving(owners, last) == if owners != [] && last[0] then [owners[0]] else []
  {
    if owners != [] {
      if NoneBelow(last) {
        NoneLeaves(owners[1..], last[1..]);
        TopsOneMore(stack, [], owners[0]);
        assert [] + [owners[0]] == [owners[0]];
      } else {
        LowerCannotLeave(owners, last, stack);
      }
    }
  }

  predicate IsTop(stack: seq<Controller>, s: StrictSequence) {
    stack != [] && stack[|stack| - 1] == Strict(s)
  }

  /** None but the outermost is at its last step. */
  ghost predicate NoneBelow(last: seq<bool>) {
    forall i :: 1 <= i < |last| ==> !last[i]
  }

  lemma LowerCannotLeave(owners: seq<StrictSequence>, last: seq<bool>, stack: seq<Controller>)
    requires InOrder(owners, stack) && NoneTwice(stack) && |last| == |owners| && !NoneBelow(last)
    ensures !Tops(stack, Leaving(owners, last))
  {
    hide InOrder;
    var i :| 1 <= i < |last| && last[i];
    assert last[1..][i - 1];
    SomeLeaves(owners[1..], last[1..]);
    var first := Leaving(owners, last)[0];
    assert first == Leaving(owners[1..], last[1..])[0];
    var j :| 0 <= j < |owners[1..]| && owners[1..][j] == first;
    assert first == owners[j + 1];
    OwnersControl(owners, stack);
    if IsTop(stack, first) {
      TopIsOutermost(owners, stack, first);
    }
  }

  lemma {:induction false} NoneLeaves(owners: seq<StrictSequence>, last: seq<bool>)
    requires |last| == |owners| && forall i :: 0 <= i < |last| ==> !last[i]
    ensures Leaving(owners, last) == []
  {
    if owners != [] {
      NoneLeaves(owners[1..], last[1..]);
    }
  }

  lemma {:induction false} SomeLeaves(owners: seq<StrictSequence>, last: seq<bool>)
    requires |last| == |owners| && exists i :: 0 <= i < |last| && last[i]
    ensures Leaving(owners, last) != [] && Leaving(owners, last)[0] in owners
  {
    var i :| 0 <= i < |last| && last[i];
    OwnersLeave(owners, last);
    if i > 0 {
      assert last[1..][i - 1];
      SomeLeaves(owners[1..], last[1..]);
    }
  }

  lemma {:induction false} OwnersLeave(owners: seq<StrictSequence>, last: seq<bool>)
    requires |last| == |owners|
    ensures forall o :: o in Leaving(owners, last) ==> o in owners
  {
    if owners != [] {
      OwnersLeave(owners[1..], last[1..]);
    }
  }

  /** Owners of hooks among which the controller on top is not stand on the rest of the stack. */
  lemma NotOnTop(owners: seq<StrictSequence>, stack: seq<Controller>, s: StrictSequence)
    requires InOrder(owners, stack) && IsTop(stack, s) && s !in owners
    ensures InOrder(owners, stack[..|stack| - 1])
  {
  }

  class Rotation {
    /** The sequences in the priority list and the groups, and those in the prepull actions. */
    const reached: seq<StrictSequence>
    const prepull: seq<StrictSequence>
    const plains: seq<PlainSequence>
    const sequences: seq<StrictSequence> := reached + prepull
    var controlling: seq<Controller>
    var queue: QueueAction?
    var casts: nat
    ghost var pool: set<QueueAction>

    // ---- what holds between operations

    ghost predicate AtRest(s: StrictSequence)
      reads s
    {
      s.curIdx == 0 && s.hooked == null
    }

    ghost predicate InBounds()
      reads sequences
    {
      forall s :: s in sequences ==> s.curIdx < s.steps
    }

    ghost predicate StackValid()
      reads this
    {
      (forall c :: c in controlling && c.Strict? ==> c.s in sequences) && NoneTwice(controlling)
    }

    /** The owner of a hook: it hooks the action, and knows the callback its wrapper replaced. */
    ghost predicate Owns(q: QueueAction, i: nat)
      requires i < |q.owners|
      reads q, sequences
    {
      var o := q.owners[i];
      o in sequences && o.hooked == q && o.hookedOnAction == Wrap(q.owners[i + 1..], q, q.base)
    }

    ghost predicate BaseValid(q: QueueAction)
      reads q
    {
      q.base == Cast || (q.base.Plainly? && q.base.on == q && q.base.inner == Cast && q.base.plain in plains)
    }

    /** The callback of an action: the hooks of strict sequences in control, the one nearest the top outermost,
        around the cast itself or a plain sequence's wrapper of it. */
    ghost predicate WellWrapped(q: QueueAction)
      reads this, q, sequences
    {
      && q.onAction == Wrap(q.owners, q, q.base)
      && BaseValid(q)
      && (forall i :: 0 <= i < |q.owners| ==> Owns(q, i))
      && InOrder(q.owners, controlling)
    }

    /** A sequence's hook is in place. */
    ghost predicate Hooks(s: StrictSequence)
      reads this, s, pool
    {
      s.hooked != null ==> s.hooked in pool && s in s.hooked.owners
    }

    ghost predicate HooksValid()
      reads this, sequences, pool
    {
      && (queue != null ==> queue in pool)
      && (forall s :: s in sequences ==> Hooks(s))
      && (forall q :: q in pool ==> WellWrapped(q))
    }

    /** Off the stack a sequence is at its first step and holds no hook; on it, it is at one of its steps. */
    ghost predicate Valid()
      reads this, sequences, pool
    {
      StackValid() && HooksValid() && InBounds() && forall s :: s in sequences && Strict(s) !in controlling ==> AtRest(s)
    }

    twostate predicate Untouched(s: StrictSequence)
      reads s
    {
      s.curIdx == old(s.curIdx) && s.hooked == old(s.hooked) && s.hookedOnAction == old(s.hookedOnAction)
    }

    twostate predicate Undisturbed(q: QueueAction)
      reads q
    {
      q.onAction == old(q.onAction) && q.owners == old(q.owners) && q.base == old(q.base)
    }

    constructor (reached: seq<StrictSequence>, prepull: seq<StrictSequence>, plains: seq<PlainSequence>)
      requires forall s :: s in reached + prepull ==> s.steps > 0 && s.curIdx == 0 && s.hooked == null
      ensures Valid() && this.reached == reached && this.prepull == prepull && this.plains == plains
      ensures controlling == [] && queue == null && casts == 0 && pool == {}
    {
      this.reached, this.prepull, this.plains := reached, prepull, plains;
      controlling, queue, casts, pool := [], null, 0, {};
    }

    predicate OnTop(s: StrictSequence)
      reads this
    {
      controlling != [] && controlling[|controlling| - 1] == Strict(s)
    }

    // ---- hooking

    /** Puts back the callback the hook replaced. */
    method Unhook(s: StrictSequence)
      modifies s, s.hooked
      ensures s.hooked == null && s.curIdx == old(s.curIdx)
      ensures old(s.hooked) != null ==>
                var q := old(s.hooked);
                && q.onAction == old(s.hookedOnAction) && q.base == old(q.base)
                && q.owners == if old(q.owners) != [] && old(q.owners)[0] == s then old(q.owners)[1..] else old(q.owners)
      ensures s.hookedOnAction == if old(s.hooked) == null then old(s.hookedOnAction) else Cast
    {
      if s.hooked == null {
        return;
      }
      var q := s.hooked;
      q.onAction := s.hookedOnAction;
      if q.owners != [] && q.owners[0] == s {
        q.owners := q.owners[1..];
      }
      s.hooked := null;
      s.hookedOnAction := Cast;
    }

    /** The controller on top takes its hook off: what it hooked stays well wrapped. */
    method UnhookTop(s: StrictSequence)
      requires StackValid() && HooksValid() && s in sequences && OnTop(s)
      modifies s, s.hooked
      ensures StackValid() && HooksValid() && s.hooked == null && s.curIdx == old(s.curIdx)
      ensures old(s.hooked) != null ==> old(s.hooked).onAction == old(s.hookedOnAction)
      ensures forall q :: q in pool ==> s !in q.owners
      ensures forall q :: q in pool && q != old(s.hooked) ==> Undisturbed(q)
    {
      ghost var h := s.hooked;
      forall q | q in pool && q != h ensures s !in q.owners {
        assert WellWrapped(q);
        forall i | 0 <= i < |q.owners| ensures q.owners[i] != s {
          assert Owns(q, i);
        }
      }
      if h != null {
        assert WellWrapped(h) && Hooks(s) && Owns(h, 0);
        TopIsOutermost(h.owners, controlling, s);
        OwnersControl(h.owners, controlling);
        FewerInOrder(h.owners, controlling);
      }
      Unhook(s);
      if h != null {
        ghost var before := old(h.owners);
        forall i | 0 <= i < |h.owners| ensures Owns(h, i) {
          assert old(Owns(h, i + 1));
          assert h.owners[i] == before[i + 1] && h.owners[i + 1..] == before[i + 2..];
        }
      }
      forall q | q in pool ensures WellWrapped(q) {
        if q != h {
          assert old(WellWrapped(q));
          forall i | 0 <= i < |q.owners| ensures Owns(q, i) {
            assert old(Owns(q, i));
          }
        }
      }
      forall t | t in sequences ensures Hooks(t) {
        assert old(Hooks(t));
      }
    }

    /** The controller on top hooks the action in the queue, around whatever callback it finds there.  Hooking
        again the action that is hooked already changes nothing. */
    method Hook(s: StrictSequence)
      requires Valid() && s in sequences && OnTop(s) && queue != null
      modifies s, s.hooked, queue
      ensures Valid() && s.hooked == queue && s.curIdx == old(s.curIdx)
      ensures queue.owners != [] && queue.owners[0] == s && queue.onAction == Strictly(s, queue, s.hookedOnAction)
      ensures queue.base == old(queue.base)
      ensures old(s.hooked) == queue ==> Untouched(s) && Undisturbed(queue)
      ensures old(s.hooked) != queue ==>
                && s.hookedOnAction == old(queue.onAction) && queue.owners == [s] + old(queue.owners)
                && (old(s.hooked) != null ==> old(s.hooked).onAction == old(s.hookedOnAction))
    {
      assert Hooks(s);
      if s.hooked == queue {
        assert WellWrapped(queue) && Owns(queue, 0);
        TopIsOutermost(queue.owners, controlling, s);
        return;
      }
      OutermostOnTop(s);
      UnhookTop(s);
      WrapQueued(s);
    }

    lemma OutermostOnTop(s: StrictSequence)
      requires StackValid() && HooksValid() && OnTop(s) && queue != null
      ensures s in queue.owners ==> s.hooked == queue
    {
      assert WellWrapped(queue);
      forall i | 0 <= i < |queue.owners| ensures queue.owners[i].hooked == queue {
        assert Owns(queue, i);
      }
    }

    method WrapQueued(s: StrictSequence)
      requires StackValid() && HooksValid() && s in sequences && OnTop(s) && queue != null && s.hooked == null
      requires forall q :: q in pool ==> s !in q.owners
      modifies s, queue
      ensures HooksValid() && s.hooked == queue && s.curIdx == old(s.curIdx) && s.hookedOnAction == old(queue.onAction)
      ensures queue.onAction == Strictly(s, queue, s.hookedOnAction) && queue.owners == [s] + old(queue.owners)
      ensures queue.base == old(queue.base)
    {
      ghost var owners := queue.owners;
      assert WellWrapped(queue);
      NotOnTop(owners, controlling, s);
      s.hooked := queue;
      s.hookedOnAction := queue.onAction;
      queue.onAction := Strictly(s, queue, queue.onAction);
      queue.owners := [s] + owners;
      forall i | 0 <= i < |queue.owners| ensures Owns(queue, i) {
        assert i > 0 ==> old(Owns(queue, i - 1)) && queue.owners[i] == owners[i - 1];
        assert ([s] + owners)[i + 1..] == owners[i..];
      }
      assert WellWrapped(queue);
      forall q | q in pool && q != queue ensures WellWrapped(q) {
        assert old(WellWrapped(q));
        forall i | 0 <= i < |q.owners| ensures Owns(q, i) {
          assert old(Owns(q, i));
        }
      }
      forall t | t in sequences ensures Hooks(t) {
        assert old(Hooks(t));
      }
    }

    /** Hooks stay valid where no hook and no callback changes. */
    twostate lemma HooksStay()
      requires old(HooksValid()) && controlling == old(controlling) && queue == old(queue) && pool == old(pool)
      requires forall s :: s in sequences ==> s.hooked == old(s.hooked) && s.hookedOnAction == old(s.hookedOnAction)
      requires forall q :: q in pool ==> Undisturbed(q)
      ensures HooksValid()
    {
      forall q | q in pool ensures WellWrapped(q) {
        assert old(WellWrapped(q));
        forall i | 0 <= i < |q.owners| ensures Owns(q, i) {
          assert old(Owns(q, i));
        }
      }
      forall t | t in sequences ensures Hooks(t) {
        assert old(Hooks(t));
      }
    }

    // ---- control

    /** Takes the controller off the stack, which fails unless it is on top. */
    method Pop(ca: Controller) returns (ok: bool)
      modifies `controlling
      ensures ok <==> old(controlling) != [] && old(controlling)[|old(controlling)| - 1] == ca
      ensures controlling == if ok then old(controlling)[..|old(controlling)| - 1] else old(controlling)
    {
      ok := controlling != [] && controlling[|controlling| - 1] == ca;
      if ok {
        controlling := controlling[..|controlling| - 1];
      }
    }

    /** What a sequence does when it gives up control, valid or not: back at the first step, unhooked and off the
        stack, which fails unless it is on top. */
    method Relinquish(s: StrictSequence) returns (ok: bool)
      modifies `controlling, s, s.hooked
      ensures ok <==> old(OnTop(s))
      ensures AtRest(s) && controlling == if ok then old(controlling)[..|old(controlling)| - 1] else old(controlling)
      ensures old(s.hooked) != null ==> old(s.hooked).onAction == old(s.hookedOnAction)
    {
      s.curIdx := 0;
      Unhook(s);
      ok := Pop(Strict(s));
    }

    /** From the top of the stack it leaves everything else well wrapped. */
    method RelinquishTop(s: StrictSequence) returns (ok: bool)
      requires StackValid() && HooksValid() && s in sequences && OnTop(s)
      requires forall t :: t in sequences && t != s ==> t.curIdx < t.steps && (Strict(t) !in controlling ==> AtRest(t))
      requires s.steps > 0
      modifies `controlling, s, s.hooked
      ensures ok && Valid() && AtRest(s) && Strict(s) !in controlling
      ensures controlling == old(controlling)[..|old(controlling)| - 1]
      ensures old(s.hooked) != null ==> old(s.hooked).onAction == old(s.hookedOnAction)
    {
      s.curIdx := 0;
      HooksStay();
      UnhookTop(s);
      LastLeaves(controlling);
      ok := PopOwnerless(Strict(s));
    }

    /** Takes a controller that owns no hook off the top of the stack. */
    method PopOwnerless(ca: Controller) returns (ok: bool)
      requires StackValid() && HooksValid() && controlling != [] && controlling[|controlling| - 1] == ca
      requires ca.Strict? ==> forall q :: q in pool ==> ca.s !in q.owners
      modifies `controlling
      ensures ok && StackValid() && HooksValid() && controlling == old(controlling)[..|old(controlling)| - 1]
    {
      LastLeaves(controlling);
      ok := Pop(ca);
      forall q | q in pool ensures WellWrapped(q) {
        assert old(WellWrapped(q));
        forall i | 0 <= i < |q.owners| ensures Owns(q, i) {
          assert old(Owns(q, i));
        }
        assert q.owners != [] ==> q.owners[0] in q.owners;
      }
      forall t | t in sequences ensures Hooks(t) {
        assert old(Hooks(t));
      }
    }

    /** One step on, giving up control after the last. */
    method Advance(s: StrictSequence) returns (ok: bool)
      modifies `controlling, s, s.hooked
      ensures ok <==> !old(s.AtLastStep()) || old(OnTop(s))
      ensures if old(s.AtLastStep()) then AtRest(s) else s.curIdx == old(s.curIdx) + 1 && s.hooked == old(s.hooked) && s.hookedOnAction == old(s.hookedOnAction)
      ensures controlling == if old(s.AtLastStep() && OnTop(s)) then old(controlling)[..|old(controlling)| - 1] else old(controlling)
      ensures old(s.hooked) != null ==>
                if old(s.AtLastStep()) then old(s.hooked).onAction == old(s.hookedOnAction) else Undisturbed(old(s.hooked))
    {
      s.curIdx := s.curIdx + 1;
      ok := true;
      if s.curIdx == s.steps {
        ok := Relinquish(s);
      }
    }

    /** The same for the controller on top: the rotation stays valid. */
    method AdvanceTop(s: StrictSequence)
      requires Valid() && s in sequences && OnTop(s)
      modifies `controlling, s, s.hooked
      ensures Valid() && Advanced(s)
      ensures !old(s.AtLastStep()) && s.hooked != null ==> s.hooked.onAction == old(s.hooked.onAction)
    {
      s.curIdx := s.curIdx + 1;
      HooksStay();
      if s.curIdx == s.steps {
        var ok := RelinquishTop(s);
      }
    }

    /** The sequence is exactly one step further, or has left the top of the stack from its last step. */
    twostate predicate Advanced(s: StrictSequence)
      reads this, s
    {
      if !old(s.AtLastStep())
      then s.curIdx == old(s.curIdx) + 1 && controlling == old(controlling) && s.hooked == old(s.hooked)
      else AtRest(s) && Strict(s) !in controlling
           && old(controlling) != [] && controlling == old(controlling)[..|old(controlling)| - 1]
    }

    /** A sequence the rotation or the prepull picks takes control, at whatever step it is. */
    method Begin(s: StrictSequence)
      requires StackValid() && s in sequences && Strict(s) !in controlling
      modifies `controlling
      ensures StackValid() && controlling == old(controlling) + [Strict(s)]
      ensures old(Valid()) ==> Valid()
      ensures old(HooksValid() && InBounds() && forall t :: t in sequences && t != s && Strict(t) !in controlling ==> AtRest(t)) ==> Valid()
    {
      ghost var hooks := HooksValid();
      ghost var stack := controlling;
      controlling := controlling + [Strict(s)];
      if hooks {
        PushedIsValid(stack);
      }
      assert forall c :: c in stack ==> c in controlling;
    }

    /** Another controlling action takes control. */
    method BeginOther(id: nat)
      requires Valid()
      modifies `controlling
      ensures Valid() && controlling == old(controlling) + [Other(id)]
    {
      ghost var stack := controlling;
      controlling := controlling + [Other(id)];
      PushedIsValid(stack);
      assert forall c :: c in stack ==> c in controlling;
    }

    lemma PushedIsValid(stack: seq<Controller>)
      requires NoneTwice(stack) && |controlling| == |stack| + 1 && controlling[..|stack|] == stack
      requires controlling[|stack|].Strict? ==> controlling[|stack|] !in stack
      requires queue != null ==> queue in pool
      requires forall s :: s in sequences ==> Hooks(s)
      requires forall q :: q in pool ==> q.onAction == Wrap(q.owners, q, q.base) && BaseValid(q)
      requires forall q, i :: q in pool && 0 <= i < |q.owners| ==> Owns(q, i)
      requires forall q :: q in pool ==> InOrder(q.owners, stack)
      ensures HooksValid()
    {
      assert controlling == stack + [controlling[|stack|]];
      forall q | q in pool ensures WellWrapped(q) {
        PushKeepsOrder(q.owners, stack, controlling[|stack|]);
      }
    }

    /** Whether a controller gives up control at its look. */
    ghost predicate Yields(look: Look, c: Controller)
      reads if c.Strict? then {c.s} else {}
    {
      if c.Strict? then VerdictOf(look, c.s.curIdx, c.s.hooked != null).Leave? else look.done
    }

    /** The height of the controller that decides: the highest up to n that does not give up control; 0 if all do. */
    ghost function Decider(looks: nat -> Look, stack: seq<Controller>, n: nat): (d: nat)
      requires n <= |stack|
      reads set c | c in stack && c.Strict? :: c.s
      ensures d <= n && (0 < d ==> !Yields(looks(d), stack[d - 1]))
      ensures forall i :: d < i <= n ==> Yields(looks(i), stack[i - 1])
    {
      if n == 0 || !Yields(looks(n), stack[n - 1]) then n else Decider(looks, stack, n - 1)
    }

    lemma DeciderIs(looks: nat -> Look, stack: seq<Controller>, n: nat, d: nat)
      requires d <= n <= |stack| && (0 < d ==> !Yields(looks(d), stack[d - 1]))
      requires forall i :: d < i <= n ==> Yields(looks(i), stack[i - 1])
      ensures Decider(looks, stack, n) == d
    {
      hide Yields;
    }

    /** Where a controlling sequence stands. */
    ghost function PositionOf(c: Controller): Position
      reads if c.Strict? then {c.s} else {}
    {
      if c.Strict? then Position(c.s.curIdx, c.s.AtLastStep(), c.s.hooked, c.s.hookedOnAction) else Position(0, false, null, Cast)
    }

    /** What the controller that decides, at height d of the stack, did with the rotation's question, from where it
        stood: the controllers above it are gone, and a sequence whose last step went out is gone too. */
    ghost predicate Decided(stack: seq<Controller>, d: nat, was: Position, look: Look, next: Next)
      requires 0 < d <= |stack|
      reads this, if stack[d - 1].Strict? then {stack[d - 1].s} else {}, queue
    {
      var c := stack[d - 1];
      if c.Other? then next == Nothing && controlling == stack[..d]
      else
        match VerdictOf(look, was.step, was.hooked != null)
        case Go(moves) =>
          && next == Step(c.s, was.step)
          && (if !moves then controlling == stack[..d] && PositionOf(c) == was
              else if was.last then AtRest(c.s) && controlling == stack[..d - 1]
              else c.s.curIdx == was.step + 1 && c.s.hooked == was.hooked && controlling == stack[..d])
        case Hold(ahead) => next == (if ahead then CooldownAhead else Nothing) && controlling == stack[..d] && PositionOf(c) == was
        case HookUp(ahead) =>
          && next == (if ahead then CooldownAhead else Nothing) && controlling == stack[..d]
          && c.s.curIdx == was.step && queue != null && c.s.hooked == queue
          && queue.onAction == Strictly(c.s, queue, c.s.hookedOnAction) && queue.owners != [] && queue.owners[0] == c.s
        case Leave => false
    }

    /** The same decision, seen from a stack with more on top. */
    lemma DecidedBeneath(under: seq<Controller>, stack: seq<Controller>, d: nat, was: Position, look: Look, next: Next)
      requires 0 < d <= |under| <= |stack| && under == stack[..|under|]
      ensures Decided(under, d, was, look, next) ==> Decided(stack, d, was, look, next)
    {
      assert under[..d] == stack[..d] && under[..d - 1] == stack[..d - 1];
    }

    /** The rotation's next action.  The highest controller that does not give up control decides, and those
        above it are gone; with none left the priority list does.  looks(h) is what the controller at height h
        finds. */
    method GetNextAction(looks: nat -> Look) returns (next: Next)
      requires Valid()
      requires queue == null ==> forall h :: !looks(h).queuedNow
      modifies this, sequences, pool
      ensures Valid() && queue == old(queue) && pool == old(pool) && casts == old(casts)
      ensures |controlling| <= |old(controlling)| && controlling == old(controlling)[..|controlling|]
      ensures forall i :: 0 <= i < |controlling| - 1 && controlling[i].Strict? ==> Untouched(controlling[i].s)
      ensures next == PriorityList ==> controlling == []
      ensures var d := old(Decider(looks, controlling, |controlling|));
              if d == 0 then next == PriorityList && controlling == []
              else Decided(old(controlling), d, old(PositionOf(controlling[d - 1])), looks(d), next)
      ensures old(controlling) != [] && old(controlling)[|old(controlling)| - 1].Strict? ==>
                var s := old(controlling)[|old(controlling)| - 1].s;
                Obeyed(s, old(VerdictOf(looks(|controlling|), s.curIdx, s.hooked != null)), next)
      decreases |controlling|
    {
      hide Valid, StackValid, HooksValid, InBounds, NoneTwice, Decided, Decider, Yields, PositionOf;
      if controlling == [] {
        return PriorityList;
      }
      ghost var stack := controlling;
      var top := controlling[|controlling| - 1];
      var asked, left := AskHighest(looks);
      next := asked;
      if left {
        ghost var under, d := controlling, Decider(looks, controlling, |controlling|);
        next := GetNextAction(looks);
        assert under[..|controlling|] == stack[..|controlling|];
        if d > 0 {
          DecidedBeneath(under, stack, d, old(PositionOf(stack[d - 1])), looks(d), next);
        }
        if top.Strict? {
          OffStackAtRest(top.s);
        }
      }
    }

    /** The highest controller is asked: if it gives up control, the decision is the same for those beneath it. */
    method AskHighest(looks: nat -> Look) returns (next: Next, left: bool)
      requires Valid() && controlling != []
      requires queue == null ==> forall h :: !looks(h).queuedNow
      modifies this, sequences, pool
      ensures Valid() && queue == old(queue) && pool == old(pool) && casts == old(casts)
      ensures left ==> controlling == old(controlling)[..|old(controlling)| - 1]
      ensures left ==> forall i :: 0 <= i < |controlling| ==> PositionOf(controlling[i]) == old(PositionOf(controlling[i]))
      ensures left ==> Decider(looks, controlling, |controlling|) == old(Decider(looks, controlling, |controlling|))
      ensures !left ==> next != PriorityList && old(Decider(looks, controlling, |controlling|)) == |old(controlling)|
      ensures !left ==> Decided(old(controlling), |old(controlling)|, old(PositionOf(controlling[|controlling| - 1])), looks(|old(controlling)|), next)
      ensures !left ==> controlling == old(controlling) || controlling == old(controlling)[..|old(controlling)| - 1]
      ensures forall i :: 0 <= i < |old(controlling)| - 1 && old(controlling)[i].Strict? ==> Untouched(old(controlling)[i].s)
      ensures var stack := old(controlling);
              var top := stack[|stack| - 1];
              top.Strict? ==>
                var v := old(VerdictOf(looks(|controlling|), top.s.curIdx, top.s.hooked != null));
                top.s in sequences && top !in stack[..|stack| - 1] && if left then v.Leave? else Obeyed(top.s, v, next)
    {
      hide Valid, StackValid, HooksValid, InBounds, NoneTwice, Decided, Decider, Yields, Obeyed, VerdictOf;
      ghost var stack, n := controlling, |controlling|;
      next, left := AskTop(looks(|controlling|));
      if left {
        ghost var under := controlling;
        ghost var e := old(Decider(looks, stack, n));
        StandsStill(under);
        DeciderIs(looks, under, n - 1, e);
      }
    }

    twostate lemma StandsStill(stack: seq<Controller>)
      requires forall i :: 0 <= i < |stack| && stack[i].Strict? ==> Untouched(stack[i].s)
      ensures forall i :: 0 <= i < |stack| ==> PositionOf(stack[i]) == old(PositionOf(stack[i]))
      ensures forall i, look :: 0 <= i < |stack| ==> Yields(look, stack[i]) == old(Yields(look, stack[i]))
    {
    }

    /** The controller on top is asked: another action is done or keeps control, a sequence answers or gives it up. */
    method AskTop(look: Look) returns (next: Next, left: bool)
      requires Valid() && controlling != []
      requires look.queuedNow ==> queue != null
      modifies this, sequences, pool
      ensures Valid() && queue == old(queue) && pool == old(pool) && casts == old(casts)
      ensures left == old(Yields(look, controlling[|controlling| - 1]))
      ensures left ==> controlling == old(controlling)[..|old(controlling)| - 1]
      ensures !left ==> next != PriorityList && Decided(old(controlling), |old(controlling)|, old(PositionOf(controlling[|controlling| - 1])), look, next)
      ensures !left ==> controlling == old(controlling) || controlling == old(controlling)[..|old(controlling)| - 1]
      ensures forall i :: 0 <= i < |old(controlling)| - 1 && old(controlling)[i].Strict? ==> Untouched(old(controlling)[i].s)
      ensures var stack := old(controlling);
              var top := stack[|stack| - 1];
              top.Strict? ==>
                var v := old(VerdictOf(look, top.s.curIdx, top.s.hooked != null));
                top.s in sequences && top !in stack[..|stack| - 1] && if left then v.Leave? else Obeyed(top.s, v, next)
    {
      hide Valid, NoneTwice;
      next, left := Nothing, look.done;
      var top := controlling[|controlling| - 1];
      TopIsKnown();
      if top.Strict? {
        next, left := Ask(top.s, look);
      } else if look.done {
        PopOther(top);
      }
    }

    lemma OffStackAtRest(s: StrictSequence)
      requires Valid() && s in sequences
      ensures Strict(s) !in controlling ==> AtRest(s)
    {
    }

    lemma TopIsKnown()
      requires Valid() && controlling != []
      ensures controlling[|controlling| - 1].Strict? ==>
                var s := controlling[|controlling| - 1].s; s in sequences && (s.hooked != null ==> s.hooked in pool)
      ensures queue != null ==> queue in pool
      ensures controlling == controlling[..|controlling| - 1] + [controlling[|controlling| - 1]]
      ensures controlling[|controlling| - 1].Strict? ==> controlling[|controlling| - 1] !in controlling[..|controlling| - 1]
    {
      assert controlling[|controlling| - 1] in controlling;
      if controlling[|controlling| - 1].Strict? {
        assert Hooks(controlling[|controlling| - 1].s);
      }
    }

    /** Another controlling action is done. */
    method PopOther(top: Controller)
      requires Valid() && controlling != [] && controlling[|controlling| - 1] == top && top.Other?
      modifies `controlling
      ensures Valid() && controlling == old(controlling)[..|old(controlling)| - 1]
    {
      LastLeaves(controlling);
      var popped := PopOwnerless(top);
    }

    /** What HooksValid says, hook by hook. */
    lemma HookFacts()
      requires HooksValid()
      ensures forall q :: q in pool ==> q.onAction == Wrap(q.owners, q, q.base) && BaseValid(q) && InOrder(q.owners, controlling)
      ensures forall q, i :: q in pool && 0 <= i < |q.owners| ==> Owns(q, i)
      ensures (queue != null ==> queue in pool) && forall s :: s in sequences ==> Hooks(s)
    {
      forall q, i | q in pool && 0 <= i < |q.owners| ensures Owns(q, i) {
        assert WellWrapped(q);
      }
      forall q | q in pool ensures q.onAction == Wrap(q.owners, q, q.base) && BaseValid(q) && InOrder(q.owners, controlling) {
        assert WellWrapped(q);
      }
    }

    /** The sequence on top answers, or gives up control. */
    method Ask(s: StrictSequence, look: Look) returns (next: Next, left: bool)
      requires Valid() && s in sequences && OnTop(s)
      requires look.queuedNow ==> queue != null
      modifies `controlling, s, s.hooked, queue
      ensures Valid()
      ensures controlling == old(controlling) || controlling == old(controlling)[..|old(controlling)| - 1]
      ensures forall i :: 0 <= i < |old(controlling)| - 1 && old(controlling)[i].Strict? ==> Untouched(old(controlling)[i].s)
      ensures var v := old(VerdictOf(look, s.curIdx, s.hooked != null));
              if v.Leave? then left && |controlling| < |old(controlling)| && AtRest(s)
              else !left && next != PriorityList && Obeyed(s, v, next)
    {
      next, left := Nothing, false;
      LastLeaves(controlling);
      if look.ready {
        if s.curIdx > 0 && look.gated {
          if !look.castReady {
            return;
          }
          if !look.gateHolds {
            left := RelinquishTop(s);
            return;
          }
        }
        next := Step(s, s.curIdx);
        if look.castReady || look.movesOn {
          AdvanceTop(s);
        }
      } else if look.queuedNow {
        Hook(s);
        next := if look.afterHardcast && !look.hardcastRuns then CooldownAhead else Nothing;
      } else if s.hooked != null && look.afterHardcast {
        next := CooldownAhead;
      } else if look.waitsForCastEnd {
      } else if look.gcdSoon {
        left := RelinquishTop(s);
      }
    }

    /** What the sequence on top, having got the verdict, did with the rotation's question. */
    twostate predicate Obeyed(s: StrictSequence, v: Verdict, new next: Next)
      reads this, s, queue
    {
      match v
      case Go(moves) => next == Step(s, old(s.curIdx)) && if moves then Advanced(s) else controlling == old(controlling) && Untouched(s)
      case Hold(ahead) => next == (if ahead then CooldownAhead else Nothing) && controlling == old(controlling) && Untouched(s)
      case HookUp(ahead) =>
        && next == (if ahead then CooldownAhead else Nothing) && controlling == old(controlling)
        && s.curIdx == old(s.curIdx) && queue != null && queue == old(queue) && s.hooked == queue
        && queue.onAction == Strictly(s, queue, s.hookedOnAction) && queue.base == old(queue.base)
        && queue.owners == (if old(s.hooked == queue) then old(queue.owners) else [s] + old(queue.owners))
        && queue.owners != [] && queue.owners[0] == s
      case Leave => |controlling| < |old(controlling)| && AtRest(s)
    }

    // ---- the spell queue

    /** Queues a spell: on a new action, or on the last one if that has fired. */
    method Queue(fired: bool)
      requires Valid()
      modifies `queue, `pool
      ensures Valid() && queue != null
      ensures if fired && old(queue) != null then queue == old(queue) && pool == old(pool)
              else fresh(queue) && pool == old(pool) + {queue} && queue.onAction == Cast
    {
      if !fired || queue == null {
        HookFacts();
        queue := new QueueAction();
        pool := pool + {queue};
        forall q | q in pool ensures WellWrapped(q) {
        }
        forall s | s in sequences ensures Hooks(s) {
        }
      }
    }

    /** Cancels the queued spell, whose action is given up. */
    method CancelQueued()
      requires Valid()
      modifies `queue
      ensures Valid() && queue == null
    {
      HookFacts();
      queue := null;
      forall q | q in pool ensures WellWrapped(q) {
      }
    }

    /** A plain sequence executes its step.  If that queued a spell it wraps the callback it finds; the wrapper
        will move it on and put that callback back.  The rotation stays valid exactly if it found the cast
        itself: a plain sequence within a plain one, or around a strict one's hook, does not. */
    method ExecutePlain(p: PlainSequence, queued: bool)
      requires Valid() && p in plains && p.curIdx < p.steps && (queued ==> queue != null)
      modifies p, queue
      ensures queued ==> p.curIdx == old(p.curIdx) && queue.onAction == Plainly(p, queue, old(queue.onAction))
      ensures !queued ==> p.curIdx == old(p.curIdx) + 1 && (queue != null ==> Undisturbed(queue))
      ensures Valid() <==> !queued || old(queue.onAction) == Cast
    {
      HookFacts();
      if !queued {
        p.curIdx := p.curIdx + 1;
        HooksStay();
        return;
      }
      ghost var found := queue.onAction;
      queue.onAction := Plainly(p, queue, queue.onAction);
      if found == Cast {
        queue.base := queue.onAction;
        forall q | q in pool ensures WellWrapped(q) {
          assert old(WellWrapped(q));
          forall i | 0 <= i < |q.owners| ensures Owns(q, i) {
            assert old(Owns(q, i));
          }
        }
        forall t | t in sequences ensures Hooks(t) {
          assert old(Hooks(t));
        }
      } else {
        assert !WellWrapped(queue);
      }
    }

    // ---- firing

    /** The callback's wrappers are all in place: each strict sequence hooks the action and knows the callback
        its wrapper replaced. */
    ghost predicate InPlace(cb: Callback, q: QueueAction)
      reads sequences
    {
      && AllOn(cb, q, plains)
      && forall i :: 0 <= i < |Stricts(cb)| ==>
           var s := Stricts(cb)[i]; s in sequences && s.hooked == q && s.hookedOnAction == Beneath(cb, i)
    }

    /** The sequence is one step further, back at the first after its last, and holds no hook. */
    twostate predicate MovedOn(s: StrictSequence)
      reads s
    {
      s.curIdx == (if old(s.AtLastStep()) then 0 else old(s.curIdx) + 1) && s.hooked == null
    }

    /** The strict sequences that give up control when the callback runs, in that order. */
    ghost function Departing(cb: Callback): seq<StrictSequence>
      reads Stricts(cb)
    {
      Leaving(Stricts(cb), Lasts(Stricts(cb)))
    }

    /** Runs a callback, whatever order strict and plain wrappers are nested in.  The strict wrapper unhooks
        itself, runs what it replaced and moves its sequence on; the plain one runs what it found, moves its
        sequence on and puts that back.  It fails exactly if a sequence that is to give up control is not on top
        then; otherwise the spell is cast once, every strict sequence has moved on once, every plain one as
        often as it wraps, and what stays installed is told by the nesting. */
    method Run(cb: Callback, q: QueueAction) returns (ok: bool)
      requires q in pool && InPlace(cb, q) && Distinct(Stricts(cb))
      modifies this, sequences, plains, pool
      ensures queue == old(queue) && pool == old(pool)
      ensures ok <==> old(Tops(controlling, Departing(cb)))
      ensures ok ==> casts == old(casts) + 1
                     && controlling == old(controlling)[..|old(controlling)| - |old(Departing(cb))|]
      ensures ok ==> q.onAction == if cb == Cast then old(q.onAction) else Settles(cb)
      ensures ok ==> forall s :: s in Stricts(cb) ==> MovedOn(s)
      ensures forall s :: s in sequences && s !in Stricts(cb) ==> Untouched(s)
      ensures ok ==> forall p :: p in plains ==> p.curIdx == old(p.curIdx) + Wraps(cb, p)
      ensures forall other :: other in pool && other != q ==> Undisturbed(other)
      decreases cb, 1
    {
      if cb == Cast {
        casts := casts + 1;
        return true;
      }
      if cb.Plainly? {
        var p := cb.plain;
        ok := Run(cb.inner, q);
        if ok {
          p.curIdx := p.curIdx + 1;
          q.onAction := cb.inner;
        }
        return;
      }
      ok := RunStrict(cb, q);
    }

    /** The strict wrapper. */
    method RunStrict(cb: Callback, q: QueueAction) returns (ok: bool)
      requires cb.Strictly? && q in pool && InPlace(cb, q) && Distinct(Stricts(cb))
      modifies this, sequences, plains, pool
      ensures queue == old(queue) && pool == old(pool)
      ensures ok <==> old(Tops(controlling, Departing(cb)))
      ensures ok ==> casts == old(casts) + 1
                     && controlling == old(controlling)[..|old(controlling)| - |old(Departing(cb))|]
      ensures ok ==> q.onAction == Settles(cb)
      ensures ok ==> forall s :: s in Stricts(cb) ==> MovedOn(s)
      ensures forall s :: s in sequences && s !in Stricts(cb) ==> Untouched(s)
      ensures ok ==> forall p :: p in plains ==> p.curIdx == old(p.curIdx) + Wraps(cb, p)
      ensures forall other :: other in pool && other != q ==> Undisturbed(other)
      decreases cb, 0
    {
      hide Settles, Beneath, AllOn, Tops, Stricts, Wraps, Departing, InPlace;
      var s := cb.strict;
      OutermostInPlace(cb, q);
      ghost var first := Departing(cb.inner);
      TopsOneMore(controlling, first, s);
      if s.hooked == q {
        Unhook(s);
      }
      InnerInPlace(cb, q);
      assert Departing(cb.inner) == first;
      ok := Run(cb.inner, q);
      if ok {
        ok := Advance(s);
      }
    }

    lemma OutermostInPlace(cb: Callback, q: QueueAction)
      requires cb.Strictly? && InPlace(cb, q) && Distinct(Stricts(cb))
      ensures Stricts(cb) == [cb.strict] + Stricts(cb.inner) && cb.strict !in Stricts(cb.inner) && Distinct(Stricts(cb.inner))
      ensures Departing(cb) == if cb.strict.AtLastStep() then Departing(cb.inner) + [cb.strict] else Departing(cb.inner)
      ensures forall t :: t in Stricts(cb.inner) ==> t in sequences && t.hooked == q
      ensures forall i :: 1 <= i < |Stricts(cb)| ==> Stricts(cb)[i] in Stricts(cb.inner) && Stricts(cb)[i].hookedOnAction == Beneath(cb, i)
      ensures AllOn(cb, q, plains) && cb.on == q && cb.strict in sequences && cb.strict.hooked == q && cb.strict.hookedOnAction == cb.inner
      ensures Settles(cb) == if cb.inner == Cast then Cast else Settles(cb.inner)
      ensures forall p :: Wraps(cb, p) == Wraps(cb.inner, p)
    {
      var all, rest := Stricts(cb), Stricts(cb.inner);
      assert all[0] == cb.strict && all[1..] == rest && forall i :: 0 <= i < |rest| ==> rest[i] == all[i + 1];
    }

    lemma InnerInPlace(cb: Callback, q: QueueAction)
      requires cb.Strictly? && AllOn(cb, q, plains)
      requires forall t :: t in Stricts(cb.inner) ==> t in sequences && t.hooked == q
      requires forall i :: 1 <= i < |Stricts(cb)| ==> Stricts(cb)[i].hookedOnAction == Beneath(cb, i)
      ensures InPlace(cb.inner, q)
    {
      forall i | 0 <= i < |Stricts(cb.inner)|
        ensures var s := Stricts(cb.inner)[i]; s in sequences && s.hooked == q && s.hookedOnAction == Beneath(cb.inner, i)
      {
        assert Stricts(cb)[i + 1] == Stricts(cb.inner)[i];
      }
    }

    /** The queued action fires.  It fails exactly if a sequence that hooks it is at its last step and not on top;
        otherwise the spell is cast once, the callback is the cast itself again, every sequence that wrapped it has
        moved on once, the strict ones are unhooked, and the rotation is valid. */
    method Fire() returns (ok: bool)
      requires Valid() && queue != null
      modifies this, sequences, plains, pool
      ensures queue == old(queue) && pool == old(pool)
      ensures var owners, last := old(queue.owners), old(Lasts(queue.owners));
              ok <==> NoneBelow(last) && (owners != [] && last[0] ==> old(OnTop(owners[0])))
      ensures ok ==> Valid() && casts == old(casts) + 1 && queue.onAction == Cast
      ensures ok ==> controlling == if old(queue.owners != [] && queue.owners[0].AtLastStep()) then old(controlling)[..|old(controlling)| - 1]
                                    else old(controlling)
      ensures ok ==> forall s :: s in old(queue.owners) ==> MovedOn(s)
      ensures forall s :: s in sequences && s !in old(queue.owners) ==> Untouched(s)
      ensures ok ==> forall p :: p in plains ==>
                p.curIdx == old(p.curIdx) + if old(queue.base.Plainly? && queue.base.plain == p) then 1 else 0
    {
      hide Valid, InPlace, Tops, Leaving, Settles, Wraps, AllOn, Stricts, NoneTwice, InOrder, Wrap, Distinct, NoneBelow;
      ghost var owners, last := queue.owners, Lasts(queue.owners);
      ReadyToFire();
      OnlyOutermostLeaves(owners, last, controlling);
      assert Departing(queue.onAction) == Leaving(owners, last);
      ok := Run(queue.onAction, queue);
      if ok {
        queue.owners, queue.base := [], Cast;
        assert owners != [] ==> last[0] == old(owners[0].AtLastStep());
        LeftFromTop(owners, last, old(controlling), controlling);
        FiredIsValid();
      }
    }

    /** Only the outermost owner has left the stack, if it was at its last step. */
    lemma LeftFromTop(owners: seq<StrictSequence>, last: seq<bool>, stack: seq<Controller>, after: seq<Controller>)
      requires |last| == |owners| && InOrder(owners, stack) && NoneTwice(stack) && NoneBelow(last)
      requires after == if owners != [] && last[0] then stack[..|stack| - 1] else stack
      requires owners != [] && last[0] ==> IsTop(stack, owners[0])
      ensures forall i :: 0 <= i < |owners| && Strict(owners[i]) !in after ==> last[i]
    {
      OwnersControl(owners, stack);
      if stack != [] {
        LastLeaves(stack);
      }
    }

    lemma ReadyToFire()
      requires Valid() && queue != null
      ensures queue in pool && InPlace(queue.onAction, queue) && Stricts(queue.onAction) == queue.owners && Distinct(queue.owners)
      ensures InOrder(queue.owners, controlling) && NoneTwice(controlling)
      ensures Settles(queue.onAction) == Cast && (queue.onAction == Cast ==> queue.owners == [])
      ensures forall p :: Wraps(queue.onAction, p) == if queue.base.Plainly? && queue.base.plain == p then 1 else 0
    {
      assert WellWrapped(queue);
      Wrapping(queue.owners, queue, queue.base, plains);
      OwnersControl(queue.owners, controlling);
      forall i | 0 <= i < |queue.owners|
        ensures var s := queue.owners[i]; s in sequences && s.hooked == queue && s.hookedOnAction == Wrap(queue.owners[i + 1..], queue, queue.base)
      {
        assert Owns(queue, i);
      }
    }

    /** The rotation after a callback has run without failing. */
    twostate lemma FiredIsValid()
      requires old(Valid()) && queue != null && queue == old(queue) && pool == old(pool)
      requires queue.onAction == Cast && queue.owners == [] && queue.base == Cast
      requires forall q :: q in pool && q != queue ==> Undisturbed(q)
      requires forall s :: s in sequences && s !in old(queue.owners) ==> Untouched(s)
      requires forall s :: s in old(queue.owners) ==> MovedOn(s)
      requires controlling == old(controlling) ||
               (old(queue.owners != [] && queue.owners[0].AtLastStep() && OnTop(queue.owners[0])) && controlling == old(controlling)[..|old(controlling)| - 1])
      requires forall i :: 0 <= i < |old(queue.owners)| && Strict(old(queue.owners)[i]) !in controlling ==> old(Lasts(queue.owners))[i]
      ensures Valid()
    {
      ghost var owners := old(queue.owners);
      assert old(WellWrapped(queue));
      OwnersControl(owners, old(controlling));
      if old(controlling) != [] {
        LastLeaves(old(controlling));
      }
      forall i | 0 <= i < |owners| ensures owners[i] in sequences && old(owners[i].hooked) == queue {
        assert old(Owns(queue, i));
      }
      forall q | q in pool ensures WellWrapped(q) {
        assert old(WellWrapped(q));
        if q != queue {
          forall i | 0 <= i < |q.owners| ensures Owns(q, i) && q.owners[i] !in owners {
            assert old(Owns(q, i));
          }
          if controlling != old(controlling) {
            NotOnTop(q.owners, old(controlling), owners[0]);
          }
        }
      }
      forall t | t in sequences ensures Hooks(t) && t.curIdx < t.steps {
        assert old(Hooks(t));
      }
    }

    /** A step sits in the queue while the rotation is asked again and again, and fires then: however often that
        was, the sequence is one step further and the callback is the cast itself.  It fails exactly if a sequence
        beneath hooked the same action and is at its last step. */
    method HoldAndFire(s: StrictSequence, asked: nat, looks: nat -> Look) returns (ok: bool)
      requires Valid() && queue != null && s in sequences && OnTop(s) && asked > 0
      requires forall h :: !looks(h).ready && looks(h).queuedNow
      modifies this, sequences, plains, pool
      ensures queue == old(queue) && pool == old(pool)
      ensures ok <==> forall o :: o in old(queue.owners) && o != s ==> !old(o.AtLastStep())
      ensures ok ==> Valid() && MovedOn(s) && queue.onAction == Cast && casts == old(casts) + 1
      ensures ok ==> controlling == if old(s.AtLastStep()) then old(controlling)[..|old(controlling)| - 1] else old(controlling)
    {
      HoldQueued(s, asked, looks);
      OnlyOutermostHooks(s);
      ok := Fire();
    }

    /** Asked again and again, the sequence on top holds its hook. */
    method HoldQueued(s: StrictSequence, asked: nat, looks: nat -> Look)
      requires Valid() && queue != null && s in sequences && OnTop(s) && asked > 0
      requires forall h :: !looks(h).ready && looks(h).queuedNow
      modifies this, sequences, pool
      ensures Valid() && queue == old(queue) && pool == old(pool) && casts == old(casts)
      ensures controlling == old(controlling) && s.curIdx == old(s.curIdx)
      ensures forall o :: o in old(queue.owners) ==> o.curIdx == old(o.curIdx)
      ensures queue.owners == (if old(s.hooked == queue) then old(queue.owners) else [s] + old(queue.owners))
      ensures s.hooked == queue && queue.owners != [] && queue.owners[0] == s
    {
      hide Valid;
      OwnersOnStack();
      var n := 0;
      while n < asked
        invariant 0 <= n <= asked
        invariant Valid() && queue == old(queue) && pool == old(pool) && casts == old(casts)
        invariant controlling == old(controlling) && s.curIdx == old(s.curIdx)
        invariant forall i :: 0 <= i < |controlling| - 1 && controlling[i].Strict? ==> Untouched(controlling[i].s)
        invariant queue.owners == (if n == 0 || old(s.hooked == queue) then old(queue.owners) else [s] + old(queue.owners))
        invariant if n == 0 then s.hooked == old(s.hooked) else s.hooked == queue && queue.owners != [] && queue.owners[0] == s
      {
        var next := GetNextAction(looks);
        n := n + 1;
      }
    }

    lemma OwnersOnStack()
      requires Valid() && queue != null
      ensures forall o :: o in queue.owners ==> exists i :: 0 <= i < |controlling| && controlling[i] == Strict(o)
    {
      assert WellWrapped(queue);
      OwnersControl(queue.owners, controlling);
    }

    lemma OnlyOutermostHooks(s: StrictSequence)
      requires Valid() && queue != null && queue.owners != [] && queue.owners[0] == s
      ensures NoneBelow(Lasts(queue.owners)) <==> forall o :: o in queue.owners && o != s ==> !o.AtLastStep()
    {
      assert WellWrapped(queue);
      OwnersControl(queue.owners, controlling);
      var last := Lasts(queue.owners);
      if NoneBelow(last) {
        forall o | o in queue.owners && o != s ensures !o.AtLastStep() {
          var i :| 0 <= i < |queue.owners| && queue.owners[i] == o;
          assert !last[i];
        }
      }
    }

    // ---- a new iteration

    /** The last of the first n sequences a reset reaches that hook the action; -1 if none does. */
    ghost function LastHooking(q: QueueAction, n: nat): (j: int)
      requires n <= |reached|
      reads reached
      ensures -1 <= j < n && (j >= 0 ==> reached[j].hooked == q) && forall k :: j < k < n ==> reached[k].hooked != q
    {
      if n == 0 then -1 else if reached[n - 1].hooked == q then n - 1 else LastHooking(q, n - 1)
    }

    /** Of the sequences that hook the action, the innermost is reset last. */
    ghost predicate InnermostLast(q: QueueAction)
      reads this, q, reached
    {
      q.owners != [] ==> var j := LastHooking(q, |reached|); j >= 0 && reached[j] == q.owners[|q.owners| - 1]
    }

    /** A new iteration.  The sequences of the priority list and the groups go back to the first step and put back
        what their hooks replaced; those of the prepull actions stay as they are.  The rotation is valid again
        exactly if every prepull sequence was at its first step and unhooked, and each action's innermost hook is
        put back last. */
    method Reset()
      requires Valid() && Distinct(sequences)
      modifies this, reached, pool
      ensures controlling == [] && queue == old(queue) && pool == old(pool) && casts == old(casts)
      ensures forall s :: s in reached ==> AtRest(s)
      ensures forall s :: s in prepull ==> Untouched(s)
      ensures forall q :: q in pool ==> q.onAction == old(LeftBy(q, |reached|))
      ensures Valid() <==> (forall s :: s in prepull ==> old(AtRest(s))) && forall q :: q in pool ==> old(InnermostLast(q))
    {
      ReachedAreKnown();
      controlling := [];
      PutBackAll();
      forall q | q in pool {
        q.owners := [];
      }
      ResetIsValid();
    }

    /** The reset of the sequences reached, in turn. */
    method PutBackAll()
      requires Distinct(reached) && forall j :: 0 <= j < |reached| ==> reached[j].hooked != null ==> reached[j].hooked in pool
      modifies reached, pool
      ensures forall s :: s in reached ==> AtRest(s)
      ensures forall q :: q in pool ==> q.base == old(q.base) && q.onAction == old(LeftBy(q, |reached|))
    {
      LeftByOneMore();
      hide LeftBy, Distinct;
      assert forall i, j :: 0 <= i < j < |reached| ==> reached[i] != reached[j] by { DistinctMeans(reached); }
      var i := 0;
      while i < |reached|
        invariant 0 <= i <= |reached|
        invariant forall j :: 0 <= j < i ==> AtRest(reached[j])
        invariant forall j :: i <= j < |reached| ==> Untouched(reached[j])
        invariant forall q :: q in pool ==> q.base == old(q.base) && q.onAction == old(LeftBy(q, i))
      {
        var s := reached[i];
        assert Untouched(s);
        s.curIdx := 0;
        Unhook(s);
        i := i + 1;
      }
    }

    lemma DistinctMeans(s: seq<StrictSequence>)
      requires Distinct(s)
      ensures forall i, j :: 0 <= i < j < |s| ==> s[i] != s[j]
    {
    }

    lemma LeftByOneMore()
      ensures forall q :: q in pool ==> LeftBy(q, 0) == q.onAction
      ensures forall q, i :: q in pool && 0 <= i < |reached| ==>
                LeftBy(q, i + 1) == if reached[i].hooked == q then reached[i].hookedOnAction else LeftBy(q, i)
    {
    }

    /** The callback that resetting the first n sequences leaves. */
    ghost function LeftBy(q: QueueAction, n: nat): Callback
      requires n <= |reached|
      reads q, reached
    {
      var j := LastHooking(q, n);
      if j >= 0 then reached[j].hookedOnAction else q.onAction
    }

    lemma ReachedAreKnown()
      requires Valid() && Distinct(sequences)
      ensures Distinct(reached) && forall j :: 0 <= j < |reached| ==> reached[j] in sequences && (reached[j].hooked != null ==> reached[j].hooked in pool)
      ensures forall s :: s in prepull ==> s !in reached
    {
      forall j | 0 <= j < |reached| ensures reached[j] in sequences && (reached[j].hooked != null ==> reached[j].hooked in pool) {
        assert sequences[j] == reached[j] && Hooks(reached[j]);
      }
      assert forall i, j :: 0 <= i < j < |reached| ==> sequences[i] == reached[i] && sequences[j] == reached[j];
      forall s | s in prepull ensures s !in reached {
        var k :| 0 <= k < |prepull| && prepull[k] == s;
        assert sequences[|reached| + k] == s;
        assert forall j :: 0 <= j < |reached| ==> sequences[j] == reached[j];
      }
    }

    twostate lemma ResetIsValid()
      requires old(Valid()) && Distinct(sequences) && controlling == [] && queue == old(queue) && pool == old(pool)
      requires forall s :: s in reached ==> AtRest(s)
      requires forall s :: s in prepull ==> Untouched(s)
      requires forall q :: q in pool ==>
                 q.owners == [] && q.base == old(q.base) && q.onAction == old(LeftBy(q, |reached|))
      ensures Valid() <==> (forall s :: s in prepull ==> old(AtRest(s))) && forall q :: q in pool ==> old(InnermostLast(q))
    {
      assert forall s :: s in sequences <==> s in reached || s in prepull;
      if forall s :: s in prepull ==> old(AtRest(s)) {
        forall q | q in pool ensures WellWrapped(q) <==> old(InnermostLast(q)) {
          assert old(WellWrapped(q));
          OwnersControl(old(q.owners), old(controlling));
          PutBack(q);
        }
        assert forall s :: s in sequences ==> old(s.curIdx < s.steps);
        assert forall s :: s in sequences ==> Hooks(s) && AtRest(s) && s.curIdx < s.steps;
        assert queue != null ==> queue in pool;
      } else {
        assert exists s :: s in sequences && !AtRest(s);
      }
    }

    /** What is put back on one action when all sequences are at rest in the end. */
    twostate lemma PutBack(q: QueueAction)
      requires old(WellWrapped(q)) && controlling == [] && q.owners == [] && q.base == old(q.base)
      requires forall s :: s in sequences ==> s in reached || old(s.hooked) == null
      requires old(forall s :: s in sequences && s.hooked == q ==> s in q.owners) && forall s :: s in reached ==> s in sequences
      requires Distinct(old(q.owners))
      requires q.onAction == old(LeftBy(q, |reached|))
      ensures WellWrapped(q) <==> old(InnermostLast(q))
    {
      ghost var owners := old(q.owners);
      ghost var j := old(LastHooking(q, |reached|));
      assert Wrap([], q, q.base) == q.base;
      if owners == [] {
        assert j < 0;
      } else {
        ghost var n := |owners| - 1;
        assert old(Owns(q, n));
        ghost var k :| 0 <= k < |reached| && reached[k] == owners[n];
        assert j >= 0;
        ghost var i :| 0 <= i < |owners| && owners[i] == reached[j];
        assert old(Owns(q, i));
        assert i == n ==> owners[i + 1..] == [];
        assert i < n ==> Wrap(owners[i + 1..], q, q.base).Strictly?;
      }
    }
  }

  // ---------------------------------------------------------------- what goes wrong

  /** A look that finds the step ready to be cast. */
  function Ready(h: nat): Look {
    Look(true, true, false, false, true, false, false, false, false, false, false)
  }

  /** A prepull sequence of two steps that has cast the first when the iteration ends: the reset takes it off the
      stack but does not reach it, and the next prepull begins with its second step. */
  method LeftOver() returns (rotation: Rotation, s: StrictSequence, first: Next, second: Next)
    ensures first == Step(s, 0) && second == Step(s, 1) && rotation.prepull == [s]
  {
    s := new StrictSequence(2);
    rotation := new Rotation([], [s], []);
    assert s in rotation.sequences && rotation.Valid();
    rotation.Begin(s);
    first := CastStep(rotation, s);
    rotation.Reset();
    assert s.curIdx == 1 && !rotation.Valid();
    rotation.Begin(s);
    second := CastStep(rotation, s);
  }

  method CastStep(rotation: Rotation, s: StrictSequence) returns (next: Next)
    requires rotation.Valid() && s in rotation.sequences && rotation.OnTop(s) && rotation.queue == null
    modifies rotation, rotation.sequences, rotation.pool
    ensures rotation.Valid() && rotation.pool == old(rotation.pool) && rotation.queue == null
    ensures next == Step(s, old(s.curIdx)) && (!old(s.AtLastStep()) ==> s.curIdx == old(s.curIdx) + 1 && s.hooked == old(s.hooked))
  {
    next := rotation.GetNextAction(Ready);
  }

  /** A look that finds the step in the spell queue. */
  function Waiting(h: nat): Look {
    Look(false, false, false, false, true, true, false, false, false, false, false)
  }

  /** Two sequences in control hook one action, and the reset reaches the outer one last: what the outer one's
      hook replaced, the inner one's wrapper, is what it leaves on the action, though no sequence hooks it. */
  method StaleHook() returns (rotation: Rotation, inner: StrictSequence, q: QueueAction)
    ensures q in rotation.pool && q.onAction == Strictly(inner, q, Cast)
    ensures forall s :: s in rotation.sequences ==> rotation.AtRest(s)
    ensures !rotation.Valid()
  {
    hide Rotation.Valid, Rotation.LeftBy, Rotation.InnermostLast, Distinct, Wrap;
    inner := new StrictSequence(2);
    var outer := new StrictSequence(2);
    rotation := new Rotation([inner, outer], [], []);
    assert rotation.sequences == [inner, outer];
    assert inner in rotation.sequences && outer in rotation.sequences by {
      assert rotation.sequences[0] == inner && rotation.sequences[1] == outer;
    }
    q := HookBoth(rotation, inner, outer);
    StaleFacts(rotation, inner, outer, q);
    rotation.Reset();
  }

  /** One sequence takes control and hooks a queued action, then another takes control and hooks it too. */
  method HookBoth(rotation: Rotation, inner: StrictSequence, outer: StrictSequence) returns (q: QueueAction)
    requires rotation.Valid() && rotation.controlling == [] && inner in rotation.sequences && outer in rotation.sequences && inner != outer
    modifies rotation, rotation.sequences, rotation.pool
    ensures rotation.Valid() && q in rotation.pool && q.owners == [outer, inner] && fresh(rotation.pool - old(rotation.pool))
  {
    hide Rotation.Valid;
    OffStack(rotation, inner);
    rotation.Begin(inner);
    rotation.Queue(false);
    q := rotation.queue;
    NoOwners(rotation, q);
    rotation.HoldQueued(inner, 1, Waiting);
    OffStack(rotation, outer);
    rotation.Begin(outer);
    rotation.HoldQueued(outer, 1, Waiting);
    Pooled(rotation);
  }

  lemma OffStack(rotation: Rotation, s: StrictSequence)
    requires rotation.Valid() && s in rotation.sequences && Strict(s) !in rotation.controlling
    ensures rotation.StackValid() && s.hooked == null
  {
    assert rotation.AtRest(s);
  }

  lemma Pooled(rotation: Rotation)
    requires rotation.Valid() && rotation.queue != null
    ensures rotation.queue in rotation.pool
  {
  }

  lemma NoOwners(rotation: Rotation, q: QueueAction)
    requires rotation.Valid() && q in rotation.pool && q.onAction == Cast
    ensures q.owners == []
  {
    assert rotation.WellWrapped(q);
  }

  /** The outer hook replaced the inner one's wrapper, and is the last a reset takes off. */
  lemma StaleFacts(rotation: Rotation, inner: StrictSequence, outer: StrictSequence, q: QueueAction)
    requires rotation.Valid() && q in rotation.pool && q.owners == [outer, inner]
    requires rotation.reached == [inner, outer] && rotation.prepull == [] && rotation.plains == [] && inner != outer
    ensures rotation.LeftBy(q, 2) == Strictly(inner, q, Cast) && !rotation.InnermostLast(q) && Distinct(rotation.sequences)
  {
    assert rotation.WellWrapped(q) && rotation.Owns(q, 0) && rotation.Owns(q, 1) && q.base == Cast;
    assert [outer, inner][1..] == [inner] && [inner][1..] == [];
    assert Wrap([inner], q, Cast) == Strictly(inner, q, Cast);
    assert rotation.LastHooking(q, 2) == 1;
    assert rotation.sequences == [inner, outer];
  }

  /** A plain sequence whose step is a plain sequence: once the spell it queued has been cast, the inner one's
      wrapper stays on the queue action. */
  method NestedPlains() returns (rotation: Rotation, q: QueueAction, inner: PlainSequence)
    ensures q in rotation.pool && q.onAction == Plainly(inner, q, Cast)
  {
    hide Rotation.Valid;
    inner := new PlainSequence(2);
    var outer := new PlainSequence(2);
    rotation := new Rotation([], [], [inner, outer]);
    rotation.Queue(false);
    q := rotation.queue;
    assert rotation.plains[0] == inner && rotation.plains[1] == outer;
    rotation.ExecutePlain(inner, true);
    assert q.onAction == Plainly(inner, q, Cast);
    rotation.ExecutePlain(outer, true);
    TwoPlains(rotation, inner, outer, q);
    var ok := rotation.Run(q.onAction, q);
  }

  lemma TwoPlains(rotation: Rotation, inner: PlainSequence, outer: PlainSequence, q: QueueAction)
    requires inner in rotation.plains && outer in rotation.plains
    ensures var cb := Plainly(outer, q, Plainly(inner, q, Cast)); Stricts(cb) == [] && rotation.InPlace(cb, q)
  {
    var cb := Plainly(outer, q, Plainly(inner, q, Cast));
    assert Stricts(cb) == Stricts(Plainly(inner, q, Cast)) == Stricts(Cast) == [];
  }
}

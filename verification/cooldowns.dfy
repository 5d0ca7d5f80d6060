/** The major cooldowns a character uses on its own: a list kept sorted by ready time, whose least ready time is
    cached, and timers that spells share. */
module Cooldowns {
  import opened Common

  const START: int := -3_600_000_000_000
  const GCD_MIN: int := 1_000_000_000

  datatype ActionID = ActionID(spell: int, item: int, other: int, tag: int)

  predicate SameIgnoringTag(a: ActionID, b: ActionID) {
    a.spell == b.spell && a.item == b.item && a.other == b.other
  }

  /** A spell's own cooldown and its shared one are timers by number. */
  datatype MajorCooldown = MajorCooldown(
    id: ActionID, cd: Option<nat>, shared: Option<nat>, priority: int, reactive: bool, explosive: bool, castTime: int,
    disableAutocast: bool, timings: seq<int>, numUsages: nat)

  predicate Autocasts(m: MajorCooldown) {
    m.numUsages < |m.timings| || !m.disableAutocast
  }

  // ---------------------------------------------------------------- timers

  predicate TimersOf(m: MajorCooldown, timers: seq<int>) {
    (m.cd.Some? ==> m.cd.value < |timers|) && (m.shared.Some? ==> m.shared.value < |timers|)
  }

  function ReadyAt(m: MajorCooldown, timers: seq<int>): int
    requires TimersOf(m, timers)
  {
    var own := if m.cd.Some? then timers[m.cd.value] else START;
    if m.shared.Some? then Max(own, timers[m.shared.value]) else own
  }

  predicate IsReady(m: MajorCooldown, timers: seq<int>, now: int)
    requires TimersOf(m, timers)
  {
    (m.cd.None? || timers[m.cd.value] <= now) && (m.shared.None? || timers[m.shared.value] <= now)
  }

  function TimeToReady(m: MajorCooldown, timers: seq<int>, now: int): int
    requires TimersOf(m, timers)
  {
    var own := if m.cd.Some? then Max(0, timers[m.cd.value] - now) else 0;
    if m.shared.Some? then Max(own, Max(0, timers[m.shared.value] - now)) else own
  }

  /** The three ways to ask whether a spell is ready agree from the start of the prepull on, and before it
      unless the spell has no cooldown of its own. */
  lemma ReadyAgrees(m: MajorCooldown, timers: seq<int>, now: int)
    requires TimersOf(m, timers)
    ensures IsReady(m, timers, now) <==> TimeToReady(m, timers, now) == 0
    ensures now >= START || m.cd.Some? ==> (IsReady(m, timers, now) <==> ReadyAt(m, timers) <= now)
    ensures now >= START || m.cd.Some? ==> TimeToReady(m, timers, now) == Max(0, ReadyAt(m, timers) - now)
  {
  }

  // ---------------------------------------------------------------- the order

  /** By ready time, and at the same time by priority, the higher first. */
  predicate Before(a: MajorCooldown, b: MajorCooldown, timers: seq<int>)
    requires TimersOf(a, timers) && TimersOf(b, timers)
  {
    ReadyAt(a, timers) < ReadyAt(b, timers) || (ReadyAt(a, timers) == ReadyAt(b, timers) && a.priority > b.priority)
  }

  ghost predicate AllTimed(list: seq<MajorCooldown>, timers: seq<int>) {
    forall i :: 0 <= i < |list| ==> TimersOf(list[i], timers)
  }

  ghost predicate Sorted(list: seq<MajorCooldown>, timers: seq<int>)
    requires AllTimed(list, timers)
  {
    forall i, j :: 0 <= i < j < |list| ==> !Before(list[j], list[i], timers)
  }

  /** Those of a list with a given ready time and priority, in order. */
  ghost function Ties(list: seq<MajorCooldown>, timers: seq<int>, readyAt: int, priority: int): seq<MajorCooldown>
    requires AllTimed(list, timers)
  {
    if list == [] then []
    else
      var rest := Ties(list[..|list| - 1], timers, readyAt, priority);
      var last := list[|list| - 1];
      if ReadyAt(last, timers) == readyAt && last.priority == priority then rest + [last] else rest
  }

  lemma {:induction false} TiesJoin(a: seq<MajorCooldown>, b: seq<MajorCooldown>, timers: seq<int>, readyAt: int, priority: int)
    requires AllTimed(a, timers) && AllTimed(b, timers)
    ensures AllTimed(a + b, timers)
    ensures Ties(a + b, timers, readyAt, priority) == Ties(a, timers, readyAt, priority) + Ties(b, timers, readyAt, priority)
  {
    if b == [] {
      assert a + b == a;
    } else {
      assert (a + b)[..|a + b| - 1] == a + b[..|b| - 1];
      TiesJoin(a, b[..|b| - 1], timers, readyAt, priority);
    }
  }

  /** A stable sort: each element in turn moves down past those it comes before. */
  method Sort(list: seq<MajorCooldown>, timers: seq<int>) returns (sorted: seq<MajorCooldown>)
    requires AllTimed(list, timers)
    ensures multiset(sorted) == multiset(list) && |sorted| == |list|
    ensures AllTimed(sorted, timers) && Sorted(sorted, timers)
    ensures SameTies(sorted, list, timers)
  {
    hide Before, ReadyAt, TimersOf, Ties, Sorted;
    sorted := [];
    assert Sorted([], timers) by { EmptySorted(timers); }
    for n := 0 to |list|
      invariant multiset(sorted) == multiset(list[..n]) && |sorted| == n
      invariant AllTimed(sorted, timers) && Sorted(sorted, timers)
      invariant SameTies(sorted, list[..n], timers)
    {
      var x := list[n];
      var k := n;
      while k > 0 && Before(x, sorted[k - 1], timers)
        invariant 0 <= k <= n
        invariant forall i :: k <= i < n ==> Before(x, sorted[i], timers)
      {
        k := k - 1;
      }
      Inserted(sorted, x, k, timers);
      InsertionKeeps(sorted, x, k);
      assert list[..n + 1] == list[..n] + [x];
      TiesStay(sorted, list[..n], x, k, timers);
      sorted := Insertion(sorted, x, k);
    }
    assert list[..|list|] == list;
  }

  lemma EmptySorted(timers: seq<int>)
    ensures Sorted([], timers)
  {
  }

  /** Cooldowns of the same ready time and priority come in the same order in both lists. */
  ghost predicate SameTies(a: seq<MajorCooldown>, b: seq<MajorCooldown>, timers: seq<int>) {
    AllTimed(a, timers) && AllTimed(b, timers)
    && forall readyAt, priority :: Ties(a, timers, readyAt, priority) == Ties(b, timers, readyAt, priority)
  }

  lemma TiesStay(s: seq<MajorCooldown>, list: seq<MajorCooldown>, x: MajorCooldown, k: nat, timers: seq<int>)
    requires SameTies(s, list, timers) && k <= |s| && TimersOf(x, timers)
    requires forall i :: k <= i < |s| ==> Before(x, s[i], timers)
    ensures SameTies(Insertion(s, x, k), list + [x], timers)
  {
    hide Before, ReadyAt, Ties;
    forall readyAt, priority
      ensures Ties(Insertion(s, x, k), timers, readyAt, priority) == Ties(list + [x], timers, readyAt, priority)
    {
      InsertedTies(s, x, k, timers, readyAt, priority);
      TiesJoin(list, [x], timers, readyAt, priority);
    }
  }

  function Insertion(s: seq<MajorCooldown>, x: MajorCooldown, k: nat): (r: seq<MajorCooldown>)
    requires k <= |s|
    ensures |r| == |s| + 1 && forall i :: 0 <= i < |r| ==> r[i] == if i < k then s[i] else if i == k then x else s[i - 1]
  {
    s[..k] + [x] + s[k..]
  }

  lemma InsertionKeeps(s: seq<MajorCooldown>, x: MajorCooldown, k: nat)
    requires k <= |s|
    ensures multiset(Insertion(s, x, k)) == multiset(s) + multiset{x}
  {
    assert s == s[..k] + s[k..];
  }

  lemma Inserted(s: seq<MajorCooldown>, x: MajorCooldown, k: nat, timers: seq<int>)
    requires k <= |s| && AllTimed(s, timers) && TimersOf(x, timers) && Sorted(s, timers)
    requires forall i :: k <= i < |s| ==> Before(x, s[i], timers)
    requires k > 0 ==> !Before(x, s[k - 1], timers)
    ensures AllTimed(Insertion(s, x, k), timers) && Sorted(Insertion(s, x, k), timers)
  {
    var r := Insertion(s, x, k);
    assert AllTimed(r, timers);
    forall i, j | 0 <= i < j < |r| ensures !Before(r[j], r[i], timers) {
      if j < k {
        assert !Before(s[j], s[i], timers);
      } else if j == k {
        assert i < k - 1 ==> !Before(s[k - 1], s[i], timers);
        NotBefore(x, s[k - 1], s[i], timers);
      } else if i < k {
        assert !Before(s[j - 1], s[i], timers);
      } else if i == k {
        assert Before(x, s[j - 1], timers);
      } else {
        assert !Before(s[j - 1], s[i - 1], timers);
      }
    }
  }

  lemma NotBefore(x: MajorCooldown, y: MajorCooldown, z: MajorCooldown, timers: seq<int>)
    requires TimersOf(x, timers) && TimersOf(y, timers) && TimersOf(z, timers)
    requires !Before(x, y, timers) && (y == z || !Before(y, z, timers))
    ensures !Before(x, z, timers)
  {
  }

  lemma {:induction false} NoTies(s: seq<MajorCooldown>, timers: seq<int>, readyAt: int, priority: int)
    requires AllTimed(s, timers)
    requires forall i :: 0 <= i < |s| ==> ReadyAt(s[i], timers) != readyAt || s[i].priority != priority
    ensures Ties(s, timers, readyAt, priority) == []
  {
    if s != [] {
      NoTies(s[..|s| - 1], timers, readyAt, priority);
    }
  }

  /** What x moves past has other keys. */
  lemma InsertedTies(s: seq<MajorCooldown>, x: MajorCooldown, k: nat, timers: seq<int>, readyAt: int, priority: int)
    requires k <= |s| && AllTimed(s, timers) && TimersOf(x, timers)
    requires forall i :: k <= i < |s| ==> Before(x, s[i], timers)
    requires AllTimed(Insertion(s, x, k), timers)
    ensures Ties(Insertion(s, x, k), timers, readyAt, priority) == Ties(s, timers, readyAt, priority) + Ties([x], timers, readyAt, priority)
  {
    hide Ties, ReadyAt, TimersOf;
    var front, back := s[..k], s[k..];
    assert s == front + back;
    assert Insertion(s, x, k) == (front + [x]) + back;
    forall i | 0 <= i < |back| ensures Before(x, back[i], timers) {
      assert back[i] == s[k + i];
    }
    TiesMove(front, x, back, timers, readyAt, priority);
  }

  lemma TiesMove(front: seq<MajorCooldown>, x: MajorCooldown, back: seq<MajorCooldown>, timers: seq<int>, readyAt: int, priority: int)
    requires AllTimed(front, timers) && AllTimed(back, timers) && TimersOf(x, timers)
    requires forall i :: 0 <= i < |back| ==> Before(x, back[i], timers)
    ensures AllTimed((front + [x]) + back, timers) && AllTimed(front + back, timers)
    ensures Ties((front + [x]) + back, timers, readyAt, priority) == Ties(front + back, timers, readyAt, priority) + Ties([x], timers, readyAt, priority)
  {
    hide Ties, Before, ReadyAt;
    assert AllTimed([x], timers);
    TiesJoin(front, [x], timers, readyAt, priority);
    TiesJoin(front + [x], back, timers, readyAt, priority);
    TiesJoin(front, back, timers, readyAt, priority);
    OneOfTwo(x, back, timers, readyAt, priority);
    Moved(Ties(front, timers, readyAt, priority), Ties([x], timers, readyAt, priority), Ties(back, timers, readyAt, priority));
  }

  lemma OneOfTwo(x: MajorCooldown, back: seq<MajorCooldown>, timers: seq<int>, readyAt: int, priority: int)
    requires AllTimed(back, timers) && AllTimed([x], timers) && TimersOf(x, timers)
    requires forall i :: 0 <= i < |back| ==> Before(x, back[i], timers)
    ensures Ties([x], timers, readyAt, priority) == [] || Ties(back, timers, readyAt, priority) == []
  {
    TiesOfOne(x, timers, readyAt, priority);
    if ReadyAt(x, timers) == readyAt && x.priority == priority {
      NoTies(back, timers, readyAt, priority);
    }
  }

  lemma Moved<T>(a: seq<T>, t: seq<T>, b: seq<T>)
    requires t == [] || b == []
    ensures (a + t) + b == (a + b) + t
  {
  }

  lemma TiesOfOne(x: MajorCooldown, timers: seq<int>, readyAt: int, priority: int)
    requires TimersOf(x, timers)
    ensures Ties([x], timers, readyAt, priority) == if ReadyAt(x, timers) == readyAt && x.priority == priority then [x] else []
  {
    assert [x][..0] == [];
  }

  // ---------------------------------------------------------------- the list

  /** The cooldowns left when some are taken out, in order. */
  function Kept(list: seq<MajorCooldown>, gone: MajorCooldown -> bool): seq<MajorCooldown> {
    if list == [] then [] else (if gone(list[0]) then [] else [list[0]]) + Kept(list[1..], gone)
  }

  function FirstNamed(list: seq<MajorCooldown>, id: ActionID): Option<nat> {
    if list == [] then None
    else if list[0].id == id then Some(0)
    else match FirstNamed(list[1..], id) case None => None case Some(k) => Some(k + 1)
  }

  /** A variant of an action on its timer: it differs in its tag at most. */
  predicate Variant(m: MajorCooldown, timer: nat, id: ActionID) {
    m.cd == Some(timer) && m.id.(tag := id.tag) == id
  }

  /** The list without the first cooldown of the given name and, if that has a timer, without its variants. */
  function Without(list: seq<MajorCooldown>, id: ActionID): seq<MajorCooldown> {
    match FirstNamed(list, id)
    case None => list
    case Some(k) =>
      FirstNamedIsFirst(list, id);
      var rest := list[..k] + list[k + 1..];
      if list[k].cd.None? then rest else Kept(rest, (m: MajorCooldown) => Variant(m, list[k].cd.value, id))
  }

  lemma {:induction false} FirstNamedIsFirst(list: seq<MajorCooldown>, id: ActionID)
    ensures match FirstNamed(list, id)
            case None => forall i :: 0 <= i < |list| ==> list[i].id != id
            case Some(k) => k < |list| && list[k].id == id && forall i :: 0 <= i < k ==> list[i].id != id
  {
    if list != [] {
      FirstNamedIsFirst(list[1..], id);
      assert forall i :: 1 <= i < |list| ==> list[i] == list[1..][i - 1];
    }
  }

  /** What stays are exactly the cooldowns not taken out. */
  lemma {:induction false} KeptExactly(list: seq<MajorCooldown>, gone: MajorCooldown -> bool, m: MajorCooldown)
    ensures multiset(Kept(list, gone))[m] == if gone(m) then 0 else multiset(list)[m]
  {
    if list != [] {
      KeptExactly(list[1..], gone, m);
      assert list == [list[0]] + list[1..];
      var head := if gone(list[0]) then [] else [list[0]];
      assert multiset(Kept(list, gone)) == multiset(head) + multiset(Kept(list[1..], gone));
    }
  }

  lemma {:induction false} KeptJoins(a: seq<MajorCooldown>, b: seq<MajorCooldown>, gone: MajorCooldown -> bool)
    ensures Kept(a + b, gone) == Kept(a, gone) + Kept(b, gone)
  {
    if a == [] {
      assert a + b == b;
    } else {
      assert (a + b)[1..] == a[1..] + b;
      KeptJoins(a[1..], b, gone);
    }
  }

  class Manager {
    var timers: seq<int>
    var initial: seq<MajorCooldown>
    var cooldowns: seq<MajorCooldown>
    var minReady: int

    ghost predicate Valid()
      reads this
    {
      AllTimed(initial, timers) && AllTimed(cooldowns, timers) && |cooldowns| == |initial|
    }

    /** The cached time is the least ready time of those that can still be used without the rotation. */
    ghost predicate Current()
      requires Valid()
      reads this
    {
      && Sorted(cooldowns, timers)
      && (forall i :: 0 <= i < |cooldowns| && Autocasts(cooldowns[i]) ==> minReady <= ReadyAt(cooldowns[i], timers))
      && (minReady == NEVER_EXPIRES || exists i :: 0 <= i < |cooldowns| && Autocasts(cooldowns[i]) && minReady == ReadyAt(cooldowns[i], timers))
      && ((exists i :: 0 <= i < |cooldowns| && Autocasts(cooldowns[i])) || minReady == NEVER_EXPIRES)
    }

    constructor (timers: seq<int>, initial: seq<MajorCooldown>)
      requires AllTimed(initial, timers)
      ensures Valid() && Current() && multiset(cooldowns) == multiset(initial) && this.initial == initial && this.timers == timers
    {
      this.timers, this.initial, cooldowns := timers, initial, initial;
      minReady := NEVER_EXPIRES;
      new;
      UpdateMajorCooldowns();
    }

    /** Re-sorts the list, by ready time and at the same time the higher priority first, and caches the earliest
        time one of it can be used. */
    method UpdateMajorCooldowns()
      requires Valid()
      modifies `cooldowns, `minReady
      ensures Valid() && Current() && multiset(cooldowns) == multiset(old(cooldowns))
      ensures forall i, j :: 0 <= i < j < |cooldowns| ==>
                && ReadyAt(cooldowns[i], timers) <= ReadyAt(cooldowns[j], timers)
                && (ReadyAt(cooldowns[i], timers) == ReadyAt(cooldowns[j], timers) ==> cooldowns[i].priority >= cooldowns[j].priority)
      ensures SameTies(cooldowns, old(cooldowns), timers)
    {
      cooldowns := Sort(cooldowns, timers);
      minReady := NEVER_EXPIRES;
      var i := 0;
      while i < |cooldowns| && !Autocasts(cooldowns[i])
        invariant 0 <= i <= |cooldowns| && forall j :: 0 <= j < i ==> !Autocasts(cooldowns[j])
      {
        i := i + 1;
      }
      if i < |cooldowns| {
        minReady := ReadyAt(cooldowns[i], timers);
      }
    }

    /** Whether a cooldown may be used now: not turned off, or with uses left at times of their own; both its timers
        run out; at its point of the GCD and with its own conditions met. */
    predicate MayGo(m: MajorCooldown, now: int, gcdLeft: int, shouldActivate: MajorCooldown -> bool)
      requires TimersOf(m, timers)
      reads this
    {
      && (m.disableAutocast ==> |m.timings| > m.numUsages)
      && (m.cd.Some? ==> timers[m.cd.value] <= now) && (m.shared.Some? ==> timers[m.shared.value] <= now)
      && (if m.reactive then true
          else if m.explosive then !(gcdLeft == 0 || (gcdLeft < m.castTime && m.castTime <= GCD_MIN))
          else gcdLeft <= 0)
      && shouldActivate(m)
    }

    /** The first of the whole list that may be used. */
    ghost predicate FirstToGo(found: Option<nat>, now: int, gcdLeft: int, shouldActivate: MajorCooldown -> bool)
      requires Valid()
      reads this
    {
      match found
      case None => forall i :: 0 <= i < |cooldowns| ==> !MayGo(cooldowns[i], now, gcdLeft, shouldActivate)
      case Some(k) => k < |cooldowns| && MayGo(cooldowns[k], now, gcdLeft, shouldActivate)
                      && forall i :: 0 <= i < k ==> !MayGo(cooldowns[i], now, gcdLeft, shouldActivate)
    }

    /** With the ready times unchanged since the last update, or only later, the early exit changes nothing. */
    method GetFirstReady(now: int, gcdLeft: int, shouldActivate: MajorCooldown -> bool) returns (found: Option<nat>)
      requires Valid() && now >= START
      requires forall i :: 0 <= i < |cooldowns| && Autocasts(cooldowns[i]) ==> minReady <= ReadyAt(cooldowns[i], timers)
      ensures FirstToGo(found, now, gcdLeft, shouldActivate)
    {
      if now < minReady {
        forall i | 0 <= i < |cooldowns| ensures !MayGo(cooldowns[i], now, gcdLeft, shouldActivate) {
          ReadyAgrees(cooldowns[i], timers, now);
        }
        return None;
      }
      for i := 0 to |cooldowns|
        invariant forall j :: 0 <= j < i ==> !MayGo(cooldowns[j], now, gcdLeft, shouldActivate)
      {
        var m := cooldowns[i];
        if !Autocasts(m) || !IsReady(m, timers, now) {
          continue;
        }
        if m.reactive {
        } else if m.explosive {
          if gcdLeft == 0 || (gcdLeft < m.castTime && m.castTime <= GCD_MIN) {
            continue;
          }
        } else if gcdLeft > 0 {
          continue;
        }
        if shouldActivate(m) {
          return Some(i);
        }
      }
      found := None;
    }

    /** Any ready time below the cached one is missed at some instant: the early exit is right at all times
        exactly if there is none. */
    lemma StaleMinimumMisses(i: nat, shouldActivate: MajorCooldown -> bool) returns (now: int, gcdLeft: int)
      requires Valid() && i < |cooldowns| && Autocasts(cooldowns[i]) && shouldActivate(cooldowns[i])
      requires START <= ReadyAt(cooldowns[i], timers) < minReady
      ensures now >= START && gcdLeft >= 0 && now < minReady && !FirstToGo(None, now, gcdLeft, shouldActivate)
    {
      var m := cooldowns[i];
      now := ReadyAt(m, timers);
      gcdLeft := if m.explosive then Max(m.castTime, 1) else 0;
      ReadyAgrees(m, timers, now);
      assert MayGo(m, now, gcdLeft, shouldActivate);
    }

    /** A use counts against the timings; it only makes fewer cooldowns usable. */
    method CountUse(k: nat)
      requires Valid() && k < |cooldowns|
      modifies `cooldowns
      ensures Valid() && cooldowns == old(cooldowns)[k := old(cooldowns)[k].(numUsages := old(cooldowns)[k].numUsages + 1)]
      ensures old(Current()) ==> forall i :: 0 <= i < |cooldowns| && Autocasts(cooldowns[i]) ==> minReady <= ReadyAt(cooldowns[i], timers)
    {
      cooldowns := cooldowns[k := cooldowns[k].(numUsages := cooldowns[k].numUsages + 1)];
    }

    /** A timer moves.  Later, it leaves the early exit right; earlier, only an update does. */
    method SetTimer(t: nat, at: int)
      requires Valid() && t < |timers|
      modifies `timers
      ensures Valid() && timers == old(timers)[t := at]
      ensures old(Current()) && at >= old(timers[t]) ==>
                forall i :: 0 <= i < |cooldowns| && Autocasts(cooldowns[i]) ==> minReady <= ReadyAt(cooldowns[i], timers)
    {
      timers := timers[t := at];
      assert forall i :: 0 <= i < |cooldowns| ==> old(TimersOf(cooldowns[i], timers));
    }

    /** The rotation takes over a cooldown: it leaves the list, with its variants on the same timer. */
    method RemoveInitial(id: ActionID)
      requires Valid()
      modifies `initial, `cooldowns
      ensures Valid() && initial == Without(old(initial), id)
      ensures |initial| <= |old(cooldowns)| && cooldowns == old(cooldowns)[..|initial|]
    {
      FirstNamedIsFirst(initial, id);
      var k := 0;
      while k < |initial| && initial[k].id != id
        invariant 0 <= k <= |initial| && forall j :: 0 <= j < k ==> initial[j].id != id
      {
        k := k + 1;
      }
      if k == |initial| {
        return;
      }
      var removed := initial[k].cd;
      initial := initial[..k] + initial[k + 1..];
      cooldowns := cooldowns[..|cooldowns| - 1];
      if removed.Some? {
        RemoveVariants(removed.value, id);
      }
    }

    /** From the back, so that a removal moves only what has been looked at. */
    method RemoveVariants(timer: nat, id: ActionID)
      requires Valid()
      modifies `initial, `cooldowns
      ensures Valid() && initial == Kept(old(initial), (m: MajorCooldown) => Variant(m, timer, id))
      ensures |initial| <= |old(cooldowns)| && cooldowns == old(cooldowns)[..|initial|]
    {
      hide TimersOf, Kept;
      ghost var rest := initial;
      ghost var gone := (m: MajorCooldown) => Variant(m, timer, id);
      KeptNone(gone);
      assert rest[|rest|..] == [] && rest == rest[..|rest|] + [];
      var i := |initial|;
      while i > 0
        invariant 0 <= i <= |initial| <= |rest| && i <= |rest| && Valid()
        invariant initial == rest[..i] + Kept(rest[i..], gone)
        invariant |initial| <= |old(cooldowns)| && cooldowns == old(cooldowns)[..|initial|]
      {
        i := i - 1;
        KeptStep(rest, i, gone);
        assert initial[i] == rest[i] && initial[..i] == rest[..i] && initial[i + 1..] == Kept(rest[i + 1..], gone);
        if initial[i].cd == Some(timer) && SameIgnoringTag(initial[i].id, id) {
          initial := initial[..i] + initial[i + 1..];
          cooldowns := cooldowns[..|cooldowns| - 1];
        }
      }
    }
  }

  lemma KeptStep(list: seq<MajorCooldown>, i: nat, gone: MajorCooldown -> bool)
    requires i < |list|
    ensures Kept(list[i..], gone) == (if gone(list[i]) then [] else [list[i]]) + Kept(list[i + 1..], gone)
    ensures list[..i + 1] == list[..i] + [list[i]]
  {
    assert list[i..] == [list[i]] + list[i + 1..];
  }

  lemma KeptNone(gone: MajorCooldown -> bool)
    ensures Kept([], gone) == []
  {
  }

  lemma TakenOut(list: seq<MajorCooldown>, k: nat, m: MajorCooldown)
    requires k < |list|
    ensures multiset(list[..k] + list[k + 1..])[m] == multiset(list)[m] - (if m == list[k] then 1 else 0)
  {
    var rest := list[..k] + list[k + 1..];
    assert list == list[..k] + [list[k]] + list[k + 1..];
    assert multiset(list) == multiset(rest) + multiset{list[k]};
  }

  /** After a removal no cooldown of that name is left on that timer, and every other one is, as often as
      before. */
  lemma RemovedExactly(list: seq<MajorCooldown>, id: ActionID, m: MajorCooldown)
    requires FirstNamed(list, id).Some?
    ensures FirstNamed(list, id).value < |list|
    ensures var first := list[FirstNamed(list, id).value];
            var before := multiset(list)[m] - (if m == first then 1 else 0);
            multiset(Without(list, id))[m] == if first.cd.Some? && Variant(m, first.cd.value, id) then 0 else before
  {
    FirstNamedIsFirst(list, id);
    var k := FirstNamed(list, id).value;
    TakenOut(list, k, m);
    if list[k].cd.Some? {
      KeptExactly(list[..k] + list[k + 1..], (x: MajorCooldown) => Variant(x, list[k].cd.value, id), m);
    }
  }
}

/** The tracker as a function: what each operation makes of the auras and their exclusive effects, the callbacks
    it causes included, without the bookkeeping that makes the tracker fast.  No positions are stored: an aura is
    looked for in its lists.  No expiry is cached, and no list is copied: an event walks the list it found.

    An operation reads the tape of its callbacks and leaves the rest of it.  Columns are read and written through
    At and Put, which answer for indices that do not occur on a tracker, so every function here is total. */
module AuraReference {
  import opened AuraState
  import opened AuraLemmas
  import opened Callbacks

  /** The auras and their effects; `busy` in what follows are the auras under way. */
  datatype Core = Core(
    active: seq<bool>, expires: seq<int>, stacks: seq<int>, lists: seq<seq<nat>>,
    priority: seq<real>, enabled: seq<bool>, winner: seq<int>, net: seq<int>, applied: seq<real>, now: int)

  function CoreOf(s: State): Core {
    Core(s.active, s.expires, s.stacks, s.lists,
         s.bids.priority, s.bids.enabled, s.bids.winner, s.bids.net, s.bids.applied, s.now)
  }

  /** Nobody active, and nobody bidding. */
  function Start(cfg: Config, bids: seq<real>, now: int): Core {
    Core(seq(|cfg.auras|, a => false), seq(|cfg.auras|, a => 0), seq(|cfg.auras|, a => 0), seq(KINDS, k => []),
         bids, seq(|cfg.effects|, e => false), seq(|cfg.categories|, k => NO_EFFECT), seq(|cfg.effects|, e => 0),
         seq(|cfg.effects|, e => 0.0), now)
  }

  datatype Outcome = Outcome(core: Core, rest: seq<Command>)

  /** Of bids: whether all have landed; of bids in turn, how many have. */
  datatype BidOutcome = BidOutcome(landed: bool, core: Core, rest: seq<Command>)

  datatype BidsOutcome = BidsOutcome(landed: bool, count: nat, core: Core, rest: seq<Command>)

  function At<T>(s: seq<T>, i: int, otherwise: T): T {
    if 0 <= i < |s| then s[i] else otherwise
  }

  function Put<T>(s: seq<T>, i: int, x: T): seq<T> {
    if 0 <= i < |s| then s[i := x] else s
  }

  function AuraAt(cfg: Config, a: int): AuraConfig {
    At(cfg.auras, a, AuraConfig(NEVER_EXPIRES, 0, 0, [], []))
  }

  function EffectAt(cfg: Config, e: int): EffectConfig {
    At(cfg.effects, e, EffectConfig(0, 0, false))
  }

  function CategoryAt(cfg: Config, k: int): CategoryConfig {
    At(cfg.categories, k, CategoryConfig(false, []))
  }

  // ---------------------------------------------------------------- lists

  predicate Belongs(cfg: Config, a: nat, k: nat) {
    if k == 0 then AuraAt(cfg, a).duration < NEVER_EXPIRES else At(AuraAt(cfg, a).hears, k, false)
  }

  function Joined(cfg: Config, lists: seq<seq<nat>>, a: nat): seq<seq<nat>> {
    seq(|lists|, k requires 0 <= k < |lists| => if Belongs(cfg, a, k) then lists[k] + [a] else lists[k])
  }

  /** The list without the aura, the last entry in its place. */
  function Struck(list: seq<nat>, a: nat): seq<nat> {
    if list == [] then []
    else if list[0] == a then if |list| == 1 then [] else [list[|list| - 1]] + list[1..|list| - 1]
    else [list[0]] + Struck(list[1..], a)
  }

  function Quit(lists: seq<seq<nat>>, a: nat): seq<seq<nat>> {
    seq(|lists|, k requires 0 <= k < |lists| => Struck(lists[k], a))
  }

  /** In the list of an exact family the aura stands once, at its stored position. */
  lemma {:induction false} StruckAt(list: seq<nat>, a: nat, i: nat)
    requires i < |list| && list[i] == a && forall j :: 0 <= j < i ==> list[j] != a
    ensures Struck(list, a) == RemoveBySwappingToBack(list, i)
    decreases i
  {
    if i > 0 {
      StruckAt(list[1..], a, i - 1);
      assert RemoveBySwappingToBack(list, i) == [list[0]] + RemoveBySwappingToBack(list[1..], i - 1);
    } else {
      assert RemoveBySwappingToBack(list, 0) == if |list| == 1 then [] else [list[|list| - 1]] + list[1..|list| - 1];
    }
  }

  lemma {:induction false} NobodyStruck(list: seq<nat>, a: nat)
    requires a !in list
    ensures Struck(list, a) == list
  {
    if list != [] {
      NobodyStruck(list[1..], a);
      assert list == [list[0]] + list[1..];
    }
  }

  lemma ExactStruck(list: seq<nat>, index: seq<int>, member: seq<bool>, a: nat)
    requires Exact(list, index, member) && a < |member|
    ensures index[a] == NOT_LISTED ==> Struck(list, a) == list
    ensures index[a] != NOT_LISTED ==> 0 <= index[a] < |list| && Struck(list, a) == RemoveBySwappingToBack(list, index[a])
  {
    hide Struck, RemoveBySwappingToBack;
    if index[a] == NOT_LISTED {
      NobodyStruck(list, a);
    } else {
      StruckAt(list, a, index[a]);
    }
  }

  /** The list the aura has left: one entry fewer, the last one in its place. */
  ghost predicate Left(list: seq<nat>, list': seq<nat>, a: nat) {
    multiset(list') == multiset(list) - multiset{a} && list' == Struck(list, a)
  }

  lemma LeavesList(list: seq<nat>, index: seq<int>, member: seq<bool>, a: nat)
    requires Exact(list, index, member) && a < |member|
    ensures |index| == |member| && (index[a] != NOT_LISTED <==> member[a])
    ensures index[a] == NOT_LISTED ==> Left(list, list, a)
    ensures index[a] != NOT_LISTED ==>
              && 0 <= index[a] < |list|
              && var r := RemoveBySwappingToBack(list, index[a]);
                 var moved := if index[a] < |r| then index[r[index[a]] := index[a]] else index;
                 && (forall p :: 0 <= p < |r| ==> r[p] < |index|)
                 && Exact(r, moved[a := NOT_LISTED], member[a := false]) && Left(list, r, a)
  {
    hide RemoveBySwappingToBack, Struck;
    ListedIffMember(list, index, member, a);
    ExactStruck(list, index, member, a);
    if index[a] != NOT_LISTED {
      SwapRemoveKeepsExact(list, index, member, a);
      SwapRemoveTakesOne(list, index[a]);
    } else {
      assert a !in multiset(list);
    }
  }

  lemma JoinedWhereWanted(cfg: Config, lists: seq<seq<nat>>, lists': seq<seq<nat>>, a: nat)
    requires Registered(cfg) && a < |cfg.auras| && |lists| == |lists'| == KINDS
    requires forall k :: 0 <= k < KINDS ==> lists'[k] == if Wants(cfg, a, k) then lists[k] + [a] else lists[k]
    ensures lists' == Joined(cfg, lists, a)
  {
    assert forall k :: 0 <= k < KINDS ==> Belongs(cfg, a, k) == Wants(cfg, a, k);
  }

  function Refreshed(cfg: Config, c: Core, a: nat): Core {
    var full := AuraAt(cfg, a).duration;
    c.(expires := Put(c.expires, a, if full == NEVER_EXPIRES then NEVER_EXPIRES else c.now + full))
  }

  // ---------------------------------------------------------------- callbacks and their commands

  /** The commands up to the next Return, one after the other. */
  function Callback(cfg: Config, c: Core, busy: set<nat>, tape: seq<Command>): (o: Outcome)
    ensures o.rest == PastCallback(tape)
    decreases Weight(tape), 0, 0
  {
    if tape == [] then Outcome(c, [])
    else if tape[0].op.Return? then Outcome(c, tape[1..])
    else Callback(cfg, Commanded(cfg, c, busy, tape[0]), busy, tape[1..])
  }

  function Commanded(cfg: Config, c: Core, busy: set<nat>, command: Command): Core
    decreases Weight(command.during) + Weight(command.after) + 1, 0, 0
  {
    match command.op
    case Return => c
    case Activate(a) =>
      if a < |cfg.auras| && (At(c.active, a, false) || a !in busy) then Activated(cfg, c, busy, a, command.during, command.after) else c
    case Deactivate(a) =>
      if a < |cfg.auras| then Deactivated(cfg, c, busy, a, command.during, command.after) else c
    case Refresh(a) =>
      if a < |cfg.auras| then Refreshed(cfg, c, a) else c
    case SetStacks(a, n) =>
      if a < |cfg.auras| && (At(c.active, a, false) || n == 0) && 0 <= n && cfg.auras[a].maxStacks != 0
      then Stacked(cfg, c, busy, a, n, command.during, command.after).core else c
    case UpdateExpires(a, at) =>
      if a < |cfg.auras| && At(c.active, a, false) && At(c.expires, a, 0) <= at then c.(expires := Put(c.expires, a, at)) else c
    case SetPriority(e, p) =>
      if e < |cfg.effects| then Rebid(cfg, c, busy, e, p, command.during).core else c
    case Fire(k) =>
      if 1 <= k < KINDS then Walk(cfg, c, busy, At(c.lists, k, []), command.after).core else c
  }

  /** The turn of an aura in an event's walk: it is called if it is active. */
  function Called(cfg: Config, c: Core, busy: set<nat>, a: nat, tape: seq<Command>): (o: Outcome)
    ensures Weight(o.rest) <= Weight(tape)
    decreases Weight(tape), 1, 0
  {
    if At(c.active, a, false) then Callback(cfg, c, busy, tape) else Outcome(c, tape)
  }

  function Walk(cfg: Config, c: Core, busy: set<nat>, list: seq<nat>, tape: seq<Command>): (o: Outcome)
    ensures Weight(o.rest) <= Weight(tape)
    decreases Weight(tape), 2, |list|
  {
    if list == [] then Outcome(c, tape)
    else
      var o := Called(cfg, c, busy, list[0], tape);
      Walk(cfg, o.core, busy, list[1..], o.rest)
  }

  // ---------------------------------------------------------------- exclusive effects

  /** The first of the highest enabled bidders. */
  function Top(effects: seq<nat>, enabled: seq<bool>, priority: seq<real>): int {
    if effects == [] then NO_EFFECT
    else
      var best, e := Top(effects[..|effects| - 1], enabled, priority), effects[|effects| - 1];
      if At(enabled, e, false) && (best == NO_EFFECT || At(priority, e, 0.0) > At(priority, best, 0.0)) then e else best
  }

  /** An effect's OnExpire. */
  function EffectExpired(cfg: Config, c: Core, busy: set<nat>, e: nat, tape: seq<Command>): (o: Outcome)
    ensures o.rest == PastCallback(tape)
    decreases Weight(tape), 1, 0
  {
    Callback(cfg, c.(net := Put(c.net, e, At(c.net, e, 0) - 1),
                     applied := Put(c.applied, e, At(c.applied, e, 0.0) - At(c.priority, e, 0.0))), busy, tape)
  }

  /** Its OnGain. */
  function EffectGained(cfg: Config, c: Core, busy: set<nat>, e: nat, tape: seq<Command>): (o: Outcome)
    ensures o.rest == PastCallback(tape)
    decreases Weight(tape), 1, 0
  {
    Callback(cfg, c.(net := Put(c.net, e, At(c.net, e, 0) + 1),
                     applied := Put(c.applied, e, At(c.applied, e, 0.0) + At(c.priority, e, 0.0))), busy, tape)
  }

  /** The category k goes to another active effect, or to none. */
  function HandedTo(cfg: Config, c: Core, busy: set<nat>, k: nat, w: int, tape: seq<Command>): (o: Outcome)
    ensures Weight(o.rest) <= Weight(tape)
    decreases Weight(tape), 2, 0
  {
    var current := At(c.winner, k, NO_EFFECT);
    if w == current then Outcome(c, tape)
    else
      var o := if 0 <= current then EffectExpired(cfg, c, busy, current, tape) else Outcome(c, tape);
      var c1 := o.core.(winner := Put(o.core.winner, k, w));
      if 0 <= w then EffectGained(cfg, c1, busy, w, o.rest) else Outcome(c1, o.rest)
  }

  /** An effect withdraws its bid. */
  function EffectEnded(cfg: Config, c: Core, busy: set<nat>, e: nat, tape: seq<Command>): (o: Outcome)
    ensures Weight(o.rest) <= Weight(tape)
    decreases Weight(tape), 3, 0
  {
    if !At(c.enabled, e, false) then Outcome(c, tape)
    else
      var k := EffectAt(cfg, e).category;
      var c1 := c.(enabled := Put(c.enabled, e, false));
      if At(c.winner, k, NO_EFFECT) == e
      then HandedTo(cfg, c1, busy, k, Top(CategoryAt(cfg, k).effects, c1.enabled, c1.priority), tape)
      else Outcome(c1, tape)
  }

  function EffectsEnded(cfg: Config, c: Core, busy: set<nat>, effects: seq<nat>, tape: seq<Command>): (o: Outcome)
    ensures Weight(o.rest) <= Weight(tape)
    decreases Weight(tape), 4, |effects|
  {
    if effects == [] then Outcome(c, tape)
    else
      var o := EffectEnded(cfg, c, busy, effects[0], tape);
      EffectsEnded(cfg, o.core, busy, effects[1..], o.rest)
  }

  /** A new bid of an enabled effect, under which `next` is the first highest bidder: the effect that stays active
      takes its old bid back and applies the new one; one that loses the category expires with the old bid, and
      one that gains it applies the new bid. */
  function BidMoved(cfg: Config, c: Core, busy: set<nat>, e: nat, p: real, next: int, tape: seq<Command>): (o: Outcome)
    ensures Weight(o.rest) <= Weight(tape)
    decreases Weight(tape), 3, 0
  {
    var k := EffectAt(cfg, e).category;
    var current := At(c.winner, k, NO_EFFECT);
    var bidding := c.(priority := Put(c.priority, e, p));
    if current != e && next != e then Outcome(bidding, tape)
    else if current == e == next then
      var o := EffectExpired(cfg, c, busy, e, tape);
      EffectGained(cfg, o.core.(priority := Put(o.core.priority, e, p)), busy, e, o.rest)
    else if current == e then
      var o := HandedTo(cfg, c, busy, k, next, tape);
      o.(core := o.core.(priority := Put(o.core.priority, e, p)))
    else HandedTo(cfg, bidding, busy, k, next, tape)
  }

  function Rebid(cfg: Config, c: Core, busy: set<nat>, e: nat, p: real, tape: seq<Command>): (o: Outcome)
    ensures Weight(o.rest) <= Weight(tape)
    decreases Weight(tape), 4, 0
  {
    var bids := Put(c.priority, e, p);
    if At(c.enabled, e, false)
    then BidMoved(cfg, c, busy, e, p, Top(CategoryAt(cfg, EffectAt(cfg, e).category).effects, c.enabled, bids), tape)
    else Outcome(c.(priority := bids), tape)
  }

  /** Whether an aura is active and has more time left than the full duration. */
  predicate Outlives(c: Core, h: nat, full: int) {
    && At(c.active, h, false)
    && full < if At(c.expires, h, 0) == NEVER_EXPIRES then NEVER_EXPIRES else At(c.expires, h, 0) - c.now
  }

  /** A single-aura category's active effect w keeps the newcomer e out: it bids more, or as much and outlives it. */
  predicate KeepsOut(cfg: Config, c: Core, e: nat) {
    var k := EffectAt(cfg, e).category;
    var w := At(c.winner, k, NO_EFFECT);
    && CategoryAt(cfg, k).singleAura && 0 <= w && w != e
    && (|| At(c.priority, e, 0.0) < At(c.priority, w, 0.0)
        || (At(c.priority, w, 0.0) == At(c.priority, e, 0.0) && Outlives(c, EffectAt(cfg, w).aura, AuraAt(cfg, EffectAt(cfg, e).aura).duration)))
  }

  /** The newcomer takes the category: nobody has it, or it bids more, or as much and neither yields ties nor meets
      another spell that outlives it. */
  predicate TakesOver(cfg: Config, c: Core, e: nat) {
    var w := At(c.winner, EffectAt(cfg, e).category, NO_EFFECT);
    var holder, newcomer := EffectAt(cfg, w).aura, EffectAt(cfg, e).aura;
    || w < 0
    || At(c.priority, w, 0.0) < At(c.priority, e, 0.0)
    || (&& At(c.priority, w, 0.0) == At(c.priority, e, 0.0) && !EffectAt(cfg, e).yieldsTies
        && (AuraAt(cfg, holder).spell == AuraAt(cfg, newcomer).spell || !Outlives(c, holder, AuraAt(cfg, newcomer).duration)))
  }

  /** An effect of an aura being activated bids: it is kept out, or bids without effect, or takes the category,
      ending the aura that holds it if the category admits one aura only. */
  function EffectBid(cfg: Config, c: Core, busy: set<nat>, e: nat, tape: seq<Command>): (b: BidOutcome)
    ensures Weight(b.rest) <= Weight(tape)
    decreases Weight(tape), 7, 0
  {
    var k := EffectAt(cfg, e).category;
    var w := At(c.winner, k, NO_EFFECT);
    var c1 := c.(enabled := Put(c.enabled, e, true));
    if KeepsOut(cfg, c, e) then BidOutcome(false, c, tape)
    else if !TakesOver(cfg, c, e) then BidOutcome(true, c1, tape)
    else
      var o := if CategoryAt(cfg, k).singleAura && 0 <= w && w != e then Ended(cfg, c1, busy, EffectAt(cfg, w).aura, tape) else Outcome(c1, tape);
      var o1 := HandedTo(cfg, o.core, busy, k, e, o.rest);
      BidOutcome(true, o1.core, o1.rest)
  }

  /** The bids of an aura's effects from the i-th on, up to the first that is kept out. */
  function BidsFrom(cfg: Config, c: Core, busy: set<nat>, effects: seq<nat>, i: nat, tape: seq<Command>): (b: BidsOutcome)
    requires i <= |effects|
    ensures Weight(b.rest) <= Weight(tape) && b.count <= |effects|
    decreases Weight(tape), 8, |effects| - i
  {
    if i == |effects| then BidsOutcome(true, i, c, tape)
    else
      var b := EffectBid(cfg, c, busy, effects[i], tape);
      if b.landed then BidsFrom(cfg, b.core, busy, effects, i + 1, b.rest) else BidsOutcome(false, i, b.core, b.rest)
  }

  /** All bids of an aura, or none. */
  function AuraBid(cfg: Config, c: Core, busy: set<nat>, a: nat, tape: seq<Command>): (b: BidOutcome)
    ensures Weight(b.rest) <= Weight(tape)
    decreases Weight(tape), 9, 0
  {
    var effects := AuraAt(cfg, a).effects;
    var b := BidsFrom(cfg, c, busy, effects, 0, tape);
    if b.landed then BidOutcome(true, b.core, b.rest)
    else
      var o := EffectsEnded(cfg, b.core, busy, effects[..b.count], b.rest);
      BidOutcome(false, o.core, o.rest)
  }

  // ---------------------------------------------------------------- auras

  function Landed(cfg: Config, c: Core, a: nat): Core {
    Refreshed(cfg, c.(active := Put(c.active, a, true), lists := Joined(cfg, c.lists, a)), a)
  }

  /** A running aura is refreshed; another bids, and if its bids land it becomes active and its OnGain runs. */
  function Activated(cfg: Config, c: Core, busy: set<nat>, a: nat, during: seq<Command>, after: seq<Command>): Core
    decreases Weight(during) + Weight(after), 10, 0
  {
    if At(c.active, a, false) then Refreshed(cfg, c, a)
    else
      var b := AuraBid(cfg, c, busy + {a}, a, during);
      if b.landed then Callback(cfg, Landed(cfg, b.core, a), busy, after).core else b.core
  }

  /** The end of an active aura up to its OnExpire: it leaves its lists, OnStacksChange runs if it had stacks, and
      its effects withdraw. */
  function Gone(cfg: Config, c: Core, busy: set<nat>, a: nat, tape: seq<Command>): (o: Outcome)
    ensures Weight(o.rest) <= Weight(tape)
    decreases Weight(tape), 5, 0
  {
    var c1 := c.(active := Put(c.active, a, false), expires := Put(c.expires, a, 0), lists := Quit(c.lists, a));
    var o := if At(c.stacks, a, 0) == 0 then Outcome(c1, tape)
             else Callback(cfg, c1.(stacks := Put(c.stacks, a, 0)), busy + {a}, tape);
    EffectsEnded(cfg, o.core, busy + {a}, AuraAt(cfg, a).effects, o.rest)
  }

  /** All callbacks of its end read one tape. */
  function Ended(cfg: Config, c: Core, busy: set<nat>, h: nat, tape: seq<Command>): (o: Outcome)
    ensures Weight(o.rest) <= Weight(tape)
    decreases Weight(tape), 6, 0
  {
    if !At(c.active, h, false) then Outcome(c, tape)
    else
      var o := Gone(cfg, c, busy, h, tape);
      Callback(cfg, o.core, busy, o.rest)
  }

  function Deactivated(cfg: Config, c: Core, busy: set<nat>, a: nat, during: seq<Command>, after: seq<Command>): Core
    decreases Weight(during) + Weight(after), 6, 0
  {
    if !At(c.active, a, false) then c
    else Callback(cfg, Gone(cfg, c, busy, a, during).core, busy, after).core
  }

  /** The stacks change, at most to the maximum, and OnStacksChange runs; an aura without stacks then ends. */
  function Stacked(cfg: Config, c: Core, busy: set<nat>, a: nat, n: int, during: seq<Command>, after: seq<Command>): (o: Outcome)
    ensures Weight(o.rest) <= Weight(after)
    decreases Weight(during) + Weight(after), 7, 0
  {
    var most := AuraAt(cfg, a).maxStacks;
    var given := if n < most then n else most;
    if At(c.stacks, a, 0) == given then Outcome(c, after)
    else
      var o := Callback(cfg, c.(stacks := Put(c.stacks, a, given)), busy, after);
      if At(o.core.stacks, a, 0) == 0 then o.(core := Deactivated(cfg, o.core, busy, a, during, o.rest)) else o
  }

  // ---------------------------------------------------------------- ends without callbacks

  /** Effects that withdraw without callbacks touch no aura. */
  lemma {:induction false} QuietEffects(cfg: Config, c: Core, busy: set<nat>, effects: seq<nat>)
    ensures var o := EffectsEnded(cfg, c, busy, effects, []);
            && o.core.active == c.active && o.core.expires == c.expires && o.core.stacks == c.stacks && o.core.lists == c.lists
            && o.core.now == c.now && o.rest == []
    decreases |effects|
  {
    if effects != [] {
      var o := EffectEnded(cfg, c, busy, effects[0], []);
      assert o.core.active == c.active && o.core.expires == c.expires && o.core.stacks == c.stacks && o.core.lists == c.lists
             && o.core.now == c.now && o.rest == [] by {
        hide Top, EffectsEnded;
      }
      hide EffectEnded;
      QuietEffects(cfg, o.core, busy, effects[1..]);
    }
  }

  /** An aura that bids in no category and activates without callbacks touches no other. */
  lemma QuietlyActivated(cfg: Config, c: Core, busy: set<nat>, a: nat)
    requires AuraAt(cfg, a).effects == [] && !At(c.active, a, false)
    ensures Activated(cfg, c, busy, a, [], []) == Landed(cfg, c, a)
  {
    hide Landed;
  }

  /** An aura that ends without callbacks touches no other. */
  lemma QuietlyDeactivated(cfg: Config, c: Core, busy: set<nat>, a: nat)
    requires At(c.active, a, false)
    ensures var d := Deactivated(cfg, c, busy, a, [], []);
            && d.active == Put(c.active, a, false) && d.expires == Put(c.expires, a, 0) && d.now == c.now
            && d.stacks == (if At(c.stacks, a, 0) == 0 then c.stacks else Put(c.stacks, a, 0)) && d.lists == Quit(c.lists, a)
  {
    var c1 := c.(active := Put(c.active, a, false), expires := Put(c.expires, a, 0), lists := Quit(c.lists, a));
    var c2 := if At(c.stacks, a, 0) == 0 then c1 else c1.(stacks := Put(c.stacks, a, 0));
    QuietEffects(cfg, c2, busy + {a}, AuraAt(cfg, a).effects);
    hide EffectsEnded, Quit;
  }

  // ---------------------------------------------------------------- steps of the tracker

  lemma TopStep(effects: seq<nat>, i: nat, enabled: seq<bool>, priority: seq<real>)
    requires i < |effects|
    ensures var best, e := Top(effects[..i], enabled, priority), effects[i];
            Top(effects[..i + 1], enabled, priority)
            == if At(enabled, e, false) && (best == NO_EFFECT || At(priority, e, 0.0) > At(priority, best, 0.0)) then e else best
  {
    assert effects[..i + 1][..i] == effects[..i];
  }

  ghost predicate Indexes(effects: seq<nat>, enabled: seq<bool>, priority: seq<real>) {
    |enabled| == |priority| && forall i :: 0 <= i < |effects| ==> effects[i] < |enabled|
  }

  ghost predicate FirstAmong(effects: seq<nat>, i: nat, enabled: seq<bool>, priority: seq<real>)
    requires i < |effects| && Indexes(effects, enabled, priority)
  {
    && enabled[effects[i]]
    && (forall j :: 0 <= j < |effects| && enabled[effects[j]] ==> priority[effects[j]] <= priority[effects[i]])
    && forall j :: 0 <= j < i && enabled[effects[j]] ==> priority[effects[j]] < priority[effects[i]]
  }

  /** The top bidder is enabled, nobody enabled bids more, and nobody before it bids as much. */
  lemma {:induction false} TopIsFirst(effects: seq<nat>, enabled: seq<bool>, priority: seq<real>) returns (at: nat)
    requires Indexes(effects, enabled, priority)
    ensures var w := Top(effects, enabled, priority);
            if w == NO_EFFECT then forall j :: 0 <= j < |effects| ==> !enabled[effects[j]]
            else at < |effects| && effects[at] == w && FirstAmong(effects, at, enabled, priority)
    decreases |effects|
  {
    at := 0;
    if effects != [] {
      var init, n := effects[..|effects| - 1], |effects| - 1;
      assert forall i :: 0 <= i < n ==> init[i] == effects[i];
      at := TopIsFirst(init, enabled, priority);
      var best, e := Top(init, enabled, priority), effects[n];
      if enabled[e] && (best == NO_EFFECT || priority[best] < priority[e]) {
        at := n;
      }
    }
  }

  /** Positions, the cached minimum, buffers, the ledger and marks do not show. */
  lemma SameCore(s: State, t: State)
    requires t == s.(index := t.index, minExpires := t.minExpires, buffers := t.buffers, depth := t.depth, log := t.log,
                     bids := s.bids.(spoiled := t.bids.spoiled, crowded := t.bids.crowded))
    ensures CoreOf(t) == CoreOf(s)
  {
  }

  lemma ExpiryCalls(cfg: Config, s: State, t: State, busy: set<nat>, e: nat, tape: seq<Command>)
    requires Shape(cfg, s) && e < |cfg.effects|
    requires t == s.(bids := s.bids.(net := s.bids.net[e := s.bids.net[e] - 1],
                                     applied := s.bids.applied[e := s.bids.applied[e] - s.bids.priority[e]]))
    ensures EffectExpired(cfg, CoreOf(s), busy, e, tape) == Callback(cfg, CoreOf(t), busy, tape)
  {
    hide Callback;
  }

  lemma GainCalls(cfg: Config, s: State, t: State, busy: set<nat>, e: nat, tape: seq<Command>)
    requires Shape(cfg, s) && e < |cfg.effects|
    requires t == s.(bids := s.bids.(net := s.bids.net[e := s.bids.net[e] + 1],
                                     applied := s.bids.applied[e := s.bids.applied[e] + s.bids.priority[e]]))
    ensures EffectGained(cfg, CoreOf(s), busy, e, tape) == Callback(cfg, CoreOf(t), busy, tape)
  {
    hide Callback;
  }

  /** An aura that has gone inactive, then its OnStacksChange if it had stacks. */
  lemma GoneBy(cfg: Config, s: State, s1: State, s2: State, busy: set<nat>, a: nat, tape: seq<Command>, mid: seq<Command>)
    requires Shape(cfg, s) && a < |cfg.auras|
    requires CoreOf(s1) == CoreOf(s).(active := s.active[a := false], expires := s.expires[a := 0], lists := Quit(s.lists, a))
    requires if s1.stacks[a] == 0 then s2 == s1 && mid == tape
             else Outcome(CoreOf(s2), mid) == Callback(cfg, CoreOf(s1).(stacks := s1.stacks[a := 0]), busy + {a}, tape)
    ensures Gone(cfg, CoreOf(s), busy, a, tape) == EffectsEnded(cfg, CoreOf(s2), busy + {a}, cfg.auras[a].effects, mid)
  {
    hide EffectsEnded, Quit, Callback;
  }

  /** The active effect's OnExpire if there is one, the new active effect, and its OnGain if there is one. */
  lemma HandedBy(cfg: Config, s: State, s1: State, t: State, busy: set<nat>, k: nat, w: int,
                 tape: seq<Command>, mid: seq<Command>, rest: seq<Command>)
    requires Shape(cfg, s) && Shape(cfg, s1) && k < |cfg.categories| && w != s.bids.winner[k] && (w == NO_EFFECT || 0 <= w)
    requires if s.bids.winner[k] == NO_EFFECT then s1 == s && mid == tape
             else s.bids.winner[k] >= 0 && Outcome(CoreOf(s1), mid) == EffectExpired(cfg, CoreOf(s), busy, s.bids.winner[k], tape)
    requires var handed := CoreOf(s1).(winner := s1.bids.winner[k := w]);
             if w == NO_EFFECT then CoreOf(t) == handed && rest == mid
             else Outcome(CoreOf(t), rest) == EffectGained(cfg, handed, busy, w, mid)
    ensures Outcome(CoreOf(t), rest) == HandedTo(cfg, CoreOf(s), busy, k, w, tape)
  {
    hide EffectExpired, EffectGained;
  }

  lemma NotHanded(cfg: Config, s: State, busy: set<nat>, k: nat, tape: seq<Command>)
    requires Shape(cfg, s) && k < |cfg.categories|
    ensures HandedTo(cfg, CoreOf(s), busy, k, s.bids.winner[k], tape) == Outcome(CoreOf(s), tape)
  {
  }

  lemma EffectEndedBy(cfg: Config, s: State, s1: State, t: State, busy: set<nat>, e: nat, tape: seq<Command>, rest: seq<Command>)
    requires Registered(cfg) && Shape(cfg, s) && e < |cfg.effects| && s.bids.enabled[e]
    requires s1 == s.(bids := s.bids.(enabled := s.bids.enabled[e := false], spoiled := s1.bids.spoiled))
    requires var k := cfg.effects[e].category;
             if s.bids.winner[k] == e
             then Outcome(CoreOf(t), rest)
                  == HandedTo(cfg, CoreOf(s1), busy, k, Top(cfg.categories[k].effects, s1.bids.enabled, s1.bids.priority), tape)
             else t == s1 && rest == tape
    ensures Outcome(CoreOf(t), rest) == EffectEnded(cfg, CoreOf(s), busy, e, tape)
  {
    hide HandedTo, Top;
  }

  lemma EffectNotEnded(cfg: Config, s: State, busy: set<nat>, e: nat, tape: seq<Command>)
    requires Shape(cfg, s) && e < |cfg.effects| && !s.bids.enabled[e]
    ensures EffectEnded(cfg, CoreOf(s), busy, e, tape) == Outcome(CoreOf(s), tape)
  {
  }

  lemma EffectsEndedStep(cfg: Config, c: Core, c': Core, busy: set<nat>, effects: seq<nat>, i: nat, n: nat, mid: seq<Command>, rest: seq<Command>)
    requires i < n <= |effects| && Outcome(c', rest) == EffectEnded(cfg, c, busy, effects[i], mid)
    ensures EffectsEnded(cfg, c, busy, effects[i..n], mid) == EffectsEnded(cfg, c', busy, effects[i + 1..n], rest)
  {
    hide EffectEnded;
    assert effects[i..n][1..] == effects[i + 1..n];
  }

  lemma BidStep(cfg: Config, c: Core, busy: set<nat>, effects: seq<nat>, i: nat, b: BidOutcome, tape: seq<Command>)
    requires i < |effects| && b == EffectBid(cfg, c, busy, effects[i], tape)
    ensures BidsFrom(cfg, c, busy, effects, i, tape)
            == if b.landed then BidsFrom(cfg, b.core, busy, effects, i + 1, b.rest) else BidsOutcome(false, i, b.core, b.rest)
  {
    hide EffectBid;
  }

  lemma CallbackStep(cfg: Config, c: Core, c': Core, busy: set<nat>, tape: seq<Command>)
    requires tape != [] && !tape[0].op.Return? && c' == Commanded(cfg, c, busy, tape[0])
    ensures Callback(cfg, c, busy, tape) == Callback(cfg, c', busy, tape[1..])
  {
    hide Commanded;
  }

  lemma CallbackEnds(cfg: Config, c: Core, busy: set<nat>, tape: seq<Command>)
    requires tape == [] || tape[0].op.Return?
    ensures Callback(cfg, c, busy, tape) == Outcome(c, PastCallback(tape))
  {
  }

  /** The turn is recorded; then the aura's callback runs if it is active. */
  lemma CalledBy(cfg: Config, s: State, s1: State, t: State, busy: set<nat>, a: nat, tape: seq<Command>, rest: seq<Command>)
    requires Shape(cfg, s) && a < |cfg.auras| && s1 == s.(log := s1.log)
    requires if s.active[a] then Outcome(CoreOf(t), rest) == Callback(cfg, CoreOf(s1), busy, tape) else t == s1 && rest == tape
    ensures Outcome(CoreOf(t), rest) == Called(cfg, CoreOf(s), busy, a, tape)
  {
    hide Callback;
  }

  lemma WalkStep(cfg: Config, c: Core, c': Core, busy: set<nat>, walk: seq<nat>, i: nat, mid: seq<Command>, rest: seq<Command>)
    requires i < |walk| && Outcome(c', rest) == Called(cfg, c, busy, walk[i], mid)
    ensures Walk(cfg, c, busy, walk[i..], mid) == Walk(cfg, c', busy, walk[i + 1..], rest)
  {
    hide Called;
    assert walk[i..][1..] == walk[i + 1..];
  }

  lemma WalkEnds(cfg: Config, c: Core, busy: set<nat>, tape: seq<Command>)
    ensures Walk(cfg, c, busy, [], tape) == Outcome(c, tape)
  {
  }

  lemma StackedBy(cfg: Config, s: State, s1: State, t: State, busy: set<nat>, a: nat, n: int,
                  during: seq<Command>, after: seq<Command>, rest: seq<Command>)
    requires Shape(cfg, s) && Shape(cfg, s1) && a < |cfg.auras|
    requires var given := if n < cfg.auras[a].maxStacks then n else cfg.auras[a].maxStacks;
             && s.stacks[a] != given
             && Outcome(CoreOf(s1), rest) == Callback(cfg, CoreOf(s).(stacks := s.stacks[a := given]), busy, after)
    requires if s1.stacks[a] == 0 then CoreOf(t) == Deactivated(cfg, CoreOf(s1), busy, a, during, rest) else t == s1
    ensures Outcome(CoreOf(t), rest) == Stacked(cfg, CoreOf(s), busy, a, n, during, after)
  {
    hide Callback, Deactivated;
  }

  lemma NotStacked(cfg: Config, s: State, busy: set<nat>, a: nat, n: int, during: seq<Command>, after: seq<Command>)
    requires Shape(cfg, s) && a < |cfg.auras|
    requires s.stacks[a] == if n < cfg.auras[a].maxStacks then n else cfg.auras[a].maxStacks
    ensures Stacked(cfg, CoreOf(s), busy, a, n, during, after) == Outcome(CoreOf(s), after)
  {
  }

  /** A bid that is not kept out: the effect is enabled and, if it takes the category, the holder of a single-aura
      category ends before the category goes to it. */
  lemma EffectBidBy(cfg: Config, s: State, s1: State, t: State, busy: set<nat>, e: nat, tape: seq<Command>, rest: seq<Command>)
    requires Registered(cfg) && Shape(cfg, s) && e < |cfg.effects| && !KeepsOut(cfg, CoreOf(s), e)
    requires s1 == s.(bids := s.bids.(enabled := s.bids.enabled[e := true], spoiled := s1.bids.spoiled, crowded := s1.bids.crowded))
    requires var k := cfg.effects[e].category;
             var w := s.bids.winner[k];
             if !TakesOver(cfg, CoreOf(s), e) then t == s1 && rest == tape
             else if w != NO_EFFECT && cfg.categories[k].singleAura && w != e then
               var o := Ended(cfg, CoreOf(s1), busy, cfg.effects[w].aura, tape);
               Outcome(CoreOf(t), rest) == HandedTo(cfg, o.core, busy, k, e, o.rest)
             else Outcome(CoreOf(t), rest) == HandedTo(cfg, CoreOf(s1), busy, k, e, tape)
    ensures BidOutcome(true, CoreOf(t), rest) == EffectBid(cfg, CoreOf(s), busy, e, tape)
  {
    hide HandedTo, Ended, KeepsOut, TakesOver;
  }

  lemma EffectKeptOut(cfg: Config, s: State, busy: set<nat>, e: nat, tape: seq<Command>)
    requires KeepsOut(cfg, CoreOf(s), e)
    ensures EffectBid(cfg, CoreOf(s), busy, e, tape) == BidOutcome(false, CoreOf(s), tape)
  {
    hide KeepsOut;
  }

  /** An inactive aura has bid; if its bids have landed it becomes active and its OnGain runs. */
  lemma ActivatedBy(cfg: Config, s: State, s1: State, s2: State, t: State, busy: set<nat>, a: nat, landed: bool,
                    during: seq<Command>, after: seq<Command>, rest: seq<Command>, last: seq<Command>)
    requires Shape(cfg, s) && a < |cfg.auras| && !s.active[a]
    requires BidOutcome(landed, CoreOf(s1), rest) == AuraBid(cfg, CoreOf(s), busy + {a}, a, during)
    requires if landed then CoreOf(s2) == Landed(cfg, CoreOf(s1), a) && Outcome(CoreOf(t), last) == Callback(cfg, CoreOf(s2), busy, after)
             else t == s1
    ensures CoreOf(t) == Activated(cfg, CoreOf(s), busy, a, during, after)
  {
    hide AuraBid, Landed, Callback;
  }

  lemma RefreshedOnly(cfg: Config, s: State, busy: set<nat>, a: nat, during: seq<Command>, after: seq<Command>)
    requires Shape(cfg, s) && a < |cfg.auras| && s.active[a]
    ensures Activated(cfg, CoreOf(s), busy, a, during, after) == Refreshed(cfg, CoreOf(s), a)
  {
    hide Refreshed;
  }

  /** What a command asks for. */
  lemma CommandedBy(cfg: Config, s: State, busy: set<nat>, command: Command)
    requires Shape(cfg, s)
    ensures var c, op, did := CoreOf(s), command.op, Commanded(cfg, CoreOf(s), busy, command);
            && (op.Return? ==> did == c)
            && (op.Activate? ==>
                  did == if op.aura < |cfg.auras| && (s.active[op.aura] || op.aura !in busy)
                         then Activated(cfg, c, busy, op.aura, command.during, command.after) else c)
            && (op.Deactivate? ==>
                  did == if op.aura < |cfg.auras| then Deactivated(cfg, c, busy, op.aura, command.during, command.after) else c)
            && (op.Refresh? ==> did == if op.aura < |cfg.auras| then Refreshed(cfg, c, op.aura) else c)
            && (op.SetStacks? ==>
                  did == if op.aura < |cfg.auras| && (s.active[op.aura] || op.n == 0) && 0 <= op.n && cfg.auras[op.aura].maxStacks != 0
                         then Stacked(cfg, c, busy, op.aura, op.n, command.during, command.after).core else c)
            && (op.UpdateExpires? ==>
                  did == if op.aura < |cfg.auras| && s.active[op.aura] && s.expires[op.aura] <= op.at
                         then c.(expires := s.expires[op.aura := op.at]) else c)
            && (op.SetPriority? ==>
                  did == if op.effect < |cfg.effects| then Rebid(cfg, c, busy, op.effect, op.bid, command.during).core else c)
            && (op.Fire? ==> did == if 1 <= op.kind < KINDS then Walk(cfg, c, busy, s.lists[op.kind], command.after).core else c)
  {
    hide Activated, Deactivated, Refreshed, Stacked, Rebid, Walk;
  }

  /** The cases of a new bid. */
  lemma BidStays(cfg: Config, s: State, s1: State, s2: State, t: State, busy: set<nat>, e: nat, p: real,
                 tape: seq<Command>, mid: seq<Command>, rest: seq<Command>)
    requires Registered(cfg) && Shape(cfg, s) && Shape(cfg, s1) && e < |cfg.effects| && s.bids.winner[cfg.effects[e].category] == e
    requires Outcome(CoreOf(s1), mid) == EffectExpired(cfg, CoreOf(s), busy, e, tape)
    requires s2 == s1.(bids := s1.bids.(priority := s1.bids.priority[e := p]))
    requires Outcome(CoreOf(t), rest) == EffectGained(cfg, CoreOf(s2), busy, e, mid)
    ensures Outcome(CoreOf(t), rest) == BidMoved(cfg, CoreOf(s), busy, e, p, e, tape)
  {
    hide EffectExpired, EffectGained;
  }

  lemma BidUnseen(cfg: Config, s: State, t: State, busy: set<nat>, e: nat, p: real, next: int, tape: seq<Command>)
    requires Registered(cfg) && Shape(cfg, s) && e < |cfg.effects| && s.bids.winner[cfg.effects[e].category] != e && next != e
    requires t == s.(bids := s.bids.(priority := s.bids.priority[e := p]))
    ensures Outcome(CoreOf(t), tape) == BidMoved(cfg, CoreOf(s), busy, e, p, next, tape)
  {
  }

  lemma BidLoses(cfg: Config, s: State, s1: State, t: State, busy: set<nat>, e: nat, p: real, next: int,
                 tape: seq<Command>, rest: seq<Command>)
    requires Registered(cfg) && Shape(cfg, s) && Shape(cfg, s1) && e < |cfg.effects| && s.bids.winner[cfg.effects[e].category] == e && next != e
    requires Outcome(CoreOf(s1), rest) == HandedTo(cfg, CoreOf(s), busy, cfg.effects[e].category, next, tape)
    requires t == s1.(bids := s1.bids.(priority := s1.bids.priority[e := p]))
    ensures Outcome(CoreOf(t), rest) == BidMoved(cfg, CoreOf(s), busy, e, p, next, tape)
  {
    hide HandedTo;
  }

  lemma BidGains(cfg: Config, s: State, s1: State, t: State, busy: set<nat>, e: nat, p: real, tape: seq<Command>, rest: seq<Command>)
    requires Registered(cfg) && Shape(cfg, s) && e < |cfg.effects| && s.bids.winner[cfg.effects[e].category] != e
    requires s1 == s.(bids := s.bids.(priority := s.bids.priority[e := p]))
    requires Outcome(CoreOf(t), rest) == HandedTo(cfg, CoreOf(s1), busy, cfg.effects[e].category, e, tape)
    ensures Outcome(CoreOf(t), rest) == BidMoved(cfg, CoreOf(s), busy, e, p, e, tape)
  {
    hide HandedTo;
  }

  lemma RebidBy(cfg: Config, s: State, s1: State, t: State, busy: set<nat>, e: nat, p: real, tape: seq<Command>, rest: seq<Command>)
    requires Registered(cfg) && Shape(cfg, s) && e < |cfg.effects|
    requires s1 == s.(bids := s.bids.(spoiled := s1.bids.spoiled))
    requires if s.bids.enabled[e]
             then Outcome(CoreOf(t), rest) == BidMoved(cfg, CoreOf(s1), busy, e, p,
                                                       Top(cfg.categories[cfg.effects[e].category].effects, s.bids.enabled, s.bids.priority[e := p]), tape)
             else rest == tape && t == s.(bids := s.bids.(priority := s.bids.priority[e := p]))
    ensures Outcome(CoreOf(t), rest) == Rebid(cfg, CoreOf(s), busy, e, p, tape)
  {
    hide BidMoved, Top;
  }

  lemma EndedBy(cfg: Config, s: State, s1: State, t: State, busy: set<nat>, h: nat, tape: seq<Command>, mid: seq<Command>, rest: seq<Command>)
    requires Shape(cfg, s) && h < |cfg.auras|
    requires if s.active[h] then Outcome(CoreOf(s1), mid) == Gone(cfg, CoreOf(s), busy, h, tape)
                                 && Outcome(CoreOf(t), rest) == Callback(cfg, CoreOf(s1), busy, mid)
             else t == s && rest == tape
    ensures Outcome(CoreOf(t), rest) == Ended(cfg, CoreOf(s), busy, h, tape)
  {
    hide Gone, Callback;
  }

  lemma DeactivatedBy(cfg: Config, s: State, s1: State, t: State, busy: set<nat>, a: nat,
                      during: seq<Command>, after: seq<Command>, mid: seq<Command>, rest: seq<Command>)
    requires Shape(cfg, s) && a < |cfg.auras|
    requires if s.active[a] then Outcome(CoreOf(s1), mid) == Gone(cfg, CoreOf(s), busy, a, during)
                                 && Outcome(CoreOf(t), rest) == Callback(cfg, CoreOf(s1), busy, after)
             else t == s
    ensures CoreOf(t) == Deactivated(cfg, CoreOf(s), busy, a, during, after)
  {
    hide Gone, Callback;
  }

  lemma NoEffectEnds(cfg: Config, c: Core, busy: set<nat>, effects: seq<nat>, tape: seq<Command>)
    requires effects == []
    ensures EffectsEnded(cfg, c, busy, effects, tape) == Outcome(c, tape)
  {
  }

  lemma AllHaveBid(cfg: Config, c: Core, busy: set<nat>, effects: seq<nat>, tape: seq<Command>)
    ensures BidsFrom(cfg, c, busy, effects, |effects|, tape) == BidsOutcome(true, |effects|, c, tape)
  {
  }

  lemma AuraBidBy(cfg: Config, s: State, s1: State, t: State, busy: set<nat>, a: nat, landed: bool, i: nat,
                  tape: seq<Command>, mid: seq<Command>, rest: seq<Command>)
    requires a < |cfg.auras| && i <= |cfg.auras[a].effects|
    requires BidsOutcome(landed, i, CoreOf(s1), mid) == BidsFrom(cfg, CoreOf(s), busy, cfg.auras[a].effects, 0, tape)
    requires if landed then t == s1 && rest == mid
             else Outcome(CoreOf(t), rest) == EffectsEnded(cfg, CoreOf(s1), busy, cfg.auras[a].effects[..i], mid)
    ensures BidOutcome(landed, CoreOf(t), rest) == AuraBid(cfg, CoreOf(s), busy, a, tape)
  {
    hide BidsFrom, EffectsEnded;
  }
}

/** The aura tracker of one unit, as plain values: what is registered, the tracker's fields, the
    invariant every operation keeps, and what an operation may change while others are under way.

    Auras and exclusive effects are numbered in registration order; each of their fields is a
    column.  The fifteen callback lists are one family indexed by kind: kind 0 holds the active
    auras that may expire, the others the active auras that set the corresponding callback. */
module AuraState {
  import Common

  const NEVER_EXPIRES: int := Common.NEVER_EXPIRES
  const KINDS: nat := 15
  const NOT_LISTED: int := -1
  const NO_EFFECT: int := -1

  // ---------------------------------------------------------------- registration

  datatype AuraConfig = AuraConfig(duration: int, maxStacks: nat, spell: int, hears: seq<bool>, effects: seq<nat>)

  datatype EffectConfig = EffectConfig(aura: nat, category: nat, yieldsTies: bool)

  datatype CategoryConfig = CategoryConfig(singleAura: bool, effects: seq<nat>)

  datatype Config = Config(auras: seq<AuraConfig>, effects: seq<EffectConfig>, categories: seq<CategoryConfig>)

  predicate Permanent(a: AuraConfig) {
    a.duration == NEVER_EXPIRES
  }

  /** Whether aura a belongs in list k while it is active. */
  predicate Wants(cfg: Config, a: nat, k: nat)
    requires a < |cfg.auras| && |cfg.auras[a].hears| == KINDS && k < KINDS
  {
    if k == 0 then !Permanent(cfg.auras[a]) else cfg.auras[a].hears[k]
  }

  predicate InCategory(cfg: Config, e: int, c: int) {
    0 <= e < |cfg.effects| && cfg.effects[e].category == c
  }

  predicate Owns(cfg: Config, a: nat, e: nat) {
    e < |cfg.effects| && cfg.effects[e].aura == a
  }

  /** What registration guarantees: durations are positive, an aura's effects are listed with it and
      bid in distinct categories, and a category lists its effects. */
  ghost predicate Registered(cfg: Config) {
    && (forall a :: 0 <= a < |cfg.auras| ==>
          && |cfg.auras[a].hears| == KINDS
          && 0 < cfg.auras[a].duration <= NEVER_EXPIRES)
    && (forall a, i :: 0 <= a < |cfg.auras| && 0 <= i < |cfg.auras[a].effects| ==> Owns(cfg, a, cfg.auras[a].effects[i]))
    && (forall e :: 0 <= e < |cfg.effects| ==>
          && cfg.effects[e].aura < |cfg.auras|
          && e in cfg.auras[cfg.effects[e].aura].effects
          && cfg.effects[e].category < |cfg.categories|
          && e in cfg.categories[cfg.effects[e].category].effects)
    && (forall c, i :: 0 <= c < |cfg.categories| && 0 <= i < |cfg.categories[c].effects| ==>
          InCategory(cfg, cfg.categories[c].effects[i], c))
    && (forall c, i, j :: 0 <= c < |cfg.categories| && 0 <= i < j < |cfg.categories[c].effects| ==>
          cfg.categories[c].effects[i] != cfg.categories[c].effects[j])
    && (forall e, f :: 0 <= e < |cfg.effects| && 0 <= f < |cfg.effects| && e != f && cfg.effects[e].aura == cfg.effects[f].aura ==>
          cfg.effects[e].category != cfg.effects[f].category)
    && (forall a, i, j :: 0 <= a < |cfg.auras| && 0 <= i < j < |cfg.auras[a].effects| ==>
          cfg.auras[a].effects[i] != cfg.auras[a].effects[j])
  }

  // ---------------------------------------------------------------- the ledger of events

  /** What happened, in order: the active flag going up with the expiry set (OnGain follows at once) and
      down, OnExpire running, a new number of stacks, each turn of an event's walk, called or skipped, and
      each aura's check at the end and the start of an iteration. */
  datatype Event =
    | Gain(aura: nat, until: int)
    | Fade(aura: nat)
    | Expire(aura: nat)
    | Stack(aura: nat, n: int)
    | Turn(level: nat, kind: nat, aura: nat, called: bool)
    | Check(aura: nat)

  /** The active flag of an aura, read back from the events. */
  ghost predicate ActiveIn(log: seq<Event>, a: nat) {
    if log == [] then false
    else
      match log[|log| - 1]
      case Gain(b, _) => b == a || ActiveIn(log[..|log| - 1], a)
      case Fade(b) => b != a && ActiveIn(log[..|log| - 1], a)
      case _ => ActiveIn(log[..|log| - 1], a)
  }

  /** The stacks of an aura, read back from the events. */
  ghost function StacksIn(log: seq<Event>, a: nat): int {
    if log == [] then 0
    else
      match log[|log| - 1]
      case Stack(b, n) => if b == a then n else StacksIn(log[..|log| - 1], a)
      case _ => StacksIn(log[..|log| - 1], a)
  }

  /** The fades of an aura whose OnExpire has not run yet. */
  ghost function Owed(log: seq<Event>, a: nat): int {
    if log == [] then 0
    else
      Owed(log[..|log| - 1], a) +
      match log[|log| - 1]
      case Fade(b) => if b == a then 1 else 0
      case Expire(b) => if b == a then -1 else 0
      case _ => 0
  }

  /** The active flag goes up only while it is down, and down only while it is up. */
  ghost predicate Alternates(log: seq<Event>) {
    forall p :: 0 <= p < |log| ==>
      && (log[p].Gain? ==> !ActiveIn(log[..p], log[p].aura))
      && (log[p].Fade? ==> ActiveIn(log[..p], log[p].aura))
  }

  /** Every turn of every event called its aura exactly when the aura was active at that moment. */
  ghost predicate TurnsTruthful(log: seq<Event>) {
    forall p :: 0 <= p < |log| && log[p].Turn? ==> log[p].called == ActiveIn(log[..p], log[p].aura)
  }

  /** The turns taken at one nesting level, in order. */
  ghost function TurnsAt(log: seq<Event>, level: nat): seq<(nat, nat)> {
    if log == [] then []
    else
      var last := log[|log| - 1];
      TurnsAt(log[..|log| - 1], level) + if last.Turn? && last.level == level then [(last.kind, last.aura)] else []
  }

  /** How many of them were calls. */
  ghost function CallsAt(log: seq<Event>, level: nat): nat {
    if log == [] then 0
    else
      var last := log[|log| - 1];
      CallsAt(log[..|log| - 1], level) + if last.Turn? && last.level == level && last.called then 1 else 0
  }

  /** The walk over a callback list: one turn for each aura, in list order. */
  ghost function WalkOf(kind: nat, list: seq<nat>): (turns: seq<(nat, nat)>)
    ensures |turns| == |list|
  {
    seq(|list|, i requires 0 <= i < |list| => (kind, list[i]))
  }

  // ---------------------------------------------------------------- the fields

  /** The fields of the exclusive effects and their categories.  Two sets record what callbacks did while
      an operation on the category was under way.  A category is spoiled once one of its effects has bid,
      withdrawn or changed its bid while the category was between two active effects, or has bid above the
      challenger that was taking it over; it is crowded once an effect has bid in it while another aura that
      bids in it was being activated or deactivated. */
  datatype Bids = Bids(
    priority: seq<real>, enabled: seq<bool>, winner: seq<int>, net: seq<int>, applied: seq<real>,
    spoiled: set<nat>, crowded: set<nat>)

  datatype State = State(
    active: seq<bool>, expires: seq<int>, stacks: seq<int>,
    lists: seq<seq<nat>>, index: seq<seq<int>>, minExpires: int, bids: Bids,
    buffers: seq<seq<nat>>, depth: nat, now: int, log: seq<Event>)

  /** A category's active effect, if it has one, is one of its effects. */
  ghost predicate BidsShape(cfg: Config, b: Bids) {
    && |b.priority| == |b.enabled| == |b.net| == |b.applied| == |cfg.effects|
    && |b.winner| == |cfg.categories|
    && forall c :: 0 <= c < |b.winner| ==> b.winner[c] == NO_EFFECT || InCategory(cfg, b.winner[c], c)
  }

  ghost predicate Shape(cfg: Config, s: State) {
    && |s.active| == |s.expires| == |s.stacks| == |cfg.auras|
    && |s.lists| == |s.index| == KINDS
    && s.depth <= |s.buffers|
    && BidsShape(cfg, s.bids)
  }

  /** A list holds exactly the members, once each, and the stored positions are the true ones. */
  ghost predicate Exact(list: seq<nat>, index: seq<int>, member: seq<bool>) {
    && |index| == |member|
    && (forall p :: 0 <= p < |list| ==> list[p] < |member| && member[list[p]] && index[list[p]] == p)
    && (forall a :: 0 <= a < |member| ==>
          if member[a] then 0 <= index[a] < |list| && list[index[a]] == a else index[a] == NOT_LISTED)
  }

  ghost function Members(cfg: Config, active: seq<bool>, k: nat): (m: seq<bool>)
    requires Registered(cfg) && |active| == |cfg.auras| && k < KINDS
    ensures |m| == |active|
  {
    seq(|active|, a requires 0 <= a < |active| => active[a] && Wants(cfg, a, k))
  }

  ghost predicate ListsExact(cfg: Config, active: seq<bool>, lists: seq<seq<nat>>, index: seq<seq<int>>)
    requires Registered(cfg) && |active| == |cfg.auras| && |lists| == |index| == KINDS
  {
    forall k :: 0 <= k < KINDS ==> Exact(lists[k], index[k], Members(cfg, active, k))
  }

  // ---------------------------------------------------------------- operations under way

  /** busy: the auras being activated or deactivated, whose callbacks are running.
      open: the categories an effect is taking over, and the challenger.
      settling: the categories between two active effects, whose callbacks are running. */
  datatype Context = Context(busy: set<nat>, open: map<nat, nat>, settling: set<nat>)

  const IDLE := Context({}, map[], {})

  ghost predicate Closed(cfg: Config, busy: set<nat>, c: nat) {
    exists e :: InCategory(cfg, e, c) && cfg.effects[e].aura in busy
  }

  /** Whether another aura under way bids in the category of e. */
  ghost predicate Crowds(cfg: Config, busy: set<nat>, e: nat)
    requires e < |cfg.effects|
  {
    exists f :: InCategory(cfg, f, cfg.effects[e].category) && f != e && cfg.effects[f].aura in busy
  }

  // ---------------------------------------------------------------- what the tracker keeps, whatever callbacks do

  ghost predicate StacksOk(cfg: Config, active: seq<bool>, stacks: seq<int>, busy: set<nat>)
    requires |active| == |stacks| == |cfg.auras|
  {
    forall a :: 0 <= a < |cfg.auras| ==>
      && 0 <= stacks[a] <= cfg.auras[a].maxStacks
      && (!active[a] && a !in busy ==> stacks[a] == 0)
  }

  /** An aura at rest is active with all its effects enabled or inactive with none. */
  ghost predicate EnabledOk(cfg: Config, active: seq<bool>, enabled: seq<bool>, busy: set<nat>)
    requires Registered(cfg) && |active| == |cfg.auras| && |enabled| == |cfg.effects|
  {
    forall e :: 0 <= e < |cfg.effects| && cfg.effects[e].aura !in busy ==> enabled[e] == active[cfg.effects[e].aura]
  }

  ghost predicate LogOk(active: seq<bool>, stacks: seq<int>, log: seq<Event>)
    requires |active| == |stacks|
  {
    && (forall a :: 0 <= a < |active| ==> active[a] == ActiveIn(log, a) && stacks[a] == StacksIn(log, a))
    && Alternates(log)
    && TurnsTruthful(log)
  }

  /** Lists, positions, stacks, effects and the ledger agree with the active flags. */
  ghost predicate Tracking(cfg: Config, s: State, busy: set<nat>) {
    && Registered(cfg)
    && Shape(cfg, s)
    && s.now < NEVER_EXPIRES
    && (forall a :: a in busy ==> a < |s.active| && !s.active[a])
    && ListsExact(cfg, s.active, s.lists, s.index)
    && StacksOk(cfg, s.active, s.stacks, busy)
    && EnabledOk(cfg, s.active, s.bids.enabled, busy)
    && LogOk(s.active, s.stacks, s.log)
  }

  // ---------------------------------------------------------------- the arbitration of exclusive effects

  /** No enabled effect of the category bids above e. */
  ghost predicate Highest(cfg: Config, b: Bids, c: int, e: nat)
    requires BidsShape(cfg, b) && e < |cfg.effects|
  {
    forall f :: InCategory(cfg, f, c) && b.enabled[f] ==> b.priority[f] <= b.priority[e]
  }

  ghost predicate NoneEnabled(cfg: Config, b: Bids, c: int)
    requires BidsShape(cfg, b)
  {
    forall e :: InCategory(cfg, e, c) ==> !b.enabled[e]
  }

  /** A category has an active effect w iff one is enabled, and it is a highest bidder.  While a challenger
      takes the category over, the challenger is the highest bidder and the active effect an enabled one. */
  ghost predicate WinnerOk(cfg: Config, b: Bids, w: int, c: nat, open: map<nat, nat>)
    requires BidsShape(cfg, b)
  {
    if c in open then
      && InCategory(cfg, w, c) && b.enabled[w]
      && InCategory(cfg, open[c], c) && b.enabled[open[c]] && Highest(cfg, b, c, open[c])
    else if w == NO_EFFECT then NoneEnabled(cfg, b, c)
    else InCategory(cfg, w, c) && b.enabled[w] && Highest(cfg, b, c, w)
  }

  /** OnGain has run once more than OnExpire for a category's active effect and equally often for any
      other; what they applied in sum is the active effect's bid, and nothing for the others. */
  ghost predicate LedgerIn(cfg: Config, b: Bids, w: int, c: nat)
    requires BidsShape(cfg, b)
  {
    forall e :: InCategory(cfg, e, c) ==>
      if w == e then b.net[e] == 1 && b.applied[e] == b.priority[e] else b.net[e] == 0 && b.applied[e] == 0.0
  }

  ghost predicate CategoryOk(cfg: Config, b: Bids, c: nat, open: map<nat, nat>)
    requires BidsShape(cfg, b) && c < |cfg.categories|
  {
    WinnerOk(cfg, b, b.winner[c], c, open) && LedgerIn(cfg, b, b.winner[c], c)
  }

  ghost predicate NeverYields(cfg: Config, c: nat) {
    forall e :: InCategory(cfg, e, c) ==> !cfg.effects[e].yieldsTies
  }

  ghost predicate AtMostOneEnabled(cfg: Config, b: Bids, c: nat)
    requires BidsShape(cfg, b)
  {
    forall e, f :: InCategory(cfg, e, c) && InCategory(cfg, f, c) && b.enabled[e] && b.enabled[f] ==> e == f
  }

  /** A single-aura category none of whose effects yields ties. */
  ghost predicate Single(cfg: Config, c: nat) {
    c < |cfg.categories| && cfg.categories[c].singleAura && NeverYields(cfg, c)
  }

  ghost predicate OpenOk(cfg: Config, ctx: Context) {
    forall c :: c in ctx.open ==> InCategory(cfg, ctx.open[c], c) && cfg.effects[ctx.open[c]].aura in ctx.busy
  }

  /** Every category that is not spoiled is decided, unless it is settling; and at most one effect is
      enabled in a single-aura category that is not crowded either, unless it is being taken over. */
  ghost predicate Arbitrated(cfg: Config, b: Bids, ctx: Context) {
    && BidsShape(cfg, b)
    && OpenOk(cfg, ctx)
    && (forall c :: 0 <= c < |cfg.categories| && c !in b.spoiled && c !in ctx.settling ==> CategoryOk(cfg, b, c, ctx.open))
    && (forall c :: 0 <= c < |cfg.categories| && c !in b.spoiled && c !in b.crowded && c !in ctx.open && Single(cfg, c) ==>
          AtMostOneEnabled(cfg, b, c))
  }

  ghost predicate Inv(cfg: Config, s: State, ctx: Context) {
    Tracking(cfg, s, ctx.busy) && Arbitrated(cfg, s.bids, ctx)
  }

  // ---------------------------------------------------------------- what an operation leaves alone

  /** The cached minimum is at or below the expiry of every active aura that may expire. */
  ghost predicate MinExpiresLow(cfg: Config, active: seq<bool>, expires: seq<int>, minExpires: int)
    requires |active| == |expires| == |cfg.auras|
  {
    forall a :: 0 <= a < |cfg.auras| && active[a] && !Permanent(cfg.auras[a]) ==> minExpires <= expires[a]
  }

  /** Aura h is active and has more time left than aura a could have. */
  ghost predicate LastsLonger(cfg: Config, active: seq<bool>, expires: seq<int>, now: int, h: nat, a: nat)
    requires h < |active| == |expires| == |cfg.auras| && a < |cfg.auras|
  {
    active[h] && if expires[h] == NEVER_EXPIRES then cfg.auras[a].duration < NEVER_EXPIRES else now + cfg.auras[a].duration < expires[h]
  }

  ghost predicate Overdue(active: seq<bool>, expires: seq<int>, now: int, a: int)
    requires |active| == |expires|
  {
    0 <= a < |active| && active[a] && expires[a] <= now
  }

  /** The ledger grows, with turns of deeper levels and without checks. */
  ghost predicate LogGrows(log: seq<Event>, more: seq<Event>, depth: nat) {
    && |log| <= |more| && more[..|log|] == log
    && forall p :: |log| <= p < |more| ==> !more[p].Check? && (more[p].Turn? ==> depth <= more[p].level)
  }

  /** What an operation leaves of the tracker alone, whatever its callbacks do. */
  ghost predicate KeptTracking(cfg: Config, s: State, t: State, busy: set<nat>) {
    && Shape(cfg, s) && Shape(cfg, t)
    && t.now == s.now
    // nested events write no buffer of an outer one, and restore the depth
    && t.depth == s.depth
    && s.depth <= |t.buffers| && t.buffers[..s.depth] == s.buffers[..s.depth]
    && LogGrows(s.log, t.log, s.depth)
    // the cached minimum stays low, and nothing becomes overdue
    && (MinExpiresLow(cfg, s.active, s.expires, s.minExpires) ==> MinExpiresLow(cfg, t.active, t.expires, t.minExpires))
    && (forall a :: Overdue(t.active, t.expires, t.now, a) ==> Overdue(s.active, s.expires, s.now, a))
    // auras under way stay inactive, and their stacks only ever vanish
    && (forall a :: 0 <= a < |cfg.auras| && a in busy && t.active[a] ==> s.active[a])
    && (forall a :: 0 <= a < |cfg.auras| && a in busy ==> t.stacks[a] == s.stacks[a] || t.stacks[a] == 0)
  }

  /** Nothing about the category differs but the bids of effects that are not enabled. */
  ghost predicate SameIn(cfg: Config, b: Bids, b': Bids, c: nat)
    requires BidsShape(cfg, b) && BidsShape(cfg, b')
  {
    && (c < |cfg.categories| ==> b'.winner[c] == b.winner[c])
    && forall e :: InCategory(cfg, e, c) ==>
         && b'.enabled[e] == b.enabled[e] && (b.enabled[e] ==> b'.priority[e] == b.priority[e])
         && b'.net[e] == b.net[e] && b'.applied[e] == b.applied[e]
  }

  /** What it leaves of the exclusive effects alone: effects of auras under way; categories in which such an
      aura bids, which gain no bidder unless they are crowded; settling categories, unless they are spoiled. */
  ghost predicate KeptBids(cfg: Config, b: Bids, b': Bids, ctx: Context) {
    && BidsShape(cfg, b) && BidsShape(cfg, b')
    && b.spoiled <= b'.spoiled && b.crowded <= b'.crowded
    && (forall e :: 0 <= e < |cfg.effects| && cfg.effects[e].aura in ctx.busy ==> b'.enabled[e] == b.enabled[e])
    && (forall e :: (0 <= e < |cfg.effects| && b'.enabled[e] && cfg.effects[e].category !in b'.crowded
                     && Closed(cfg, ctx.busy, cfg.effects[e].category)) ==> b.enabled[e])
    && (forall c :: c in ctx.settling && c !in b'.spoiled ==> SameIn(cfg, b, b', c))
  }

  ghost predicate Kept(cfg: Config, s: State, t: State, ctx: Context) {
    KeptTracking(cfg, s, t, ctx.busy) && KeptBids(cfg, s.bids, t.bids, ctx)
  }

  /** Every fade that began during the operation has run its OnExpire. */
  ghost predicate Settled(s: State, t: State) {
    forall a: nat :: Owed(t.log, a) == Owed(s.log, a)
  }
}

/** Exactly when what a callback does while a single-aura category changes hands leaves the category
    undecided, or with two bidders. */
module AuraConflicts {
  import opened AuraState
  import opened AuraLemmas
  import opened Arbitration
  import opened Callbacks
  import opened AuraSteps
  import opened AuraReach
  import opened AuraIterations
  import opened Auras

  /** The challenger e is enabled and about to end the active aura that holds its single-aura category, in an
      operation that is not itself within a take-over or a change of active effect. */
  ghost predicate Challenges(cfg: Config, s: State, e: nat, ctx: Context) {
    && e < |cfg.effects| && Inv(cfg, s, Taking(cfg, ctx, e)) && OpenOk(cfg, ctx)
    && ctx.open == map[] && ctx.settling == {}
    && s.bids.enabled[e] && cfg.effects[e].aura in ctx.busy
    && var c := cfg.effects[e].category;
       && c !in s.bids.spoiled && cfg.categories[c].singleAura
       && var w := s.bids.winner[c];
          && InCategory(cfg, w, c) && w != e && s.active[cfg.effects[w].aura]
          && OnlyTwo(cfg, s.bids, e, w, ctx)
  }

  ghost function Holder(cfg: Config, s: State, e: nat): (h: nat)
    requires e < |cfg.effects| && cfg.effects[e].category < |s.bids.winner| && InCategory(cfg, s.bids.winner[cfg.effects[e].category], cfg.effects[e].category)
  {
    cfg.effects[s.bids.winner[cfg.effects[e].category]].aura
  }

  /** The holder has withdrawn with every callback plain: no bid but its own is gone or changed, and where
      nothing else crowds the category, the challenger is left alone and is the active effect. */
  ghost predicate Cleared(cfg: Config, s: State, t: State, e: nat, ctx: Context) {
    && Challenges(cfg, s, e, ctx) && Shape(cfg, s) && Shape(cfg, t)
    && Inv(cfg, t, Taking(cfg, ctx, e))
    && Calm(cfg, s.bids, t.bids, ctx, {})
    && (forall f :: 0 <= f < |cfg.effects| ==> t.bids.enabled[f] == (s.bids.enabled[f] && cfg.effects[f].aura != Holder(cfg, s, e)))
    && t.bids.enabled[e] && !t.active[cfg.effects[e].aura]
    && var c := cfg.effects[e].category;
       && Highest(cfg, t.bids, c, e)
       && (Single(cfg, c) && c !in s.bids.crowded ==>
             t.bids.winner[c] == e && forall f :: InCategory(cfg, f, c) && t.bids.enabled[f] ==> f == e)
  }

  lemma HolderCleared(cfg: Config, s: State, t: State, e: nat, ctx: Context)
    requires Challenges(cfg, s, e, ctx) && Inv(cfg, t, Taking(cfg, ctx, e)) && Kept(cfg, s, t, Taking(cfg, ctx, e))
    requires Calm(cfg, s.bids, t.bids, Taking(cfg, ctx, e), {})
    requires forall f :: 0 <= f < |cfg.effects| ==> t.bids.enabled[f] == (s.bids.enabled[f] && cfg.effects[f].aura != Holder(cfg, s, e))
    ensures Cleared(cfg, s, t, e, ctx)
  {
    hide Tracking, KeptTracking, LedgerIn;
    var taking := Taking(cfg, ctx, e);
    InvShape(cfg, s, taking);
    InvShape(cfg, t, taking);
    KeptShape(cfg, s, t, taking);
    BusyIsInactive(cfg, t, taking, cfg.effects[e].aura);
    assert CategoryOk(cfg, t.bids, cfg.effects[e].category, taking.open);
  }

  /** The steps of a take-over up to the holder's OnExpire. */
  method WithdrawHolder(tracker: AuraTracker, e: nat, ctx: Context, tape: seq<Command>) returns (rest: seq<Command>)
    requires Challenges(tracker.cfg, tracker.Snap(), e, ctx) && PlainTape(tracker.cfg, tape)
    modifies tracker
    ensures Cleared(tracker.cfg, old(tracker.Snap()), tracker.Snap(), e, ctx)
    ensures KeptSettled(tracker.cfg, old(tracker.Snap()), tracker.Snap(), Taking(tracker.cfg, ctx, e))
    ensures PlainTape(tracker.cfg, rest)
  {
    hide Ran, Kept, Tracking, Arbitrated, Cleared, PlainTape, Calm, OnlyTwo, Fades;
    var cfg := tracker.cfg;
    ghost var s0 := tracker.Snap();
    var taking := Taking(cfg, ctx, e);
    InvShape(cfg, s0, taking);
    var h := cfg.effects[tracker.winner[cfg.effects[e].category]].aura;
    rest := tracker.Fade(h, taking, tape);
    RanKept(cfg, s0, tracker.Snap(), taking, Fades(cfg, taking, h), tape, rest);
    HolderCleared(cfg, s0, tracker.Snap(), e, ctx);
  }

  /** What an operation and its callbacks leave alone, with every fade's OnExpire run. */
  ghost predicate KeptSettled(cfg: Config, s: State, t: State, ctx: Context) {
    Kept(cfg, s, t, ctx) && Settled(s, t)
  }

  lemma KeptSettledOn(cfg: Config, s: State, t: State, u: State, ctx: Context)
    requires KeptSettled(cfg, s, t, ctx) && KeptSettled(cfg, t, u, ctx)
    ensures KeptSettled(cfg, s, u, ctx)
  {
    hide Kept;
    KeptTransitive(cfg, s, t, u, ctx);
  }

  lemma RanSettles(cfg: Config, s: State, t: State, ctx: Context, reach: Reach, tape: seq<Command>, rest: seq<Command>)
    requires Ran(cfg, s, t, ctx, reach, tape, rest)
    ensures KeptSettled(cfg, s, t, ctx)
    ensures Shape(cfg, s) && Shape(cfg, t)
    ensures forall e :: 0 <= e < |cfg.effects| && cfg.effects[e].aura in ctx.busy ==> t.bids.enabled[e] == s.bids.enabled[e]
  {
    KeptShape(cfg, s, t, ctx);
  }

  /** The challenger e is the category's active effect in the end. */
  ghost predicate Decided(cfg: Config, s: State, e: nat)
    requires Shape(cfg, s) && e < |cfg.effects|
  {
    WinnerOk(cfg, s.bids, e, cfg.effects[e].category, map[])
  }

  lemma ClearedFacts(cfg: Config, s: State, t: State, e: nat, ctx: Context)
    requires Cleared(cfg, s, t, e, ctx)
    ensures Inv(cfg, t, Taking(cfg, ctx, e)) && Taking(cfg, ctx, e).busy == ctx.busy && cfg.effects[e].aura in ctx.busy
    ensures Registered(cfg) && Shape(cfg, s) && Shape(cfg, t) && t.bids.enabled[e]
    ensures cfg.effects[e].category < |cfg.categories| && t.bids.priority == s.bids.priority
  {
    hide Arbitrated, ListsExact;
    InvShape(cfg, t, Taking(cfg, ctx, e));
  }

  /** The end of a take-over, after whatever the holder's OnExpire did. */
  method TakeCategory(tracker: AuraTracker, e: nat, ctx: Context, ghost s0: State, ghost s1: State, tape: seq<Command>)
    requires Cleared(tracker.cfg, s0, s1, e, ctx) && Inv(tracker.cfg, tracker.Snap(), Taking(tracker.cfg, ctx, e))
    requires Shape(tracker.cfg, tracker.Snap()) && tracker.cfg.effects[e].category < |tracker.cfg.categories|
    requires KeptSettled(tracker.cfg, s0, s1, Taking(tracker.cfg, ctx, e))
    requires KeptSettled(tracker.cfg, s1, tracker.Snap(), Taking(tracker.cfg, ctx, e)) && PlainTape(tracker.cfg, tape)
    modifies tracker
    ensures Inv(tracker.cfg, tracker.Snap(), ctx) && KeptSettled(tracker.cfg, s0, tracker.Snap(), ctx)
    ensures tracker.winner == old(tracker.winner)[tracker.cfg.effects[e].category := e]
    ensures tracker.enabled == old(tracker.enabled) && tracker.priority == old(tracker.priority)
    ensures tracker.spoiled == old(tracker.spoiled) && tracker.crowded == old(tracker.crowded)
  {
    hide Ran, KeptSettled, Inv, PlainTape, Calm, WinnerOk, LedgerIn, Works;
    var cfg := tracker.cfg;
    var c := cfg.effects[e].category;
    hide Cleared;
    ghost var s2 := tracker.Snap();
    CloseContest(cfg, s0, s1, s2, e, ctx);
    var rest := tracker.SetActive(c, e, ctx, false, tape);
    RanSettles(cfg, s2, tracker.Snap(), ctx, Works(cfg, ctx, {c}), tape, rest);
    KeptSettledOn(cfg, s0, s2, tracker.Snap(), ctx);
  }

  lemma CloseContest(cfg: Config, s0: State, s1: State, s2: State, e: nat, ctx: Context)
    requires Cleared(cfg, s0, s1, e, ctx) && Inv(cfg, s2, Taking(cfg, ctx, e))
    requires KeptSettled(cfg, s0, s1, Taking(cfg, ctx, e)) && KeptSettled(cfg, s1, s2, Taking(cfg, ctx, e))
    ensures e < |cfg.effects| && cfg.effects[e].category < |cfg.categories|
    ensures Inv(cfg, s2, Settling(ctx, cfg.effects[e].category)) && KeptSettled(cfg, s0, s2, ctx)
    ensures Shape(cfg, s2) && s2.bids.enabled[e] && cfg.effects[e].category !in ctx.settling
    ensures var c := cfg.effects[e].category;
            c !in s2.bids.spoiled ==> LedgerIn(cfg, s2.bids, s2.bids.winner[c], c) && WinnerOk(cfg, s2.bids, e, c, ctx.open)
  {
    hide Tracking, Arbitrated, KeptTracking, WinnerOk, LedgerIn, Closed, Highest;
    var taking := Taking(cfg, ctx, e);
    InvShape(cfg, s2, taking);
    InvShape(cfg, s0, taking);
    KeptSettledOn(cfg, s0, s1, s2, taking);
    var w: nat := s0.bids.winner[cfg.effects[e].category];
    hide Settled, KeptBids;
    StillWithdrawn(cfg, s0, s1, s2, e, w, ctx);
    CloseStep(cfg, s0, s2, e, w, ctx);
  }

  /** The effects of the holder that ended bid again in no category in which an aura under way bids, unless it is crowded. */
  lemma StillWithdrawn(cfg: Config, s0: State, s1: State, s2: State, e: nat, w: nat, ctx: Context)
    requires Cleared(cfg, s0, s1, e, ctx) && Kept(cfg, s1, s2, Taking(cfg, ctx, e))
    requires cfg.effects[e].category < |s0.bids.winner| && w == s0.bids.winner[cfg.effects[e].category]
    ensures Shape(cfg, s2)
    ensures forall f :: (0 <= f < |cfg.effects| && cfg.effects[f].aura == cfg.effects[w].aura && Closed(cfg, ctx.busy, cfg.effects[f].category)
                         && cfg.effects[f].category !in s2.bids.crowded) ==> !s2.bids.enabled[f]
  {
    hide KeptTracking, Inv, Closed, Calm, OnlyTwo;
    KeptShape(cfg, s1, s2, Taking(cfg, ctx, e));
  }

  /** Who bids in the category in the end: the challenger, the aura a if it has landed, and nobody else where
      nothing crowded the category before. */
  ghost predicate Bidders(cfg: Config, s: State, e: nat, a: nat, landed: bool, crowded: set<nat>)
    requires Shape(cfg, s) && e < |cfg.effects|
  {
    var c := cfg.effects[e].category;
    && s.bids.enabled[e]
    && (forall f :: 0 <= f < |cfg.effects| && cfg.effects[f].aura == a ==> s.bids.enabled[f] == landed)
    && (Single(cfg, c) && c !in crowded ==> forall f :: InCategory(cfg, f, c) && s.bids.enabled[f] ==> f == e || cfg.effects[f].aura == a)
  }

  /** While e takes the category over, the holder's OnExpire activates the aura a, every other callback being
      plain.  If a lands, the category is decided in the end exactly if a bids in it no higher than the
      challenger.  If a bids nowhere else and the category was neither crowded nor one with yielding effects, a
      lands exactly on a bid at least as high: so on a tie the category is decided but two stand in it, and on
      a higher bid it is not even decided. */
  method ContestedTakeOver(tracker: AuraTracker, e: nat, a: nat, ctx: Context, tape: seq<Command>, during: seq<Command>, after: seq<Command>)
    returns (landed: bool)
    requires Challenges(tracker.cfg, tracker.Snap(), e, ctx)
    requires PlainTape(tracker.cfg, tape) && PlainTape(tracker.cfg, during) && PlainTape(tracker.cfg, after)
    requires a < |tracker.cfg.auras| && a !in ctx.busy
    modifies tracker
    ensures Inv(tracker.cfg, tracker.Snap(), ctx) && KeptSettled(tracker.cfg, old(tracker.Snap()), tracker.Snap(), ctx)
    ensures tracker.winner[tracker.cfg.effects[e].category] == e && tracker.priority == old(tracker.priority)
    ensures Bidders(tracker.cfg, tracker.Snap(), e, a, landed, old(tracker.crowded))
    ensures Decided(tracker.cfg, tracker.Snap(), e) <==>
              (landed ==> forall f :: InCategory(tracker.cfg, f, tracker.cfg.effects[e].category) && tracker.cfg.effects[f].aura == a ==>
                            old(tracker.priority)[f] <= old(tracker.priority)[e])
    ensures var c := tracker.cfg.effects[e].category;
            Single(tracker.cfg, c) && c !in old(tracker.crowded) ==>
              forall f :: tracker.cfg.auras[a].effects == [f] && InCategory(tracker.cfg, f, c) ==>
                && (landed <==> old(tracker.priority)[f] >= old(tracker.priority)[e])
                && (AtMostOneEnabled(tracker.cfg, tracker.Arena(), c) <==> old(tracker.priority)[f] < old(tracker.priority)[e])
  {
    hide Ran, KeptSettled, Inv, PlainTape, Calm, Cleared, Works;
    var cfg := tracker.cfg;
    ghost var s0 := tracker.Snap();
    var taking := Taking(cfg, ctx, e);
    var rest := WithdrawHolder(tracker, e, ctx, tape);
    ghost var s1 := tracker.Snap();
    LoneBidder(tracker, s0, e, a, ctx);
    ClearedFacts(cfg, s0, s1, e, ctx);
    landed := tracker.Activate(a, taking, during, after);
    ghost var s2 := tracker.Snap();
    RanSettles(cfg, s1, s2, taking, Works(cfg, taking, {}), [Command(Op.Activate(a), during, after)], []);
    assert s2.bids.enabled[e];
    TakeCategory(tracker, e, ctx, s0, s1, rest);
    InvShape(cfg, tracker.Snap(), ctx);
    ContestDecided(cfg, s0, s1, s2, tracker.Snap(), e, a, landed, ctx);
    forall f | (Single(cfg, cfg.effects[e].category) && cfg.effects[e].category !in s0.bids.crowded
                && cfg.auras[a].effects == [f] && InCategory(cfg, f, cfg.effects[e].category))
      ensures && (landed <==> s0.bids.priority[f] >= s0.bids.priority[e])
              && (AtMostOneEnabled(cfg, tracker.Arena(), cfg.effects[e].category) <==> s0.bids.priority[f] < s0.bids.priority[e])
    {
      assert Owns(cfg, a, cfg.auras[a].effects[0]);
      ContestAlone(cfg, s0, s1, s2, tracker.Snap(), e, a, f, landed, ctx);
    }
  }

  /** An aura that bids in the cleared category alone is inactive, and blocked exactly by a higher challenger. */
  lemma LoneBidder(tracker: AuraTracker, s0: State, e: nat, a: nat, ctx: Context)
    requires Cleared(tracker.cfg, s0, tracker.Snap(), e, ctx) && a < |tracker.cfg.auras| && a !in ctx.busy
    ensures Registered(tracker.cfg) && Shape(tracker.cfg, tracker.Snap())
    ensures var c := tracker.cfg.effects[e].category;
            Single(tracker.cfg, c) && c !in s0.bids.crowded ==>
              forall f :: tracker.cfg.auras[a].effects == [f] && InCategory(tracker.cfg, f, c) ==>
                !tracker.active[a] && (tracker.Blocks(f) <==> tracker.priority[f] < tracker.priority[e])
  {
    hide Calm, Arbitrated, ListsExact, LogOk, StacksOk, OnlyTwo;
    var cfg := tracker.cfg;
    var c := cfg.effects[e].category;
    InvShape(cfg, tracker.Snap(), Taking(cfg, ctx, e));
    forall f | (Single(cfg, c) && c !in s0.bids.crowded
                && cfg.auras[a].effects == [f] && InCategory(cfg, f, c))
      ensures !tracker.active[a] && (tracker.Blocks(f) <==> tracker.priority[f] < tracker.priority[e])
    {
      assert Owns(cfg, a, cfg.auras[a].effects[0]);
    }
  }

  lemma ContestAlone(cfg: Config, s0: State, s1: State, s2: State, t: State, e: nat, a: nat, f: nat, landed: bool, ctx: Context)
    requires Cleared(cfg, s0, s1, e, ctx) && a < |cfg.auras| && a !in ctx.busy && Shape(cfg, s2) && Shape(cfg, t)
    requires Calm(cfg, s1.bids, s2.bids, Taking(cfg, ctx, e), {a})
    requires Single(cfg, cfg.effects[e].category) && cfg.effects[e].category !in s0.bids.crowded
    requires cfg.auras[a].effects == [f] && InCategory(cfg, f, cfg.effects[e].category) && cfg.effects[f].aura == a
    requires landed <==> s2.bids.enabled[f]
    requires t.bids.enabled == s2.bids.enabled && s2.bids.enabled[e]
    ensures AtMostOneEnabled(cfg, t.bids, cfg.effects[e].category) <==> !landed
  {
    hide Inv, OnlyTwo;
    InvShape(cfg, s1, Taking(cfg, ctx, e));
    assert landed ==> f != e && t.bids.enabled[f] && t.bids.enabled[e];
  }

  lemma ContestDecided(cfg: Config, s0: State, s1: State, s2: State, t: State, e: nat, a: nat, landed: bool, ctx: Context)
    requires Cleared(cfg, s0, s1, e, ctx) && a < |cfg.auras| && a !in ctx.busy && Shape(cfg, s2) && Shape(cfg, t)
    requires Calm(cfg, s1.bids, s2.bids, Taking(cfg, ctx, e), {a})
    requires forall f :: 0 <= f < |cfg.effects| && cfg.effects[f].aura == a && landed ==> s2.bids.enabled[f]
    requires forall f :: 0 <= f < |cfg.effects| && cfg.effects[f].aura == a && !landed ==> !s2.bids.enabled[f]
    requires t.bids.enabled == s2.bids.enabled && t.bids.priority == s2.bids.priority && s2.bids.enabled[e]
    ensures t.bids.priority == s0.bids.priority && Registered(cfg)
    ensures Bidders(cfg, t, e, a, landed, s0.bids.crowded)
    ensures Decided(cfg, t, e) <==>
              (landed ==> forall f :: InCategory(cfg, f, cfg.effects[e].category) && cfg.effects[f].aura == a ==>
                            s0.bids.priority[f] <= s0.bids.priority[e])
  {
    hide Inv;
    InvShape(cfg, s1, Taking(cfg, ctx, e));
  }

  /** While e takes the category over, the holder's OnExpire changes the bid of an effect g of the category to p,
      every other callback being plain.  The category is decided in the end exactly if a bid p of the challenger
      is no lower than those left, and a bid p of another that is left no higher than the challenger's. */
  method RebidTakeOver(tracker: AuraTracker, e: nat, g: nat, p: real, ctx: Context, tape: seq<Command>, during: seq<Command>)
    requires Challenges(tracker.cfg, tracker.Snap(), e, ctx) && PlainTape(tracker.cfg, tape) && PlainTape(tracker.cfg, during)
    requires InCategory(tracker.cfg, g, tracker.cfg.effects[e].category)
    modifies tracker
    ensures Inv(tracker.cfg, tracker.Snap(), ctx) && KeptSettled(tracker.cfg, old(tracker.Snap()), tracker.Snap(), ctx)
    ensures tracker.winner[tracker.cfg.effects[e].category] == e && tracker.priority == old(tracker.priority)[g := p]
    ensures Decided(tracker.cfg, tracker.Snap(), e) <==>
              if g == e then
                forall f :: InCategory(tracker.cfg, f, tracker.cfg.effects[e].category) && f != e && old(Left(tracker, e, f)) ==>
                  old(tracker.priority)[f] <= p
              else
                old(Left(tracker, e, g)) ==> p <= old(tracker.priority)[e]
  {
    hide Ran, KeptSettled, Inv, PlainTape, Calm, Cleared, Rebids;
    var cfg := tracker.cfg;
    ghost var s0 := tracker.Snap();
    var taking := Taking(cfg, ctx, e);
    var rest := WithdrawHolder(tracker, e, ctx, tape);
    ghost var s1 := tracker.Snap();
    ClearedFacts(cfg, s0, s1, e, ctx);
    var last := tracker.SetPriority(g, p, taking, during);
    ghost var s2 := tracker.Snap();
    RanSettles(cfg, s1, s2, taking, Rebids(cfg, taking, cfg.effects[g].category), during, last);
    assert s2.bids.enabled[e];
    TakeCategory(tracker, e, ctx, s0, s1, rest);
    InvShape(cfg, tracker.Snap(), ctx);
    RebidDecided(cfg, s0, s1, tracker.Snap(), e, g, p, ctx);
  }

  /** An enabled effect that the holder's end leaves enabled. */
  ghost predicate Left(tracker: AuraTracker, e: nat, f: nat)
    requires e < |tracker.cfg.effects| && f < |tracker.cfg.effects| == |tracker.enabled|
    requires tracker.cfg.effects[e].category < |tracker.winner|
    requires InCategory(tracker.cfg, tracker.winner[tracker.cfg.effects[e].category], tracker.cfg.effects[e].category)
    reads tracker
  {
    tracker.enabled[f] && tracker.cfg.effects[f].aura != Holder(tracker.cfg, tracker.Snap(), e)
  }

  lemma RebidDecided(cfg: Config, s0: State, s1: State, t: State, e: nat, g: nat, p: real, ctx: Context)
    requires Cleared(cfg, s0, s1, e, ctx) && Shape(cfg, t) && InCategory(cfg, g, cfg.effects[e].category)
    requires t.bids.enabled == s1.bids.enabled && t.bids.priority == s1.bids.priority[g := p]
    ensures Decided(cfg, t, e) <==>
              if g == e then
                forall f :: (InCategory(cfg, f, cfg.effects[e].category) && f != e
                             && s0.bids.enabled[f] && cfg.effects[f].aura != Holder(cfg, s0, e)) ==> s0.bids.priority[f] <= p
              else
                s0.bids.enabled[g] && cfg.effects[g].aura != Holder(cfg, s0, e) ==> p <= s0.bids.priority[e]
  {
    hide Inv, OnlyTwo;
  }

  // ---------------------------------------------------------------- a whole activation

  /** The activation of an aura b with the one effect e, which takes its category over from an active aura whose
      OnExpire activates the aura a. */
  method ContestedActivation(tracker: AuraTracker, b: nat, e: nat, a: nat, tape: seq<Command>, during: seq<Command>, after: seq<Command>)
    returns (landed: bool)
    requires Inv(tracker.cfg, tracker.Snap(), IDLE) && Registered(tracker.cfg) && Shape(tracker.cfg, tracker.Snap())
    requires PlainTape(tracker.cfg, tape) && PlainTape(tracker.cfg, during) && PlainTape(tracker.cfg, after)
    requires b < |tracker.cfg.auras| && !tracker.active[b] && tracker.cfg.auras[b].effects == [e] && Owns(tracker.cfg, b, e)
    requires a < |tracker.cfg.auras| && a != b
    requires var c := tracker.cfg.effects[e].category;
             && c !in tracker.spoiled && tracker.cfg.categories[c].singleAura && tracker.winner[c] != NO_EFFECT
             && !tracker.Blocks(e) && tracker.Takes(e)
    modifies tracker
    ensures Inv(tracker.cfg, tracker.Snap(), IDLE) && tracker.active[b]
    ensures tracker.winner[tracker.cfg.effects[e].category] == e && tracker.priority == old(tracker.priority)
    ensures Bidders(tracker.cfg, tracker.Snap(), e, a, landed, old(tracker.crowded))
    ensures Decided(tracker.cfg, tracker.Snap(), e) <==>
              (landed ==> forall f :: InCategory(tracker.cfg, f, tracker.cfg.effects[e].category) && tracker.cfg.effects[f].aura == a ==>
                            old(tracker.priority)[f] <= old(tracker.priority)[e])
    ensures var c := tracker.cfg.effects[e].category;
            Single(tracker.cfg, c) && c !in old(tracker.crowded) ==>
              forall f :: tracker.cfg.auras[a].effects == [f] && InCategory(tracker.cfg, f, c) ==>
                && (landed <==> old(tracker.priority)[f] >= old(tracker.priority)[e])
                && (AtMostOneEnabled(tracker.cfg, tracker.Arena(), c) <==> old(tracker.priority)[f] < old(tracker.priority)[e])
  {
    hide KeptSettled, Kept, Tracking, Arbitrated, PlainTape, Calm, OnlyTwo, Upsets, Crowds;
    var cfg := tracker.cfg;
    ghost var s0 := tracker.Snap();
    var ctx := Entering(IDLE, b);
    EnterKeepsInv(cfg, s0, IDLE, b);
    BeforeBidding(cfg, s0, b, e);
    tracker.enabled := tracker.enabled[e := true];
    tracker.spoiled := Marked(cfg, tracker.spoiled, e, Upsets(cfg, s0.bids, ctx, e, tracker.priority[e]));
    tracker.crowded := Marked(cfg, tracker.crowded, e, Crowds(cfg, ctx.busy, e));
    ghost var s1 := tracker.Snap();
    ChallengeStep(cfg, s0, s1, e, ctx);
    StartsChallenge(cfg, s0, s1, b, e, ctx);
    landed := ContestedTakeOver(tracker, e, a, ctx, tape, during, after);
    ghost var s2 := tracker.Snap();
    LandsAfter(cfg, s1, s2, b, e, ctx);
    tracker.Land(b, IDLE);
  }

  lemma BeforeBidding(cfg: Config, s: State, b: nat, e: nat)
    requires Inv(cfg, s, IDLE) && Shape(cfg, s) && b < |cfg.auras| && !s.active[b] && Owns(cfg, b, e)
    ensures OpenOk(cfg, Entering(IDLE, b)) && !s.bids.enabled[e] && cfg.effects[e].category < |cfg.categories|
  {
    hide Arbitrated, ListsExact, LogOk;
  }

  lemma StartsChallenge(cfg: Config, s0: State, s1: State, b: nat, e: nat, ctx: Context)
    requires Inv(cfg, s0, IDLE) && Shape(cfg, s0) && b < |cfg.auras| && Owns(cfg, b, e) && cfg.auras[b].effects == [e]
    requires ctx == Entering(IDLE, b) && OpenOk(cfg, ctx) && s1 == s0.(bids := Bidding(cfg, s0.bids, e, ctx)) && !s0.bids.enabled[e]
    requires Inv(cfg, s1, Taking(cfg, ctx, e)) && Registered(cfg)
    requires var c := cfg.effects[e].category;
             && c !in s0.bids.spoiled && cfg.categories[c].singleAura && s0.bids.winner[c] != NO_EFFECT
             && OnlyTwo(cfg, s1.bids, e, s0.bids.winner[c], ctx)
    ensures Challenges(cfg, s1, e, ctx) && s1.bids.crowded == s0.bids.crowded && s1.bids.priority == s0.bids.priority
  {
    hide Tracking, OnlyTwo, LedgerIn;
    var c := cfg.effects[e].category;
    assert CategoryOk(cfg, s0.bids, c, map[]);
    HolderActive(cfg, s0, c);
    assert !Crowds(cfg, ctx.busy, e);
  }

  lemma HolderActive(cfg: Config, s: State, c: nat)
    requires Inv(cfg, s, IDLE) && Shape(cfg, s) && c < |cfg.categories| && c !in s.bids.spoiled && s.bids.winner[c] != NO_EFFECT
    ensures InCategory(cfg, s.bids.winner[c], c) && cfg.effects[s.bids.winner[c]].aura < |s.active|
    ensures s.bids.enabled[s.bids.winner[c]] && s.active[cfg.effects[s.bids.winner[c]].aura]
  {
    hide LedgerIn, ListsExact, LogOk;
    assert CategoryOk(cfg, s.bids, c, map[]);
  }

  lemma LandsAfter(cfg: Config, s: State, t: State, b: nat, e: nat, ctx: Context)
    requires Inv(cfg, t, ctx) && KeptSettled(cfg, s, t, ctx) && ctx == Entering(IDLE, b) && b < |cfg.auras|
    requires Registered(cfg) && Shape(cfg, s) && cfg.auras[b].effects == [e] && Owns(cfg, b, e) && s.bids.enabled[e]
    ensures Shape(cfg, t) && !t.active[b] && forall f :: 0 <= f < |cfg.effects| && cfg.effects[f].aura == b ==> t.bids.enabled[f]
  {
    hide Tracking, Arbitrated, Settled, KeptTracking;
    KeptShape(cfg, s, t, ctx);
    BusyIsInactive(cfg, t, ctx, b);
  }

  // ---------------------------------------------------------------- bidding in a category that settles

  /** OnGain has run once more than OnExpire for w, and as often for every other effect of the category. */
  ghost predicate GainedOnce(cfg: Config, b: Bids, w: int, c: nat)
    requires BidsShape(cfg, b)
  {
    forall e :: InCategory(cfg, e, c) ==> b.net[e] == if e == w then 1 else 0
  }

  /** A category about to be handed over from its active effect to another, or to nobody, in an operation that is
      not itself within a take-over or a change of active effect. */
  ghost predicate HandsOver(cfg: Config, s: State, c: nat, next: int, ctx: Context) {
    && Inv(cfg, s, Settling(ctx, c)) && Registered(cfg) && Shape(cfg, s) && c < |cfg.categories|
    && ctx.open == map[] && ctx.settling == {} && c !in s.bids.spoiled
    && s.bids.winner[c] != NO_EFFECT && next != s.bids.winner[c] && (next == NO_EFFECT || InCategory(cfg, next, c))
    && (s.active[cfg.effects[s.bids.winner[c]].aura] || cfg.effects[s.bids.winner[c]].aura in ctx.busy)
    && LedgerIn(cfg, s.bids, s.bids.winner[c], c) && WinnerOk(cfg, s.bids, next, c, map[])
  }

  /** A category is handed over, and the OnExpire of the effect that loses it activates an aura with the one
      effect f in the category, every other callback being plain.  In the end the category is decided exactly if
      f is blocked or bids no higher than the effect that gains it; and OnGain and OnExpire balance exactly if f is
      blocked or does not take the category from the effect whose OnExpire is running. */
  method ContestedHandover(tracker: AuraTracker, c: nat, next: int, a: nat, f: nat, ctx: Context,
                           during: seq<Command>, after: seq<Command>, tape: seq<Command>) returns (landed: bool)
    requires HandsOver(tracker.cfg, tracker.Snap(), c, next, ctx)
    requires PlainTape(tracker.cfg, tape) && PlainTape(tracker.cfg, during) && PlainTape(tracker.cfg, after)
    requires a < |tracker.cfg.auras| && a !in ctx.busy && !tracker.active[a]
    requires tracker.cfg.auras[a].effects == [f] && Owns(tracker.cfg, a, f) && InCategory(tracker.cfg, f, c)
    modifies tracker
    ensures Inv(tracker.cfg, tracker.Snap(), ctx) && KeptSettled(tracker.cfg, old(tracker.Snap()), tracker.Snap(), ctx)
    ensures tracker.winner[c] == next && tracker.priority == old(tracker.priority)
    ensures landed == tracker.enabled[f] == !old(tracker.Blocks(f))
    ensures WinnerOk(tracker.cfg, tracker.Arena(), next, c, map[]) <==>
              old(tracker.Blocks(f)) || (next != NO_EFFECT && old(tracker.priority)[f] <= old(tracker.priority)[next])
    ensures GainedOnce(tracker.cfg, tracker.Arena(), next, c) <==> old(tracker.Blocks(f)) || !old(tracker.Takes(f))
  {
    hide Inv, Ran, KeptSettled, PlainTape, Calm, WinnerOk, LedgerIn, SameSurplus, GainedOnce, SameBids, Registered, Works;
    var cfg := tracker.cfg;
    ghost var s0, works, command := tracker.Snap(), Works(cfg, ctx, {c}), Command(Op.Activate(a), during, after);
    BeforeContest(cfg, s0, c, next, a, f, ctx);
    landed := ActivateWhileSettling(tracker, c, next, a, f, ctx, during, after);
    ghost var s2 := tracker.Snap();
    tracker.winner := tracker.winner[c := next];
    ghost var s3 := tracker.Snap();
    HandoverStep(cfg, s0, s2, s3, next, c, ctx, works, [command], []);
    RanSettles(cfg, s0, s3, ctx, works, [command], []);
    if next != NO_EFFECT {
      var rest := tracker.EffectOnGain(next, ctx, false, tape);
      RanSettles(cfg, s3, tracker.Snap(), ctx, works, tape, rest);
    } else {
      SettledStep(cfg, s3, c, ctx);
      RanStill(cfg, s3, ctx, works, tape);
      RanSettles(cfg, s3, s3, ctx, works, tape, tape);
    }
    KeptSettledOn(cfg, s0, s3, tracker.Snap(), ctx);
    InvShape(cfg, tracker.Snap(), ctx);
    HandoverDecided(cfg, s0.bids, s2.bids, tracker.Arena(), c, old(tracker.winner)[c], next, a, f, landed, old(tracker.Takes(f)));
  }

  /** The OnExpire of the effect that loses the category, which activates the aura. */
  method ActivateWhileSettling(tracker: AuraTracker, c: nat, next: int, a: nat, f: nat, ctx: Context,
                               during: seq<Command>, after: seq<Command>) returns (landed: bool)
    requires HandsOver(tracker.cfg, tracker.Snap(), c, next, ctx) && PlainTape(tracker.cfg, during) && PlainTape(tracker.cfg, after)
    requires a < |tracker.cfg.auras| && a !in ctx.busy && !tracker.active[a]
    requires tracker.cfg.auras[a].effects == [f] && Owns(tracker.cfg, a, f) && InCategory(tracker.cfg, f, c)
    modifies tracker
    ensures Inv(tracker.cfg, tracker.Snap(), Settling(ctx, c)) && Shape(tracker.cfg, tracker.Snap())
    ensures Ran(tracker.cfg, old(tracker.Snap()), tracker.Snap(), ctx, Works(tracker.cfg, ctx, {c}), [Command(Op.Activate(a), during, after)], [])
    ensures landed == tracker.enabled[f] == !old(tracker.Blocks(f))
    ensures Contested(tracker.cfg, old(tracker.Arena()), tracker.Arena(), c, a, f, landed, old(tracker.Takes(f)))
    ensures next != NO_EFFECT ==> tracker.enabled[next]
    ensures c !in tracker.spoiled ==> SameBids(tracker.cfg, old(tracker.Arena()), tracker.Arena(), c) && NothingApplied(tracker.cfg, tracker.Arena(), c)
  {
    hide Inv, Ran, Kept, PlainTape, Calm, WinnerOk, SameSurplus, Registered, Works, Within;
    var cfg := tracker.cfg;
    ghost var s0 := tracker.Snap();
    var settling := Settling(ctx, c);
    var w := tracker.winner[c];
    BeforeContest(cfg, s0, c, next, a, f, ctx);
    tracker.net := tracker.net[w := tracker.net[w] - 1];
    tracker.applied := tracker.applied[w := tracker.applied[w] - tracker.priority[w]];
    ghost var s1 := tracker.Snap();
    ExpireTakesBack(cfg, s0.bids, s1.bids, c);
    ChangeStep(cfg, s0, s1, c, ctx);
    landed := tracker.Activate(a, settling, during, after);
    InvShape(cfg, tracker.Snap(), settling);
    SettlingWithin(cfg, ctx, c);
    CallbackWhileSettling(cfg, s0, s1, tracker.Snap(), w, c, ctx, Works(cfg, settling, {}), Works(cfg, ctx, {c}),
                          [Command(Op.Activate(a), during, after)], []);
    CalmMeans(cfg, s1.bids, tracker.Arena(), settling, a);
    SurplusSees(cfg, s0.bids.(net := s1.bids.net), s1.bids, tracker.Arena());
  }

  /** What the activation has done to the bids, the old active effect w having given its gain back. */
  ghost predicate Contested(cfg: Config, b0: Bids, b2: Bids, c: nat, a: nat, f: nat, landed: bool, takes: bool)
  {
    && BidsShape(cfg, b0) && BidsShape(cfg, b2) && c < |cfg.categories| && b0.winner[c] != NO_EFFECT
    && b2.priority == b0.priority
    && SameSurplus(cfg, b0.(net := b0.net[b0.winner[c] := b0.net[b0.winner[c]] - 1]), b2)
    && (forall e :: 0 <= e < |cfg.effects| && b2.enabled[e] ==> b0.enabled[e] || cfg.effects[e].aura == a)
    && b2.winner[c] == if landed && takes then f else b0.winner[c]
  }

  lemma HandoverDecided(cfg: Config, b0: Bids, b2: Bids, b: Bids, c: nat, w: nat, next: int, a: nat, f: nat, landed: bool, takes: bool)
    requires Registered(cfg) && Contested(cfg, b0, b2, c, a, f, landed, takes) && BidsShape(cfg, b)
    requires w == b0.winner[c] && next != w && (next == NO_EFFECT || InCategory(cfg, next, c))
    requires InCategory(cfg, f, c) && f != w && cfg.effects[f].aura == a && !b0.enabled[f]
    requires LedgerIn(cfg, b0, w, c) && WinnerOk(cfg, b0, next, c, map[])
    requires b2.enabled[f] == landed && (next != NO_EFFECT ==> b2.enabled[next])
    requires b.enabled == b2.enabled && b.priority == b2.priority && b.winner == b2.winner[c := next]
    requires b.net == if next == NO_EFFECT then b2.net else b2.net[next := b2.net[next] + 1]
    ensures WinnerOk(cfg, b, next, c, map[]) <==> !landed || (next != NO_EFFECT && b0.priority[f] <= b0.priority[next])
    ensures GainedOnce(cfg, b, next, c) <==> !landed || !takes
  {
    hide Registered;
    assert forall e :: InCategory(cfg, e, c) && cfg.effects[e].aura == a ==> e == f by {
      OnePerCategory(cfg, f, c);
    }
    forall e | InCategory(cfg, e, c)
      ensures b.net[e] == (if e == w then -1 else 0) + (if b2.winner[c] == e then 1 else 0) + (if e == next then 1 else 0)
    {
      assert Surplus(cfg, b2, e) == Surplus(cfg, b0.(net := b0.net[w := b0.net[w] - 1]), e);
    }
    assert landed && takes ==> b.net[w] == -1;
  }

  /** What was applied does not count for the surplus of gains. */
  lemma SurplusSees(cfg: Config, b: Bids, b1: Bids, b2: Bids)
    requires BidsShape(cfg, b) && BidsShape(cfg, b1) && BidsShape(cfg, b2) && b1 == b.(applied := b1.applied) && SameSurplus(cfg, b1, b2)
    ensures SameSurplus(cfg, b, b2)
  {
    assert forall e :: 0 <= e < |cfg.effects| ==> Surplus(cfg, b1, e) == Surplus(cfg, b, e);
  }

  lemma CalmMeans(cfg: Config, b: Bids, b': Bids, ctx: Context, a: nat)
    requires Calm(cfg, b, b', ctx, {a})
    ensures BidsShape(cfg, b) && BidsShape(cfg, b') && b'.priority == b.priority && SameSurplus(cfg, b, b')
    ensures forall e :: 0 <= e < |cfg.effects| && b'.enabled[e] ==> b.enabled[e] || cfg.effects[e].aura == a
  {
  }

  lemma OnePerCategory(cfg: Config, f: nat, c: nat)
    requires Registered(cfg) && InCategory(cfg, f, c)
    ensures forall e :: InCategory(cfg, e, c) && cfg.effects[e].aura == cfg.effects[f].aura ==> e == f
  {
  }

  /** The effects of an inactive aura at rest are not enabled, and the effect that loses a category is another's. */
  lemma BeforeContest(cfg: Config, s: State, c: nat, next: int, a: nat, f: nat, ctx: Context)
    requires HandsOver(cfg, s, c, next, ctx) && a < |cfg.auras| && a !in ctx.busy && !s.active[a] && Owns(cfg, a, f)
    ensures !s.bids.enabled[f] && f != s.bids.winner[c]
    ensures next != NO_EFFECT ==> s.bids.enabled[next] && cfg.effects[next].aura != cfg.effects[s.bids.winner[c]].aura
  {
    hide ListsExact, LogOk, StacksOk, Arbitrated;
  }

  // ---------------------------------------------------------------- an input for which it fails

  function Bidder(e: nat): AuraConfig {
    AuraConfig(10, 0, e, seq(KINDS, k => false), [e])
  }

  /** Three auras that bid in one single-aura category. */
  const RIVALS := Config([Bidder(0), Bidder(1), Bidder(2)],
                         [EffectConfig(0, 0, false), EffectConfig(1, 0, false), EffectConfig(2, 0, false)],
                         [CategoryConfig(true, [0, 1, 2])])

  lemma Rivals()
    ensures PlainTape(RIVALS, [])
    ensures |RIVALS.auras| == |RIVALS.effects| == 3 && RIVALS.categories == [CategoryConfig(true, [0, 1, 2])]
    ensures forall a :: 0 <= a < 3 ==> RIVALS.auras[a] == Bidder(a) && RIVALS.effects[a] == EffectConfig(a, 0, false)
    ensures forall a :: 0 <= a < 3 ==> Owns(RIVALS, a, a) && InCategory(RIVALS, a, 0)
  {
  }

  /** A category of three bidders, one for each of three auras, is properly registered. */
  lemma RivalsRegistered()
    ensures Registered(RIVALS) && Single(RIVALS, 0)
  {
    Rivals();
    assert forall i :: 0 <= i < 3 ==> RIVALS.categories[0].effects[i] == i;
    assert forall a :: 0 <= a < 3 ==> RIVALS.auras[a].effects == [a] && |RIVALS.auras[a].hears| == KINDS;
    ThreeRegistered(RIVALS);
  }

  lemma ThreeRegistered(cfg: Config)
    requires |cfg.auras| == |cfg.effects| == 3 && |cfg.categories| == 1 && |cfg.categories[0].effects| == 3
    requires forall i :: 0 <= i < 3 ==> cfg.categories[0].effects[i] == i
    requires forall a :: 0 <= a < 3 ==> cfg.auras[a].effects == [a] && |cfg.auras[a].hears| == KINDS && cfg.auras[a].duration == 10
    requires forall e :: 0 <= e < 3 ==> cfg.effects[e] == EffectConfig(e, 0, false)
    requires cfg.categories[0].singleAura
    ensures Registered(cfg) && Single(cfg, 0)
  {
    assert forall e :: 0 <= e < 3 ==> cfg.auras[e].effects[0] == e && cfg.categories[0].effects[e] == e;
  }

  /** The first aura, which bids 1, holds the category; the second, which bids 2, takes it over; the first's
      OnExpire activates the third, which bids 3.  In the end the second is the active effect although the
      third is active and bids more: the category is undecided, and two auras of it stand. */
  method NestedActivation() returns (tracker: AuraTracker)
    ensures fresh(tracker) && tracker.cfg == RIVALS && Inv(RIVALS, tracker.Snap(), IDLE)
    ensures tracker.priority == [1.0, 2.0, 3.0] && tracker.winner == [1]
    ensures tracker.active == [false, true, true] && tracker.enabled == [false, true, true]
    ensures !Decided(RIVALS, tracker.Snap(), 1) && !AtMostOneEnabled(RIVALS, tracker.Arena(), 0)
  {
    hide Tracking, Arbitrated, Registered, Decided, AtMostOneEnabled, PlainTape;
    tracker := FirstAlone();
    RivalsRegistered();
    Rivals();
    var landed := ContestedActivation(tracker, 1, 1, 2, [], [], []);
    assert InCategory(RIVALS, 2, 0);
    BothStand(tracker.Snap(), landed);
    assert |tracker.winner| == 1;
  }

  /** The first aura holds the category alone and ends; the OnExpire of its effect, which nobody follows, activates
      the second.  In the end the category has no active effect although the second is active, and OnGain has run
      once more for the second and once less for the first than OnExpire. */
  method DisplacedActivation() returns (tracker: AuraTracker)
    ensures fresh(tracker) && tracker.cfg == RIVALS && Shape(RIVALS, tracker.Snap())
    ensures tracker.winner == [NO_EFFECT] && tracker.active[1] && tracker.enabled[1]
    ensures !WinnerOk(RIVALS, tracker.Arena(), NO_EFFECT, 0, map[]) && !GainedOnce(RIVALS, tracker.Arena(), NO_EFFECT, 0)
  {
    hide Inv, KeptSettled, Kept, Registered, PlainTape, WinnerOk, LedgerIn, GainedOnce, Foreseen;
    tracker := FirstAlone();
    Rivals();
    tracker.BeginFade(0, IDLE);
    var ctx := Entering(IDLE, 0);
    ghost var s1 := tracker.Snap();
    InvShape(RIVALS, s1, ctx);
    tracker.enabled := tracker.enabled[0 := false];
    FirstWithdraws(s1, tracker.Snap(), ctx);
    var landed := ContestedHandover(tracker, 0, NO_EFFECT, 1, 1, ctx, [], [], []);
    InvShape(RIVALS, tracker.Snap(), ctx);
    SecondStands(tracker.Snap(), ctx);
  }

  /** The three auras registered and the first one active. */
  method FirstAlone() returns (tracker: AuraTracker)
    ensures fresh(tracker) && tracker.cfg == RIVALS && Inv(RIVALS, tracker.Snap(), IDLE) && Shape(RIVALS, tracker.Snap())
    ensures tracker.active[0] && !tracker.active[1] && !tracker.active[2] && tracker.priority == [1.0, 2.0, 3.0]
    ensures tracker.winner == [0] && tracker.enabled == [true, false, false] && tracker.spoiled == {} && tracker.crowded == {}
  {
    hide Tracking, Arbitrated, Ran, Registered, NobodyActive, PlainTape;
    RivalsRegistered();
    tracker := new AuraTracker(RIVALS, [1.0, 2.0, 3.0], 0);
    Rivals();
    InvShape(RIVALS, tracker.Snap(), IDLE);
    InactiveAtRest(RIVALS, tracker.Snap());
    ghost var s := tracker.Snap();
    var landed := tracker.Activate(0, IDLE, [], []);
    FirstHolds(s, tracker.Snap());
  }

  lemma SecondStands(s: State, ctx: Context)
    requires Inv(RIVALS, s, ctx) && ctx == Entering(IDLE, 0) && |s.bids.enabled| == 3 && s.bids.enabled[1]
    ensures Shape(RIVALS, s) && s.active[1] && |s.bids.winner| == 1
  {
    hide Arbitrated, ListsExact, LogOk, StacksOk;
    Rivals();
  }

  lemma FirstWithdraws(s: State, t: State, ctx: Context)
    requires Inv(RIVALS, s, ctx) && ctx == Entering(IDLE, 0) && Shape(RIVALS, s) && s.bids.winner == [0] && s.bids.spoiled == {}
    requires forall e :: 0 <= e < 3 && s.bids.enabled[e] ==> e == 0
    requires s.bids.enabled[0] && t == Without(s, s.bids.enabled[0 := false])
    ensures HandsOver(RIVALS, t, 0, NO_EFFECT, ctx)
  {
    Rivals();
    assert t.bids == Withdrawing(RIVALS, s.bids, 0, ctx);
    WithdrawStep(RIVALS, s, t, 0, ctx);
    WithdrawDecision(RIVALS, s, t, 0, NO_EFFECT, ctx);
    InvShape(RIVALS, s, ctx);
    InvShape(RIVALS, t, Settling(ctx, 0));
  }

  lemma FirstHolds(s0: State, s: State)
    requires Inv(RIVALS, s, IDLE) && Shape(RIVALS, s0) && Calm(RIVALS, s0.bids, s.bids, IDLE, {0}) && s.active[0]
    requires s0.bids.spoiled == {} && s0.bids.crowded == {} && forall e :: 0 <= e < 3 ==> !s0.bids.enabled[e]
    ensures Shape(RIVALS, s) && s.bids.winner == [0] && !s.active[1] && !s.active[2] && s.bids.enabled == [true, false, false]
    ensures s.bids.spoiled == {} && s.bids.crowded == {} && s.bids.priority == s0.bids.priority
  {
    hide ListsExact, LogOk;
    Rivals();
    assert CategoryOk(RIVALS, s.bids, 0, map[]);
    assert InCategory(RIVALS, 0, 0);
  }

  lemma BothStand(s: State, landed: bool)
    requires Inv(RIVALS, s, IDLE) && Bidders(RIVALS, s, 1, 2, landed, {}) && landed
    ensures s.active == [false, true, true] && s.bids.enabled == [false, true, true] && |s.bids.winner| == 1
  {
    hide ListsExact, LogOk, Arbitrated;
    Rivals();
    assert InCategory(RIVALS, 0, 0);
  }
}

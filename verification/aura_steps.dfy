/** What each step of a tracker operation does to the invariant and to what must be left alone. */
module AuraSteps {
  import opened AuraState
  import opened AuraLemmas
  import opened Arbitration
  import opened Callbacks
  import opened AuraReach

  // ---------------------------------------------------------------- coming under way and coming to rest

  /** An inactive aura comes under way. */
  lemma EnterKeepsInv(cfg: Config, s: State, ctx: Context, a: nat)
    requires Inv(cfg, s, ctx) && a < |cfg.auras| && !s.active[a]
    ensures Inv(cfg, s, Entering(ctx, a))
  {
    ArbitratedUnder(cfg, s.bids, ctx, Entering(ctx, a));
  }

  lemma ArbitratedUnder(cfg: Config, b: Bids, ctx: Context, ctx': Context)
    requires Arbitrated(cfg, b, ctx) && ctx'.open == ctx.open && ctx'.settling == ctx.settling && OpenOk(cfg, ctx')
    ensures Arbitrated(cfg, b, ctx')
  {
    forall c | 0 <= c < |cfg.categories| && c !in b.spoiled && c !in ctx.settling ensures CategoryOk(cfg, b, c, ctx'.open) {
    }
    forall c | 0 <= c < |cfg.categories| && c !in b.spoiled && c !in b.crowded && c !in ctx.open && Single(cfg, c)
      ensures AtMostOneEnabled(cfg, b, c)
    {
    }
  }

  /** It comes to rest again with no stacks and no effects enabled. */
  lemma LeaveKeepsInv(cfg: Config, s: State, ctx: Context, a: nat)
    requires Inv(cfg, s, Entering(ctx, a)) && a < |cfg.auras| && s.stacks[a] == 0 && OpenOk(cfg, ctx)
    requires forall e :: 0 <= e < |cfg.effects| && cfg.effects[e].aura == a ==> !s.bids.enabled[e]
    ensures Inv(cfg, s, ctx)
  {
    hide Arbitrated, ListsExact, LogOk;
    assert Arbitrated(cfg, s.bids, ctx) by {
      ArbitratedUnder(cfg, s.bids, Entering(ctx, a), ctx);
    }
  }

  lemma InvShape(cfg: Config, s: State, ctx: Context)
    requires Inv(cfg, s, ctx)
    ensures Registered(cfg) && Shape(cfg, s) && s.now < NEVER_EXPIRES && OpenOk(cfg, ctx)
  {
  }

  lemma InvLists(cfg: Config, s: State, ctx: Context)
    requires Inv(cfg, s, ctx)
    ensures Registered(cfg) && Shape(cfg, s) && ListsExact(cfg, s.active, s.lists, s.index)
  {
  }

  /** What was left alone while the aura a was under way too, apart from its own effects. */
  lemma KeptOutside(cfg: Config, s: State, en: seq<bool>, t: State, ctx: Context, a: nat)
    requires Shape(cfg, s) && |en| == |cfg.effects| && a !in ctx.busy
    requires Kept(cfg, s.(bids := s.bids.(enabled := en)), t, Entering(ctx, a))
    requires forall e :: 0 <= e < |cfg.effects| && en[e] != s.bids.enabled[e] ==>
               && cfg.effects[e].aura == a
               && (cfg.effects[e].category in ctx.settling ==> cfg.effects[e].category in t.bids.spoiled)
               && (en[e] && Closed(cfg, ctx.busy, cfg.effects[e].category) ==> cfg.effects[e].category in t.bids.crowded)
    ensures Kept(cfg, s, t, ctx)
  {
    hide KeptBids, LogGrows, MinExpiresLow;
    KeptFromBase(cfg, s.bids, en, t.bids, ctx, a);
  }

  // ---------------------------------------------------------------- what an operation and its callbacks may have done

  /** How much more often OnGain has run than OnExpire, apart from the one gain of an active effect. */
  ghost function Surplus(cfg: Config, b: Bids, e: nat): int
    requires BidsShape(cfg, b) && e < |cfg.effects|
  {
    b.net[e] - if cfg.effects[e].category < |b.winner| && b.winner[cfg.effects[e].category] == e then 1 else 0
  }

  ghost predicate SameSurplus(cfg: Config, b: Bids, b': Bids)
    requires BidsShape(cfg, b) && BidsShape(cfg, b')
  {
    forall e :: 0 <= e < |cfg.effects| ==> Surplus(cfg, b', e) == Surplus(cfg, b, e)
  }

  /** What operations leave of the bids when their callbacks act on auras that do not bid: only the
      newcomers' effects may have been enabled, and every handover is balanced. */
  ghost predicate Calm(cfg: Config, b: Bids, b': Bids, ctx: Context, newcomers: set<nat>) {
    && BidsShape(cfg, b) && BidsShape(cfg, b')
    && b'.priority == b.priority && SameSurplus(cfg, b, b')
    && (forall e :: 0 <= e < |cfg.effects| && b'.enabled[e] ==> b.enabled[e] || cfg.effects[e].aura in newcomers)
    && (ctx.settling == {} && (newcomers == {} || ctx.open == map[]) ==> b'.spoiled == b.spoiled)
    && (newcomers == {} || ctx.busy <= newcomers ==> b'.crowded == b.crowded)
  }

  /** An event that is no gain or fade and gives no stacks. */
  lemma LogStep(cfg: Config, s: State, ev: Event, ctx: Context)
    requires Inv(cfg, s, ctx) && !ev.Gain? && !ev.Fade? && !ev.Stack? && (ev.Turn? ==> ev.called == ActiveIn(s.log, ev.aura))
    ensures Inv(cfg, s.(log := s.log + [ev]), ctx)
    ensures !ev.Check? && (ev.Turn? ==> s.depth <= ev.level) ==> Kept(cfg, s, s.(log := s.log + [ev]), ctx)
    ensures forall a: nat :: Owed(s.log + [ev], a) == Owed(s.log, a) - if ev == Expire(a) then 1 else 0
    ensures |s.log| < |s.log + [ev]|
  {
    hide Arbitrated, ListsExact, StacksOk, EnabledOk;
    LogAppend(s.log, ev);
    LogAppendFits(s.log, ev);
    if !ev.Check? && (ev.Turn? ==> s.depth <= ev.level) {
      LogGrowsByOne(s.log, ev, s.depth);
      KeptBidsItself(cfg, s.bids, ctx);
    }
  }

  lemma FadeStep(cfg: Config, s: State, t: State, ctx: Context, a: nat)
    requires Inv(cfg, s, ctx) && a < |cfg.auras| && s.active[a]
    requires t == s.(active := s.active[a := false], expires := s.expires[a := 0], lists := t.lists, index := t.index, log := s.log + [Fade(a)])
    requires Shape(cfg, t) && ListsExact(cfg, t.active, t.lists, t.index)
    ensures Inv(cfg, t, Entering(ctx, a))
    ensures Kept(cfg, s, t, ctx)
  {
    hide ListsExact, Arbitrated;
    LogAppend(s.log, Fade(a));
    LogAppendFits(s.log, Fade(a));
    LogGrowsByOne(s.log, Fade(a), s.depth);
    KeptBidsItself(cfg, s.bids, ctx);
    InvShape(cfg, s, ctx) by {
    }
    assert OpenOk(cfg, Entering(ctx, a)) by {
      ArbitratedOpenOk(cfg, s.bids, ctx);
    }
    ArbitratedUnder(cfg, s.bids, ctx, Entering(ctx, a));
  }

  lemma ArbitratedOpenOk(cfg: Config, b: Bids, ctx: Context)
    requires Arbitrated(cfg, b, ctx)
    ensures OpenOk(cfg, ctx) && BidsShape(cfg, b)
  {
  }

  lemma GainStep(cfg: Config, s: State, t: State, ctx: Context, a: nat)
    requires Inv(cfg, s, Entering(ctx, a)) && a < |cfg.auras| && a !in ctx.busy && OpenOk(cfg, ctx)
    requires forall e :: 0 <= e < |cfg.effects| && cfg.effects[e].aura == a ==> s.bids.enabled[e]
    requires |t.expires| == |s.expires|
    requires t == s.(active := s.active[a := true], expires := t.expires, minExpires := t.minExpires, lists := t.lists, index := t.index,
                     log := s.log + [Gain(a, t.expires[a])])
    requires Shape(cfg, t) && ListsExact(cfg, t.active, t.lists, t.index)
    requires s.now < t.expires[a] && t.expires == s.expires[a := t.expires[a]]
    requires t.minExpires <= s.minExpires && (!Permanent(cfg.auras[a]) ==> t.minExpires <= t.expires[a])
    ensures Inv(cfg, t, ctx)
    ensures Kept(cfg, s, t, ctx) && Settled(s, t)
  {
    hide ListsExact, Arbitrated;
    var ev := Gain(a, t.expires[a]);
    LogAppend(s.log, ev);
    LogAppendFits(s.log, ev);
    LogGrowsByOne(s.log, ev, s.depth);
    ArbitratedOpenOk(cfg, s.bids, Entering(ctx, a));
    KeptBidsItself(cfg, s.bids, ctx);
    ArbitratedUnder(cfg, s.bids, Entering(ctx, a), ctx);
  }

  lemma StacksStep(cfg: Config, s: State, t: State, ctx: Context, a: nat)
    requires Inv(cfg, s, ctx) && a < |cfg.auras| && |t.stacks| == |s.stacks|
    requires t == s.(stacks := s.stacks[a := t.stacks[a]], log := s.log + [Stack(a, t.stacks[a])])
    requires 0 <= t.stacks[a] <= cfg.auras[a].maxStacks && (s.active[a] || t.stacks[a] == 0)
    ensures Inv(cfg, t, ctx) && Kept(cfg, s, t, ctx) && Settled(s, t)
  {
    hide ListsExact, Arbitrated, EnabledOk;
    var ev := Stack(a, t.stacks[a]);
    LogAppend(s.log, ev);
    LogAppendFits(s.log, ev);
    LogGrowsByOne(s.log, ev, s.depth);
    KeptBidsItself(cfg, s.bids, ctx) by {
      ArbitratedOpenOk(cfg, s.bids, ctx);
    }
  }

  /** Bids and their arbitration change, among the effects of auras under way at most which are enabled. */
  lemma BidsStep(cfg: Config, s: State, t: State, ctx: Context, ctx': Context)
    requires Inv(cfg, s, ctx) && t == s.(bids := t.bids) && ctx'.busy == ctx.busy
    requires Arbitrated(cfg, t.bids, ctx')
    requires forall e :: 0 <= e < |cfg.effects| && cfg.effects[e].aura !in ctx.busy ==>
               e < |t.bids.enabled| && e < |s.bids.enabled| && t.bids.enabled[e] == s.bids.enabled[e]
    ensures Inv(cfg, t, ctx') && KeptTracking(cfg, s, t, ctx.busy) && Settled(s, t)
  {
    hide ListsExact, Arbitrated, StacksOk, LogOk;
    ArbitratedOpenOk(cfg, t.bids, ctx');
  }

  /** A category of an unsettled context starts to settle, and a decided or spoiled one settles. */
  lemma SettlingStep(cfg: Config, s: State, c: nat, ctx: Context)
    requires Inv(cfg, s, ctx)
    ensures Inv(cfg, s, Settling(ctx, c))
  {
    hide Tracking, Arbitrated;
    StartsSettling(cfg, s.bids, c, ctx);
  }

  lemma SettledStep(cfg: Config, s: State, c: nat, ctx: Context)
    requires Inv(cfg, s, Settling(ctx, c)) && c < |cfg.categories|
    requires c !in s.bids.spoiled ==> BidsShape(cfg, s.bids) && CategoryOk(cfg, s.bids, c, ctx.open)
    ensures Inv(cfg, s, ctx)
  {
    hide Tracking, Arbitrated, CategoryOk;
    Settles(cfg, s.bids, c, ctx);
  }

  /** The active effect, bids or the ledger change in a settling category. */
  lemma ChangeStep(cfg: Config, s: State, t: State, c: nat, ctx: Context)
    requires Inv(cfg, s, Settling(ctx, c)) && t == s.(bids := t.bids) && ChangesIn(cfg, s.bids, t.bids, c)
    requires c in ctx.settling ==> c in s.bids.spoiled
    ensures Inv(cfg, t, Settling(ctx, c)) && Kept(cfg, s, t, ctx) && Settled(s, t)
  {
    hide Arbitrated, KeptBids, KeptTracking, Settled;
    ChangeKeeps(cfg, s.bids, t.bids, c, ctx);
    ChangeWhileSettling(cfg, s.bids, t.bids, c, Settling(ctx, c));
    BidsStep(cfg, s, t, Settling(ctx, c), Settling(ctx, c));
  }

  lemma PriorityStep(cfg: Config, s: State, t: State, e: nat, p: real, ctx: Context)
    requires e < |cfg.effects| && Inv(cfg, s, Settling(ctx, cfg.effects[e].category))
    requires e < |s.bids.priority| && t == s.(bids := s.bids.(priority := s.bids.priority[e := p]))
    requires cfg.effects[e].category in ctx.settling ==> cfg.effects[e].category in s.bids.spoiled
    ensures Inv(cfg, t, Settling(ctx, cfg.effects[e].category)) && Kept(cfg, s, t, ctx) && Settled(s, t)
    ensures forall w :: w != e && LedgerIn(cfg, s.bids, w, cfg.effects[e].category) ==> LedgerIn(cfg, t.bids, w, cfg.effects[e].category)
  {
    hide Inv, Kept, Settled;
    var c := cfg.effects[e].category;
    InvShape(cfg, s, Settling(ctx, c));
    BidOffLedger(cfg, s.bids, NO_EFFECT, e, p, c);
    ChangeStep(cfg, s, t, c, ctx);
  }

  /** A refresh, or an expiry moved later. */
  lemma ExpiryStep(cfg: Config, s: State, t: State, ctx: Context, a: nat)
    requires Inv(cfg, s, ctx) && a < |cfg.auras| && |t.expires| == |s.expires|
    requires t == s.(expires := s.expires[a := t.expires[a]], minExpires := t.minExpires)
    requires s.now < t.expires[a] || s.expires[a] <= t.expires[a]
    requires t.minExpires <= s.minExpires
    requires Permanent(cfg.auras[a]) || t.minExpires <= t.expires[a] || s.expires[a] <= t.expires[a]
    ensures Inv(cfg, t, ctx) && Kept(cfg, s, t, ctx) && Settled(s, t)
    ensures MinExpiresLow(cfg, s.active, s.expires, s.minExpires) ==> MinExpiresLow(cfg, t.active, t.expires, t.minExpires)
  {
    hide ListsExact, Arbitrated, LogOk;
    ArbitratedOpenOk(cfg, s.bids, ctx);
    KeptBidsItself(cfg, s.bids, ctx);
  }

  lemma BusyWithoutStacks(cfg: Config, s: State, t: State, ctx: Context, a: nat)
    requires Inv(cfg, s, ctx) && Kept(cfg, s, t, ctx) && a < |cfg.auras|
    ensures Shape(cfg, t)
    ensures a in ctx.busy ==> !s.active[a] && !t.active[a] && (s.stacks[a] == 0 ==> t.stacks[a] == 0)
    ensures 0 <= s.stacks[a] <= cfg.auras[a].maxStacks
    ensures s.active[a] == ActiveIn(s.log, a) && s.stacks[a] == StacksIn(s.log, a)
  {
    hide ListsExact, Arbitrated;
  }

  // ---------------------------------------------------------------- scripts that tell who is active

  lemma BeforeFade(cfg: Config, s: State, ctx: Context, a: nat)
    requires Inv(cfg, s, ctx) && a < |cfg.auras|
    ensures Registered(cfg) && Shape(cfg, s) && OpenOk(cfg, ctx)
    ensures s.active[a] ==> a !in ctx.busy
    ensures s.stacks[a] != 0 ==> cfg.auras[a].maxStacks != 0
    ensures a !in ctx.busy && !s.active[a] ==> s.stacks[a] == 0
  {
  }

  // ---------------------------------------------------------------- what the ledger says of stacks and fades

  ghost predicate Faded(log: seq<Event>, from: nat, a: nat) {
    exists p :: from <= p < |log| && log[p] == Fade(a)
  }

  /** The aura was given a positive number of stacks. */
  ghost predicate Given(log: seq<Event>, from: nat, a: nat) {
    exists p :: from <= p < |log| && log[p].Stack? && log[p].aura == a && log[p].n > 0
  }

  /** After the callback of a new number of stacks: an aura no longer active has faded, and stacks that were
      gone and are there have been given. */
  lemma StacksAfterCallback(cfg: Config, s0: State, s1: State, s2: State, ctx: Context, a: nat)
    requires Inv(cfg, s1, ctx) && Inv(cfg, s2, ctx) && Kept(cfg, s1, s2, ctx) && a < |cfg.auras|
    requires |s1.log| == |s0.log| + 1
    ensures Shape(cfg, s1) && Shape(cfg, s2)
    ensures |s0.log| < |s2.log| && s2.log[|s0.log|] == s1.log[|s0.log|]
    ensures s1.active[a] && !s2.active[a] ==> Faded(s2.log, |s0.log|, a)
    ensures s1.stacks[a] == 0 && s2.stacks[a] != 0 ==> Given(s2.log, |s0.log|, a)
  {
    hide Arbitrated, ListsExact, EnabledOk, KeptBids;
    assert s2.log[|s0.log|] == s2.log[..|s1.log|][|s0.log|];
    if s1.active[a] && !s2.active[a] {
      FadeWasLogged(s1.log, s2.log, a);
    }
    if s1.stacks[a] == 0 && s2.stacks[a] != 0 {
      StacksWereGiven(s1.log, s2.log, a);
    }
  }

  lemma LogKept(cfg: Config, s: State, t: State, ctx: Context, from: nat, a: nat)
    requires Kept(cfg, s, t, ctx)
    ensures |s.log| <= |t.log|
    ensures forall p :: 0 <= p < |s.log| ==> t.log[p] == s.log[p]
    ensures Faded(s.log, from, a) ==> Faded(t.log, from, a)
    ensures Given(s.log, from, a) ==> Given(t.log, from, a)
  {
    KeptShape(cfg, s, t, ctx);
    if Faded(s.log, from, a) {
      var p :| from <= p < |s.log| && s.log[p] == Fade(a);
      assert t.log[p] == Fade(a);
    }
    if Given(s.log, from, a) {
      var p :| from <= p < |s.log| && s.log[p].Stack? && s.log[p].aura == a && s.log[p].n > 0;
      assert t.log[p].Stack?;
    }
  }

  // ---------------------------------------------------------------- callbacks around a change

  /** A callback that runs while the category c settles, after a step from s0 to s1. */
  lemma CallbackWhileSettling(cfg: Config, s0: State, s1: State, t: State, e: int, c: nat, ctx: Context, r: Reach, reach: Reach,
                              tape: seq<Command>, rest: seq<Command>)
    requires Kept(cfg, s0, s1, ctx) && Settled(s0, s1) && Ran(cfg, s1, t, Settling(ctx, c), r, tape, rest) && c < |cfg.categories|
    requires s1.bids.enabled == s0.bids.enabled && s1.bids.priority == s0.bids.priority
    requires Within(r, reach) && (Unmoved(s0, s1) || Foreseen(cfg, s0, s1, reach, []))
    ensures Ran(cfg, s0, t, ctx, reach, tape, rest) && s0.bids.spoiled <= t.bids.spoiled && BidsShape(cfg, s0.bids)
    ensures BidsShape(cfg, s1.bids) && BidsShape(cfg, t.bids)
    ensures c !in t.bids.spoiled ==>
              && c !in s1.bids.spoiled
              && t.bids.winner[c] == s1.bids.winner[c] && SameBids(cfg, s0.bids, t.bids, c)
              && (NothingApplied(cfg, s1.bids, c) ==> NothingApplied(cfg, t.bids, c))
              && (LedgerIn(cfg, s1.bids, e, c) && InCategory(cfg, e, c) && s1.bids.enabled[e] ==> LedgerIn(cfg, t.bids, e, c))
  {
    hide KeptTracking, Settled, WinnerOk, LedgerIn, Foreseen, Suffix, Within;
    RanUnder(cfg, s1, t, Settling(ctx, c), ctx, r, reach, tape, rest) by {
      hide Kept;
    }
    assert Within(reach, reach) by { WithinItself(reach); }
    ChangeThenRan(cfg, s0, s1, t, ctx, reach, reach, tape, rest);
    if c !in t.bids.spoiled {
      SettlingStays(cfg, s1.bids, t.bids, e, c, Settling(ctx, c));
    }
  }

  lemma SameBidsStill(cfg: Config, b: Bids, c: nat)
    requires BidsShape(cfg, b)
    ensures SameBids(cfg, b, b, c)
  {
  }

  /** After the old active effect's OnExpire the category is handed over. */
  lemma HandoverStep(cfg: Config, s0: State, s: State, t: State, w: int, c: nat, ctx: Context, reach: Reach,
                     tape: seq<Command>, rest: seq<Command>)
    requires Inv(cfg, s, Settling(ctx, c)) && c < |cfg.categories| && (w == NO_EFFECT || InCategory(cfg, w, c))
    requires Ran(cfg, s0, s, ctx, reach, tape, rest) && BidsShape(cfg, s0.bids) && BidsShape(cfg, s.bids)
    requires c < |s.bids.winner| && t == s.(bids := s.bids.(winner := s.bids.winner[c := w]))
    requires c in ctx.settling ==> c in s0.bids.spoiled
    requires c !in s.bids.spoiled ==> SameBids(cfg, s0.bids, s.bids, c)
    ensures Inv(cfg, t, Settling(ctx, c)) && Ran(cfg, s0, t, ctx, reach, tape, rest)
    ensures BidsShape(cfg, t.bids) && s0.bids.spoiled <= t.bids.spoiled
    ensures c !in t.bids.spoiled ==>
              && SameBids(cfg, s0.bids, t.bids, c)
              && (InCategory(cfg, w, c) ==> t.bids.enabled[w] == s0.bids.enabled[w])
              && (NothingApplied(cfg, s.bids, c) ==> NothingApplied(cfg, t.bids, c))
              && (WinnerOk(cfg, s0.bids, w, c, ctx.open) ==> WinnerOk(cfg, t.bids, w, c, ctx.open))
    ensures Weight(rest) <= Weight(tape) && (PlainTape(cfg, tape) ==> PlainTape(cfg, rest))
  {
    hide Inv, Kept, Settled, WinnerOk, Ran, Weight, PlainTape;
    RanShape(cfg, s0, s, ctx, reach, tape, rest);
    InvShape(cfg, s, Settling(ctx, c));
    ChangeStep(cfg, s, t, c, ctx);
    RanThenChange(cfg, s0, s, t, ctx, reach, tape, rest);
    if c !in t.bids.spoiled {
      assert SameBids(cfg, s0.bids, t.bids, c);
      if WinnerOk(cfg, s0.bids, w, c, ctx.open) {
        SameBidsSameWinner(cfg, s0.bids, t.bids, w, c, ctx.open);
      }
    }
  }

  /** Where no bid differs, whoever decides the category still does. */
  lemma StillDecided(cfg: Config, b: Bids, b': Bids, w: int, c: nat, open: map<nat, nat>)
    requires BidsShape(cfg, b) && BidsShape(cfg, b') && SameBids(cfg, b, b', c)
    ensures WinnerOk(cfg, b, w, c, open) ==> WinnerOk(cfg, b', w, c, open)
    ensures InCategory(cfg, w, c) ==> b'.enabled[w] == b.enabled[w]
  {
    hide WinnerOk;
    if WinnerOk(cfg, b, w, c, open) {
      SameBidsSameWinner(cfg, b, b', w, c, open);
    }
  }

  lemma AfterHandover(cfg: Config, s0: State, s: State, t: State, c: nat, ctx: Context, reach: Reach,
                      tape: seq<Command>, mid: seq<Command>, rest: seq<Command>)
    requires Ran(cfg, s0, s, ctx, reach, tape, mid) && Ran(cfg, s, t, ctx, reach, mid, rest)
    ensures Ran(cfg, s0, t, ctx, reach, tape, rest)
    ensures s.bids.spoiled <= t.bids.spoiled
    ensures BidsShape(cfg, s0.bids) && BidsShape(cfg, s.bids) && BidsShape(cfg, t.bids)
    ensures SameBids(cfg, s0.bids, s.bids, c) && SameBids(cfg, s.bids, t.bids, c) ==> SameBids(cfg, s0.bids, t.bids, c)
  {
    RanShape(cfg, s0, s, ctx, reach, tape, mid);
    RanShape(cfg, s, t, ctx, reach, mid, rest);
    hide Ran;
    RanOn(cfg, s0, s, t, ctx, reach, reach, reach, tape, mid, rest);
  }

  // ---------------------------------------------------------------- withdrawing and rebidding

  /** The bid is withdrawn; its category is to be settled. */
  lemma WithdrawStep(cfg: Config, s: State, t: State, e: nat, ctx: Context)
    requires Inv(cfg, s, ctx) && e < |cfg.effects| && cfg.effects[e].aura in ctx.busy
    requires BidsShape(cfg, s.bids) && t == s.(bids := Withdrawing(cfg, s.bids, e, ctx))
    ensures Inv(cfg, t, Settling(ctx, cfg.effects[e].category))
    ensures Kept(cfg, Without(s, s.bids.enabled[e := false]), t, ctx) && Settled(Without(s, s.bids.enabled[e := false]), t)
    ensures Foreseen(cfg, Without(s, s.bids.enabled[e := false]), t, Withdraws(cfg, ctx, cfg.effects[e].aura), [])
    ensures cfg.effects[e].category in ctx.settling ==> cfg.effects[e].category in t.bids.spoiled
    ensures Calm(cfg, s.bids, t.bids, ctx, {})
  {
    hide Arbitrated, Foreseen;
    WithdrawForeseen(cfg, s, t, e, ctx);
    WithdrawKeeps(cfg, s.bids, e, ctx);
    BidsStep(cfg, s, t, ctx, Settling(ctx, cfg.effects[e].category));
  }

  lemma WithdrawForeseen(cfg: Config, s: State, t: State, e: nat, ctx: Context)
    requires Shape(cfg, s) && e < |cfg.effects| && t == s.(bids := Withdrawing(cfg, s.bids, e, ctx))
    ensures Foreseen(cfg, Without(s, s.bids.enabled[e := false]), t, Withdraws(cfg, ctx, cfg.effects[e].aura), [])
  {
    assert cfg.effects[e].category in BidsIn(cfg, cfg.effects[e].aura);
  }

  lemma WithdrawDecision(cfg: Config, s: State, t: State, e: nat, w: int, ctx: Context)
    requires Inv(cfg, s, ctx) && e < |cfg.effects| && cfg.effects[e].category < |cfg.categories|
    requires BidsShape(cfg, s.bids) && t == s.(bids := Withdrawing(cfg, s.bids, e, ctx)) && s.bids.enabled[e]
    requires forall c :: c in ctx.open ==> ctx.open[c] != e
    requires var c := cfg.effects[e].category;
             if s.bids.winner[c] != e then w == s.bids.winner[c]
             else if w == NO_EFFECT then NoneEnabled(cfg, t.bids, c)
             else InCategory(cfg, w, c) && t.bids.enabled[w] && Highest(cfg, t.bids, c, w)
    ensures var c := cfg.effects[e].category;
            c !in t.bids.spoiled ==> WinnerOk(cfg, t.bids, w, c, ctx.open) && LedgerIn(cfg, t.bids, t.bids.winner[c], c)
  {
    hide Tracking, Arbitrated, WinnerOk, LedgerIn, Highest, NoneEnabled;
    if cfg.effects[e].category !in t.bids.spoiled {
      WithdrawDecides(cfg, s.bids, e, w, ctx);
    }
  }

  lemma UnseenStep(cfg: Config, s: State, t: State, e: nat, p: real, ctx: Context)
    requires Inv(cfg, s, ctx) && e < |cfg.effects| && BidsShape(cfg, s.bids) && !s.bids.enabled[e]
    requires t == s.(bids := s.bids.(priority := s.bids.priority[e := p]))
    ensures Inv(cfg, t, ctx) && Kept(cfg, s, t, ctx) && Settled(s, t)
  {
    hide Arbitrated, KeptBids;
    UnseenBid(cfg, s.bids, e, p, ctx);
    BidsStep(cfg, s, t, ctx, ctx);
  }

  lemma RebidStep(cfg: Config, s: State, t: State, e: nat, p: real, ctx: Context)
    requires Inv(cfg, s, ctx) && e < |cfg.effects| && BidsShape(cfg, s.bids) && OpenOk(cfg, ctx)
    requires t == s.(bids := Rebidding(cfg, s.bids, e, p, ctx))
    ensures Inv(cfg, t, ctx) && Kept(cfg, s, t, ctx) && Settled(s, t)
    ensures Foreseen(cfg, s, t, Rebids(cfg, ctx, cfg.effects[e].category), [])
    ensures cfg.effects[e].category in ctx.settling ==> cfg.effects[e].category in t.bids.spoiled
  {
    hide Arbitrated, KeptBids;
    RebidKeeps(cfg, s.bids, e, p, ctx);
    BidsStep(cfg, s, t, ctx, ctx);
  }

  lemma RebidDecision(cfg: Config, s: State, t: State, next: int, e: nat, p: real, ctx: Context)
    requires Inv(cfg, s, ctx) && e < |cfg.effects| && BidsShape(cfg, s.bids) && OpenOk(cfg, ctx) && s.bids.enabled[e]
    requires cfg.effects[e].category < |cfg.categories| && t == s.(bids := Rebidding(cfg, s.bids, e, p, ctx))
    requires var b := t.bids.(priority := t.bids.priority[e := p]);
             InCategory(cfg, next, cfg.effects[e].category) && b.enabled[next] && Highest(cfg, b, cfg.effects[e].category, next)
    ensures var c := cfg.effects[e].category;
            c !in t.bids.spoiled ==>
              && LedgerIn(cfg, t.bids, t.bids.winner[c], c)
              && WinnerOk(cfg, t.bids.(priority := t.bids.priority[e := p]),
                          if t.bids.winner[c] != e && next != e then t.bids.winner[c] else next, c, ctx.open)
  {
    hide Tracking, Arbitrated;
    if cfg.effects[e].category !in t.bids.spoiled {
      NewBidDecides(cfg, s.bids, next, e, p, ctx);
    }
  }

  /** Where the bids stood still while a callback ran, a bid changed afterwards decides what it would have
      decided before. */
  lemma BidChanged(cfg: Config, s: State, t: State, u: State, next: nat, e: nat, p: real, ctx: Context, reach: Reach,
                   tape: seq<Command>, rest: seq<Command>)
    requires Ran(cfg, s, t, ctx, reach, tape, rest) && e < |cfg.effects| && cfg.effects[e].category < |cfg.categories|
    requires BidsShape(cfg, s.bids) && BidsShape(cfg, t.bids)
    requires u == t.(bids := t.bids.(priority := t.bids.priority[e := p]))
    requires InCategory(cfg, next, cfg.effects[e].category)
    ensures BidsShape(cfg, u.bids)
    ensures var c := cfg.effects[e].category;
            c !in t.bids.spoiled && SameBids(cfg, s.bids, t.bids, c) ==>
              && c !in s.bids.spoiled
              && u.bids.enabled[e] == s.bids.enabled[e] && u.bids.enabled[next] == s.bids.enabled[next]
              && (NothingApplied(cfg, t.bids, c) ==> NothingApplied(cfg, u.bids, c))
              && (WinnerOk(cfg, s.bids.(priority := s.bids.priority[e := p]), next, c, ctx.open) ==> WinnerOk(cfg, u.bids, next, c, ctx.open))
  {
    hide KeptTracking, Foreseen, Suffix, Settled, WinnerOk;
    var c := cfg.effects[e].category;
    if c !in t.bids.spoiled && SameBids(cfg, s.bids, t.bids, c) {
      var b := s.bids.(priority := s.bids.priority[e := p]);
      assert SameBids(cfg, b, u.bids, c);
      if WinnerOk(cfg, b, next, c, ctx.open) {
        SameBidsSameWinner(cfg, b, u.bids, next, c, ctx.open);
      }
    }
  }

  // ---------------------------------------------------------------- the effects of one aura

  lemma CalmOn(cfg: Config, b: Bids, b': Bids, b'': Bids, ctx: Context, newcomers: set<nat>)
    requires Calm(cfg, b, b', ctx, newcomers) && Calm(cfg, b', b'', ctx, newcomers)
    ensures Calm(cfg, b, b'', ctx, newcomers)
  {
  }

  /** Nothing bids that did not, whoever is under way. */
  lemma CalmAnyway(cfg: Config, b: Bids, b': Bids, ctx: Context, ctx': Context, newcomers: set<nat>)
    requires Calm(cfg, b, b', ctx, {}) && ctx'.settling == ctx.settling
    ensures Calm(cfg, b, b', ctx', newcomers)
  {
  }

  /** The first n effects of aura a disabled. */
  function Off(cfg: Config, enabled: seq<bool>, a: nat, n: nat): (r: seq<bool>)
    requires a < |cfg.auras| && n <= |cfg.auras[a].effects|
    ensures |r| == |enabled|
  {
    seq(|enabled|, e requires 0 <= e < |enabled| => enabled[e] && e !in cfg.auras[a].effects[..n])
  }

  lemma OffOneMore(cfg: Config, enabled: seq<bool>, a: nat, i: nat)
    requires a < |cfg.auras| && i < |cfg.auras[a].effects| && cfg.auras[a].effects[i] < |enabled|
    ensures Off(cfg, enabled, a, i + 1) == Off(cfg, enabled, a, i)[cfg.auras[a].effects[i] := false]
  {
    assert cfg.auras[a].effects[..i + 1] == cfg.auras[a].effects[..i] + [cfg.auras[a].effects[i]];
  }

  lemma OffAll(cfg: Config, enabled: seq<bool>, a: nat)
    requires Registered(cfg) && a < |cfg.auras| && |enabled| == |cfg.effects|
    ensures forall e :: 0 <= e < |cfg.effects| ==>
              Off(cfg, enabled, a, |cfg.auras[a].effects|)[e] == (enabled[e] && cfg.effects[e].aura != a)
  {
    assert cfg.auras[a].effects[..|cfg.auras[a].effects|] == cfg.auras[a].effects;
    forall i | 0 <= i < |cfg.auras[a].effects| ensures Owns(cfg, a, cfg.auras[a].effects[i]) {
    }
  }

  /** The first n effects of aura a have withdrawn since s0, each with the callbacks it caused; apart from
      that, all that must be left alone was left alone. */
  ghost predicate Ended(cfg: Config, s0: State, t: State, ctx: Context, a: nat, n: nat, tape: seq<Command>, rest: seq<Command>) {
    && a < |cfg.auras| && n <= |cfg.auras[a].effects| && Shape(cfg, s0)
    && Ran(cfg, Without(s0, Off(cfg, s0.bids.enabled, a, n)), t, ctx, Withdraws(cfg, ctx, a), tape, rest)
    && forall e :: (0 <= e < |cfg.effects| && e in cfg.auras[a].effects[..n] && s0.bids.enabled[e]
                    && cfg.effects[e].category in ctx.settling) ==> cfg.effects[e].category in t.bids.spoiled
  }

  lemma NoneEnded(cfg: Config, s: State, ctx: Context, a: nat, tape: seq<Command>)
    requires Inv(cfg, s, ctx) && a < |cfg.auras|
    ensures Ended(cfg, s, s, ctx, a, 0, tape, tape)
    ensures Calm(cfg, s.bids, s.bids, ctx, {}) && s.bids.enabled == Off(cfg, s.bids.enabled, a, 0)
  {
    hide Ran;
    InvShape(cfg, s, ctx);
    RanStill(cfg, s, ctx, Withdraws(cfg, ctx, a), tape);
    assert Off(cfg, s.bids.enabled, a, 0) == s.bids.enabled;
  }

  lemma EffectOf(cfg: Config, s: State, ctx: Context, a: nat, i: nat)
    requires Inv(cfg, s, ctx) && a < |cfg.auras| && i < |cfg.auras[a].effects|
    ensures Shape(cfg, s) && Owns(cfg, a, cfg.auras[a].effects[i]) && OpenOk(cfg, ctx)
    ensures cfg.effects[cfg.auras[a].effects[i]].category < |cfg.categories|
    ensures cfg.auras[a].effects[i] !in cfg.auras[a].effects[..i]
    ensures cfg.auras[a].effects[..i + 1] == cfg.auras[a].effects[..i] + [cfg.auras[a].effects[i]]
  {
  }

  lemma OneMoreEnded(cfg: Config, s0: State, s1: State, t: State, ctx: Context, a: nat, i: nat,
                     tape: seq<Command>, mid: seq<Command>, rest: seq<Command>)
    requires Ended(cfg, s0, s1, ctx, a, i, tape, mid) && i < |cfg.auras[a].effects| && a in ctx.busy
    requires Owns(cfg, a, cfg.auras[a].effects[i]) && Shape(cfg, s1)
    requires cfg.auras[a].effects[i] !in cfg.auras[a].effects[..i]
    requires var e := cfg.auras[a].effects[i];
             && Ran(cfg, Without(s1, s1.bids.enabled[e := false]), t, ctx, Withdraws(cfg, ctx, a), mid, rest)
             && (s1.bids.enabled[e] && cfg.effects[e].category in ctx.settling ==> cfg.effects[e].category in t.bids.spoiled)
    ensures Ended(cfg, s0, t, ctx, a, i + 1, tape, rest)
    ensures Weight(rest) <= Weight(mid) <= Weight(tape) && (PlainTape(cfg, tape) ==> PlainTape(cfg, mid) && PlainTape(cfg, rest))
  {
    hide Ran, PlainTape, Withdraws, Weight;
    var e := cfg.auras[a].effects[i];
    var reach := Withdraws(cfg, ctx, a);
    var base := Without(s0, Off(cfg, s0.bids.enabled, a, i));
    var next := Without(s0, Off(cfg, s0.bids.enabled, a, i + 1));
    var u := Without(s1, s1.bids.enabled[e := false]);
    RanShape(cfg, base, s1, ctx, reach, tape, mid);
    RanShape(cfg, u, t, ctx, reach, mid, rest);
    RanTurned(cfg, base, s1, u, ctx, e, false, reach, tape, mid);
    assert cfg.auras[a].effects[..i + 1] == cfg.auras[a].effects[..i] + [e];
    assert Without(base, base.bids.enabled[e := false]) == next by {
      assert base.bids.enabled[e := false] == next.bids.enabled;
    }
    RanOn(cfg, next, u, t, ctx, reach, reach, reach, tape, mid, rest);
  }

  /** All effects of an aura under way have withdrawn: it comes to rest. */
  lemma EffectsEnded(cfg: Config, s0: State, s1: State, ctx: Context, a: nat, n: nat, tape: seq<Command>, rest: seq<Command>)
    requires a < |cfg.auras| && a !in ctx.busy && OpenOk(cfg, ctx) && n <= |cfg.auras[a].effects|
    requires Inv(cfg, s0, Entering(ctx, a)) && Inv(cfg, s1, Entering(ctx, a)) && s0.stacks[a] == 0
    requires forall e :: 0 <= e < |cfg.effects| && cfg.effects[e].aura == a && s0.bids.enabled[e] ==> e in cfg.auras[a].effects[..n]
    requires Ended(cfg, s0, s1, Entering(ctx, a), a, n, tape, rest)
    ensures Inv(cfg, s1, ctx) && Ran(cfg, s0, s1, ctx, Withdraws(cfg, ctx, a), tape, rest)
    ensures !s1.active[a] && s1.stacks[a] == 0 && forall e :: 0 <= e < |cfg.effects| && cfg.effects[e].aura == a ==> !s1.bids.enabled[e]
  {
    hide Tracking, Arbitrated, KeptBids, KeptTracking, Settled, Foreseen, Withdraws, Suffix;
    var inner := Entering(ctx, a);
    InvShape(cfg, s0, inner);
    var en := Off(cfg, s0.bids.enabled, a, n);
    var base := Without(s0, en);
    RanShape(cfg, base, s1, inner, Withdraws(cfg, inner, a), tape, rest);
    forall i | 0 <= i < n ensures Owns(cfg, a, cfg.auras[a].effects[i]) {
    }
    KeptOutside(cfg, s0, en, s1, ctx, a);
    SettledFree(s0, base, s1);
    BusyIsInactive(cfg, s0, inner, a);
    BusyStays(cfg, base, s1, inner, a);
    LeaveKeepsInv(cfg, s1, ctx, a);
    ForeseenFree(cfg, s0, base, s1, Withdraws(cfg, inner, a), tape);
    WithdrawsFromOutside(cfg, ctx, a);
  }

  lemma BusyIsInactive(cfg: Config, s: State, ctx: Context, a: nat)
    requires Inv(cfg, s, ctx) && a in ctx.busy && a < |cfg.auras|
    ensures Shape(cfg, s) && !s.active[a]
  {
  }

  lemma BusyStays(cfg: Config, s: State, t: State, ctx: Context, a: nat)
    requires Kept(cfg, s, t, ctx) && a in ctx.busy && a < |cfg.auras| && Shape(cfg, s) && !s.active[a]
    ensures Shape(cfg, t) && !t.active[a] && (s.stacks[a] == 0 ==> t.stacks[a] == 0)
  {
  }

  /** An inactive aura with no effect enabled, whatever callbacks do: it does not become overdue, and bids again
      in no category in which an aura under way bids, unless the category is crowded. */
  lemma StaysDown(cfg: Config, s: State, t: State, ctx: Context, a: nat)
    requires Kept(cfg, s, t, ctx) && a < |s.active| && !s.active[a]
    requires forall e :: 0 <= e < |cfg.effects| && cfg.effects[e].aura == a ==> e < |s.bids.enabled| && !s.bids.enabled[e]
    ensures Shape(cfg, t) && !Overdue(t.active, t.expires, t.now, a)
    ensures forall e :: (0 <= e < |cfg.effects| && cfg.effects[e].aura == a && Closed(cfg, ctx.busy, cfg.effects[e].category)
                         && cfg.effects[e].category !in t.bids.crowded) ==> !t.bids.enabled[e]
    ensures |s.log| <= |t.log| && forall p :: 0 <= p < |s.log| ==> t.log[p] == s.log[p]
  {
    hide Closed, MinExpiresLow;
    KeptShape(cfg, s, t, ctx);
  }

  // ---------------------------------------------------------------- bidding

  lemma CalmStill(cfg: Config, b: Bids, ctx: Context, newcomers: set<nat>)
    requires BidsShape(cfg, b)
    ensures Calm(cfg, b, b, ctx, newcomers)
  {
  }

  /** Unless the category is spoiled, crowded or being taken over already, the holder is an active aura. */
  ghost predicate HolderIsActive(cfg: Config, s: State, e: nat, w: int, ctx: Context)
    requires e < |cfg.effects|
  {
    var c := cfg.effects[e].category;
    c !in s.bids.spoiled && c !in s.bids.crowded && c !in ctx.open ==>
      InCategory(cfg, w, c) && cfg.effects[w].aura < |s.active| && s.active[cfg.effects[w].aura]
  }

  lemma BidTracked(cfg: Config, s0: State, s1: State, e: nat, ctx: Context, ctx': Context)
    requires Inv(cfg, s0, ctx) && e < |cfg.effects| && cfg.effects[e].aura in ctx.busy
    requires BidsShape(cfg, s0.bids) && OpenOk(cfg, ctx) && s1 == s0.(bids := Bidding(cfg, s0.bids, e, ctx))
    requires ctx'.busy == ctx.busy && Arbitrated(cfg, s1.bids, ctx')
    ensures Inv(cfg, s1, ctx') && Shape(cfg, s1)
    ensures cfg.effects[e].category in ctx.settling ==> cfg.effects[e].category in s1.bids.spoiled
  {
    hide Arbitrated;
    BidsStep(cfg, s0, s1, ctx, ctx');
  }

  lemma ChallengeStep(cfg: Config, s0: State, s1: State, e: nat, ctx: Context)
    requires Inv(cfg, s0, ctx) && e < |cfg.effects| && cfg.effects[e].aura in ctx.busy && cfg.effects[e].category < |cfg.categories|
    requires BidsShape(cfg, s0.bids) && OpenOk(cfg, ctx) && s1 == s0.(bids := Bidding(cfg, s0.bids, e, ctx)) && !s0.bids.enabled[e]
    requires var w := s0.bids.winner[cfg.effects[e].category]; w != NO_EFFECT && s0.bids.priority[w] <= s0.bids.priority[e]
    ensures Inv(cfg, s1, Taking(cfg, ctx, e)) && Shape(cfg, s1)
    ensures var w := s0.bids.winner[cfg.effects[e].category];
            OnlyTwo(cfg, s1.bids, e, w, ctx) && HolderIsActive(cfg, s1, e, w, ctx)
    ensures cfg.effects[e].category in ctx.settling ==> cfg.effects[e].category in s1.bids.spoiled
  {
    hide Arbitrated, ListsExact, StacksOk, LogOk;
    ChallengeOpens(cfg, s0.bids, e, ctx);
    BidTracked(cfg, s0, s1, e, ctx, Taking(cfg, ctx, e));
    ChallengeIsBetweenTwo(cfg, s0.bids, e, ctx);
  }

  lemma TakesStep(cfg: Config, s0: State, s1: State, e: nat, ctx: Context)
    requires Inv(cfg, s0, ctx) && e < |cfg.effects| && cfg.effects[e].aura in ctx.busy && cfg.effects[e].category < |cfg.categories|
    requires BidsShape(cfg, s0.bids) && OpenOk(cfg, ctx) && s1 == s0.(bids := Bidding(cfg, s0.bids, e, ctx)) && !s0.bids.enabled[e]
    requires var w := s0.bids.winner[cfg.effects[e].category];
             w == NO_EFFECT || (s0.bids.priority[w] <= s0.bids.priority[e] && (w == e || !cfg.categories[cfg.effects[e].category].singleAura))
    ensures Inv(cfg, s1, Settling(ctx, cfg.effects[e].category)) && Shape(cfg, s1)
    ensures var c := cfg.effects[e].category;
            c !in s1.bids.spoiled ==> LedgerIn(cfg, s1.bids, s1.bids.winner[c], c) && WinnerOk(cfg, s1.bids, e, c, ctx.open)
    ensures cfg.effects[e].category in ctx.settling ==> cfg.effects[e].category in s1.bids.spoiled
  {
    hide Tracking, Arbitrated, WinnerOk, LedgerIn, AtMostOneEnabled;
    var c := cfg.effects[e].category;
    if Single(cfg, c) && c !in s1.bids.spoiled {
      BeforeBid(cfg, s0.bids, e, ctx);
      FirstBidAlone(cfg, s0.bids, e, ctx);
    }
    BidKeeps(cfg, s0.bids, e, ctx);
    BidTracked(cfg, s0, s1, e, ctx, Settling(ctx, c));
    BidWins(cfg, s0.bids, e, ctx);
  }

  lemma OverbiddenStep(cfg: Config, s0: State, s1: State, e: nat, ctx: Context)
    requires Inv(cfg, s0, ctx) && e < |cfg.effects| && cfg.effects[e].aura in ctx.busy && cfg.effects[e].category < |cfg.categories|
    requires BidsShape(cfg, s0.bids) && OpenOk(cfg, ctx) && s1 == s0.(bids := Bidding(cfg, s0.bids, e, ctx)) && !s0.bids.enabled[e]
    requires var c := cfg.effects[e].category;
             var w := s0.bids.winner[c];
             w != NO_EFFECT && s0.bids.priority[e] <= s0.bids.priority[w] && (Single(cfg, c) ==> w == e)
    ensures Inv(cfg, s1, ctx) && Shape(cfg, s1)
  {
    hide Tracking, Arbitrated;
    if Single(cfg, cfg.effects[e].category) && cfg.effects[e].category !in s1.bids.spoiled {
      BeforeBid(cfg, s0.bids, e, ctx);
    }
    Overbidden(cfg, s0.bids, e, ctx);
    BidTracked(cfg, s0, s1, e, ctx, ctx);
  }

  /** The holder has ended: the challenger can be the category's active effect. */
  lemma CloseStep(cfg: Config, s1: State, s2: State, e: nat, w: nat, ctx: Context)
    requires e < |cfg.effects| && cfg.effects[e].aura in ctx.busy && cfg.effects[e].category < |cfg.categories| && OpenOk(cfg, ctx)
    requires Inv(cfg, s2, Taking(cfg, ctx, e)) && Kept(cfg, s1, s2, Taking(cfg, ctx, e))
    requires BidsShape(cfg, s1.bids) && s1.bids.enabled[e] && OnlyTwo(cfg, s1.bids, e, w, ctx) && HolderIsActive(cfg, s1, e, w, ctx)
    requires BidsShape(cfg, s2.bids) && w < |cfg.effects|
    requires cfg.effects[w].aura < |s1.active| && s1.active[cfg.effects[w].aura] ==>
               forall f :: (0 <= f < |cfg.effects| && cfg.effects[f].aura == cfg.effects[w].aura && Closed(cfg, ctx.busy, cfg.effects[f].category)
                            && cfg.effects[f].category !in s2.bids.crowded) ==> !s2.bids.enabled[f]
    requires cfg.effects[e].category in ctx.settling ==> cfg.effects[e].category in s1.bids.spoiled
    ensures Inv(cfg, s2, Settling(ctx, cfg.effects[e].category)) && Kept(cfg, s1, s2, ctx)
    ensures cfg.effects[e].category in ctx.settling ==> cfg.effects[e].category in s2.bids.spoiled
    ensures s2.bids.enabled[e]
    ensures var c := cfg.effects[e].category;
            c !in s2.bids.spoiled ==> LedgerIn(cfg, s2.bids, s2.bids.winner[c], c) && WinnerOk(cfg, s2.bids, e, c, ctx.open)
  {
    hide Tracking, Arbitrated, KeptTracking, KeptBids, WinnerOk, LedgerIn;
    var c := cfg.effects[e].category;
    var taking := Taking(cfg, ctx, e);
    KeptWeaken(cfg, s1, s2, taking, ctx);
    KeptShape(cfg, s1, s2, taking);
    assert InCategory(cfg, e, c) && Closed(cfg, ctx.busy, c);
    ChallengeCloses(cfg, s1.bids, s2.bids, e, w, ctx);
  }

  /** Moving a category to another active effect changes no bid. */
  lemma HandoverIsCalm(cfg: Config, b: Bids, b': Bids, b'': Bids, ctx: Context, ctx': Context)
    requires Calm(cfg, b, b', ctx, {}) && ctx'.settling == ctx.settling && BidsShape(cfg, b'') && SameSurplus(cfg, b', b'')
    requires b'' == b'.(winner := b''.winner, net := b''.net, applied := b''.applied)
    ensures Calm(cfg, b, b'', ctx', {})
  {
  }

  /** The first n effects of aura a enabled. */
  function On(cfg: Config, enabled: seq<bool>, a: nat, n: nat): (r: seq<bool>)
    requires a < |cfg.auras| && n <= |cfg.auras[a].effects|
    ensures |r| == |enabled|
  {
    seq(|enabled|, e requires 0 <= e < |enabled| => enabled[e] || e in cfg.auras[a].effects[..n])
  }

  /** The first i effects of aura a have bid since s0; apart from those bids, all that must be left
      alone was left alone, and the categories they upset or crowd are marked. */
  ghost predicate BiddenTo(cfg: Config, s0: State, t: State, inner: Context, a: nat, i: nat, tape: seq<Command>, rest: seq<Command>) {
    && a < |cfg.auras| && i <= |cfg.auras[a].effects| && Shape(cfg, s0)
    && Ran(cfg, Without(s0, On(cfg, s0.bids.enabled, a, i)), t, inner, ClaimsOf(cfg, inner, a), tape, rest)
    && (forall e :: 0 <= e < |cfg.effects| && cfg.effects[e].aura == a ==> !s0.bids.enabled[e])
    && (forall e :: 0 <= e < |cfg.effects| && e in cfg.auras[a].effects[..i] ==>
          && (cfg.effects[e].category in inner.settling ==> cfg.effects[e].category in t.bids.spoiled)
          && (Crowds(cfg, inner.busy, e) ==> cfg.effects[e].category in t.bids.crowded))
  }

  lemma BidsBegin(cfg: Config, s: State, ctx: Context, a: nat, tape: seq<Command>)
    requires Inv(cfg, s, ctx) && a < |cfg.auras| && !s.active[a] && a !in ctx.busy
    ensures Registered(cfg) && Shape(cfg, s) && OpenOk(cfg, ctx)
    ensures BiddenTo(cfg, s, s, Entering(ctx, a), a, 0, tape, tape)
    ensures Calm(cfg, s.bids, s.bids, Entering(ctx, a), {a})
  {
    hide Arbitrated, Ran, ListsExact, LogOk;
    ArbitratedOpenOk(cfg, s.bids, ctx);
    RanStill(cfg, s, Entering(ctx, a), ClaimsOf(cfg, Entering(ctx, a), a), tape);
    assert On(cfg, s.bids.enabled, a, 0) == s.bids.enabled;
  }

  lemma StillDisabled(cfg: Config, s0: State, t: State, inner: Context, a: nat, i: nat, tape: seq<Command>, rest: seq<Command>)
    requires BiddenTo(cfg, s0, t, inner, a, i, tape, rest) && a in inner.busy
    requires i < |cfg.auras[a].effects| && Owns(cfg, a, cfg.auras[a].effects[i]) && cfg.auras[a].effects[i] !in cfg.auras[a].effects[..i]
    ensures cfg.auras[a].effects[i] < |t.bids.enabled| && !t.bids.enabled[cfg.auras[a].effects[i]]
    ensures Weight(rest) <= Weight(tape) && (PlainTape(cfg, tape) ==> PlainTape(cfg, rest))
  {
    hide Ran;
    RanShape(cfg, Without(s0, On(cfg, s0.bids.enabled, a, i)), t, inner, ClaimsOf(cfg, inner, a), tape, rest);
  }

  lemma NextBid(cfg: Config, s0: State, s1: State, t: State, inner: Context, a: nat, i: nat,
                tape: seq<Command>, mid: seq<Command>, rest: seq<Command>)
    requires BiddenTo(cfg, s0, s1, inner, a, i, tape, mid) && i < |cfg.auras[a].effects| && a in inner.busy
    requires Registered(cfg) && Owns(cfg, a, cfg.auras[a].effects[i]) && BidsShape(cfg, s1.bids) && OpenOk(cfg, inner)
    requires Ran(cfg, s1.(bids := Bidding(cfg, s1.bids, cfg.auras[a].effects[i], inner)), t, inner, ClaimsOf(cfg, inner, a), mid, rest)
    ensures BiddenTo(cfg, s0, t, inner, a, i + 1, tape, rest)
    ensures Weight(rest) <= Weight(mid) <= Weight(tape) && (PlainTape(cfg, tape) ==> PlainTape(cfg, mid) && PlainTape(cfg, rest))
  {
    hide Ran, PlainTape, Crowds, ClaimsOf, Weight;
    var e := cfg.auras[a].effects[i];
    var reach := ClaimsOf(cfg, inner, a);
    var base := Without(s0, On(cfg, s0.bids.enabled, a, i));
    var next := Without(s0, On(cfg, s0.bids.enabled, a, i + 1));
    var u := s1.(bids := Bidding(cfg, s1.bids, e, inner));
    RanShape(cfg, base, s1, inner, reach, tape, mid);
    RanShape(cfg, u, t, inner, reach, mid, rest);
    BidMarks(cfg, s1.bids, inner, a, e);
    RanTurned(cfg, base, s1, u, inner, e, true, reach, tape, mid);
    assert cfg.auras[a].effects[..i + 1] == cfg.auras[a].effects[..i] + [e];
    assert Without(base, base.bids.enabled[e := true]) == next by {
      assert base.bids.enabled[e := true] == next.bids.enabled;
    }
    RanOn(cfg, next, u, t, inner, reach, reach, reach, tape, mid, rest);
  }

  lemma BidIsCalm(cfg: Config, b0: Bids, b: Bids, b': Bids, inner: Context, a: nat, i: nat)
    requires Registered(cfg) && BidsShape(cfg, b) && OpenOk(cfg, inner)
    requires a < |cfg.auras| && i < |cfg.auras[a].effects| && Owns(cfg, a, cfg.auras[a].effects[i])
    ensures Calm(cfg, b0, b, inner, {a}) && Calm(cfg, Bidding(cfg, b, cfg.auras[a].effects[i], inner), b', inner, {}) ==>
              Calm(cfg, b0, b', inner, {a})
  {
    if Calm(cfg, b0, b, inner, {a}) && Calm(cfg, Bidding(cfg, b, cfg.auras[a].effects[i], inner), b', inner, {}) {
      assert Calm(cfg, b, b', inner, {a});
      CalmOn(cfg, b0, b, b', inner, {a});
    }
  }

  /** The bids of an activation, seen from outside. */
  lemma BidsEnd(cfg: Config, s0: State, t: State, ctx: Context, a: nat, i: nat, tape: seq<Command>, rest: seq<Command>)
    requires Inv(cfg, s0, ctx) && Inv(cfg, t, Entering(ctx, a)) && a < |cfg.auras| && i <= |cfg.auras[a].effects|
    requires BiddenTo(cfg, s0, t, Entering(ctx, a), a, i, tape, rest) && a !in ctx.busy && !s0.active[a]
    ensures Ran(cfg, s0, t, ctx, ClaimsOf(cfg, ctx, a), tape, rest)
    ensures !t.active[a] && t.stacks[a] == 0
    ensures forall e :: 0 <= e < |cfg.effects| && cfg.effects[e].aura == a ==> t.bids.enabled[e] == (e in cfg.auras[a].effects[..i])
    ensures i == |cfg.auras[a].effects| ==> forall e :: 0 <= e < |cfg.effects| && cfg.effects[e].aura == a ==> t.bids.enabled[e]
  {
    hide Arbitrated, Tracking, KeptBids, KeptTracking, Settled, Crowds, Foreseen, ClaimsOf, Suffix;
    var inner := Entering(ctx, a);
    InvShape(cfg, s0, ctx);
    InvShape(cfg, t, inner);
    var en := On(cfg, s0.bids.enabled, a, i);
    var base := Without(s0, en);
    RanShape(cfg, base, t, inner, ClaimsOf(cfg, inner, a), tape, rest);
    forall j | 0 <= j < i ensures Owns(cfg, a, cfg.auras[a].effects[j]) {
    }
    forall e | 0 <= e < |cfg.effects| && e in cfg.auras[a].effects[..i] && Closed(cfg, ctx.busy, cfg.effects[e].category)
      ensures Crowds(cfg, inner.busy, e)
    {
      ClosedIsCrowded(cfg, ctx, a, e);
    }
    KeptOutside(cfg, s0, en, t, ctx, a);
    SettledFree(s0, base, t);
    BusyIsInactive(cfg, t, inner, a);
    RestWithoutStacks(cfg, s0, ctx, a);
    BusyStays(cfg, base, t, inner, a);
    assert cfg.auras[a].effects[..|cfg.auras[a].effects|] == cfg.auras[a].effects;
    ForeseenFree(cfg, s0, base, t, ClaimsOf(cfg, inner, a), tape);
    ClaimsFromOutside(cfg, ctx, a);
  }

  lemma ClosedIsCrowded(cfg: Config, ctx: Context, a: nat, e: nat)
    requires e < |cfg.effects| && cfg.effects[e].aura == a && a !in ctx.busy && Closed(cfg, ctx.busy, cfg.effects[e].category)
    ensures Crowds(cfg, Entering(ctx, a).busy, e)
  {
    var f :| InCategory(cfg, f, cfg.effects[e].category) && cfg.effects[f].aura in ctx.busy;
    assert InCategory(cfg, f, cfg.effects[e].category) && f != e && cfg.effects[f].aura in Entering(ctx, a).busy;
  }

  lemma RestWithoutStacks(cfg: Config, s: State, ctx: Context, a: nat)
    requires Inv(cfg, s, ctx) && a < |cfg.auras| && a !in ctx.busy && !s.active[a]
    ensures s.stacks[a] == 0
  {
  }

  lemma BidsTakenBack(cfg: Config, b: Bids, b': Bids, b'': Bids, ctx: Context, a: nat)
    requires Calm(cfg, b, b', Entering(ctx, a), {a}) && Calm(cfg, b', b'', Entering(ctx, a), {})
    ensures Calm(cfg, b, b'', ctx, {a})
  {
  }

  /** The effects of an active aura are enabled. */
  lemma ActiveBids(cfg: Config, s: State, ctx: Context, a: nat)
    requires Inv(cfg, s, ctx) && a < |cfg.auras| && s.active[a]
    ensures forall e :: 0 <= e < |cfg.effects| && cfg.effects[e].aura == a ==> s.bids.enabled[e]
  {
  }

  /** The aura that may end when e takes its category over; -1 if there is none. */
  function HolderOf(cfg: Config, winner: seq<int>, e: nat): int
    requires e < |cfg.effects|
  {
    var c := cfg.effects[e].category;
    if c < |winner| && 0 <= winner[c] < |cfg.effects| then cfg.effects[winner[c]].aura else -1
  }

  /** No effect but those of one aura is disabled. */
  ghost predicate OthersUp(cfg: Config, b: Bids, b': Bids, h: int)
    requires BidsShape(cfg, b) && BidsShape(cfg, b')
  {
    forall e :: 0 <= e < |cfg.effects| && b.enabled[e] && cfg.effects[e].aura != h ==> b'.enabled[e]
  }

  /** Once e has bid: who is its category's active effect, and that only the aura displaced, if any, ended. */
  ghost predicate HoldsAfter(cfg: Config, e: nat, takes: bool, before: Bids, after: Bids)
    requires e < |cfg.effects|
  {
    var c := cfg.effects[e].category;
    && BidsShape(cfg, before) && BidsShape(cfg, after) && c < |after.winner| == |before.winner|
    && after.winner[c] == (if takes then e else before.winner[c])
    && OthersUp(cfg, before, after, HolderOf(cfg, before.winner, e))
  }

  /** Only the holder's effects were disabled when it ended, and none by the handover after it. */
  lemma OnlyHolderDown(cfg: Config, s1: State, s2: State, b: Bids, h: nat)
    requires BidsShape(cfg, s1.bids) && BidsShape(cfg, s2.bids) && BidsShape(cfg, b) && b.enabled == s2.bids.enabled
    requires s2.bids.enabled == s1.bids.enabled ||
             forall e :: 0 <= e < |cfg.effects| ==> s2.bids.enabled[e] == (s1.bids.enabled[e] && cfg.effects[e].aura != h)
    ensures OthersUp(cfg, s1.bids, b, h)
  {
  }

  lemma UpAfterHandover(cfg: Config, b: Bids, b': Bids, b'': Bids, h: int)
    requires BidsShape(cfg, b) && BidsShape(cfg, b') && BidsShape(cfg, b'') && b''.enabled == b'.enabled && OthersUp(cfg, b, b', h)
    ensures OthersUp(cfg, b, b'', h)
  {
  }

  lemma SurplusStill(cfg: Config, b: Bids)
    requires BidsShape(cfg, b)
    ensures SameSurplus(cfg, b, b)
  {
  }

  /** A handover: the old active effect's OnExpire, then the new one's OnGain. */
  lemma HandoverBalances(cfg: Config, b: Bids, b': Bids, c: nat, w: int)
    requires BidsShape(cfg, b) && BidsShape(cfg, b') && c < |cfg.categories| && (w == NO_EFFECT || InCategory(cfg, w, c))
    requires w != b.winner[c] && b'.winner == b.winner[c := w]
    requires var paid := if b.winner[c] == NO_EFFECT then b.net else b.net[b.winner[c] := b.net[b.winner[c]] - 1];
             b'.net == if w == NO_EFFECT then paid else paid[w := paid[w] + 1]
    ensures SameSurplus(cfg, b, b')
  {
  }

  // ---------------------------------------------------------------- dispatch

  /** An event that fired in state s0 has taken i turns of its walk; the depth stands one deeper. */
  ghost predicate Walked(cfg: Config, s0: State, s: State, ctx: Context, k: nat, walk: seq<nat>, i: nat) {
    && i <= |walk|
    && (forall p :: 0 <= p < |walk| ==> walk[p] < |cfg.auras|)
    && s.depth == s0.depth + 1 <= |s.buffers| && s.buffers[s0.depth] == walk
    && Kept(cfg, s0, s.(depth := s0.depth), ctx) && Settled(s0, s)
    && TurnsAt(s.log, s0.depth) == TurnsAt(s0.log, s0.depth) + WalkOf(k, walk[..i])
  }

  /** The walk's copy goes into the buffer of this depth; nothing below it changes. */
  lemma WalkBegins(cfg: Config, s: State, t: State, ctx: Context, k: nat, walk: seq<nat>)
    requires Inv(cfg, s, ctx) && k < KINDS && walk == s.lists[k]
    requires t == s.(depth := s.depth + 1, buffers := (if s.depth == |s.buffers| then s.buffers + [[]] else s.buffers)[s.depth := walk])
    ensures Inv(cfg, t, ctx) && Walked(cfg, s, t, ctx, k, walk, 0)
  {
    hide Arbitrated;
    ArbitratedOpenOk(cfg, s.bids, ctx);
    KeptBidsItself(cfg, s.bids, ctx);
    assert Exact(s.lists[k], s.index[k], Members(cfg, s.active, k));
  }

  lemma WalkReads(cfg: Config, s0: State, s: State, ctx: Context, k: nat, walk: seq<nat>, i: nat)
    requires Walked(cfg, s0, s, ctx, k, walk, i) && i < |walk|
    ensures s0.depth < |s.buffers| && s.buffers[s0.depth] == walk && walk[i] < |cfg.auras| == |s.active|
    ensures s.depth == s0.depth + 1
  {
  }

  lemma WalkDepth(cfg: Config, s0: State, s: State, ctx: Context, k: nat, walk: seq<nat>, i: nat)
    requires Walked(cfg, s0, s, ctx, k, walk, i)
    ensures s.depth == s0.depth + 1
  {
  }

  /** The i-th turn is recorded, before the callback runs. */
  lemma TurnStep(cfg: Config, s0: State, s1: State, ctx: Context, k: nat, walk: seq<nat>, i: nat, called: bool)
    requires Inv(cfg, s1, ctx) && Walked(cfg, s0, s1, ctx, k, walk, i) && i < |walk|
    requires walk[i] < |cfg.auras| && called == s1.active[walk[i]]
    ensures var s2 := s1.(log := s1.log + [Turn(s0.depth, k, walk[i], called)]);
            Inv(cfg, s2, ctx) && Walked(cfg, s0, s2, ctx, k, walk, i + 1)
  {
    hide ListsExact, Arbitrated, KeptBids, LogGrows, StacksOk, EnabledOk;
    var ev := Turn(s0.depth, k, walk[i], called);
    LogAppend(s1.log, ev);
    LogStep(cfg, s1, ev, ctx);
    var u := s1.(depth := s0.depth);
    LogGrowsByOne(u.log, ev, u.depth);
    ArbitratedOpenOk(cfg, u.bids, ctx);
    KeptBidsItself(cfg, u.bids, ctx);
    KeptTransitive(cfg, s0, u, u.(log := u.log + [ev]), ctx);
    assert WalkOf(k, walk[..i + 1]) == WalkOf(k, walk[..i]) + [(k, walk[i])];
  }

  /** The turn counts as a call if it was one; turns of nested events do not count. */
  lemma TurnCounts(cfg: Config, s1: State, s2: State, s3: State, ctx: Context, d: nat, k: nat, a: nat, called: bool)
    requires s2 == s1.(log := s1.log + [Turn(d, k, a, called)]) && s1.depth == d + 1 && Kept(cfg, s2, s3, ctx)
    ensures CallsAt(s3.log, d) == CallsAt(s1.log, d) + if called then 1 else 0
  {
    hide KeptBids, MinExpiresLow, Shape;
    CallsAppend(s1.log, Turn(d, k, a, called), d);
    DeeperCallsHidden(s2.log, s3.log, d);
  }

  lemma ListedIsActive(cfg: Config, s: State, ctx: Context, k: nat)
    requires Inv(cfg, s, ctx) && k < KINDS
    ensures |s.lists| == KINDS && |s.active| == |cfg.auras|
    ensures forall i :: 0 <= i < |s.lists[k]| ==> s.lists[k][i] < |cfg.auras| && s.active[s.lists[k][i]]
  {
    hide Arbitrated, LogOk, StacksOk, EnabledOk;
    assert Exact(s.lists[k], s.index[k], Members(cfg, s.active, k));
  }

  /** What a nested callback keeps at the deeper level, its walk's buffer and the turns taken
      included, it keeps at the outer one. */
  lemma NestedStep(cfg: Config, s0: State, s2: State, s3: State, ctx: Context, k: nat, walk: seq<nat>, i: nat)
    requires Walked(cfg, s0, s2, ctx, k, walk, i) && Kept(cfg, s2, s3, ctx) && Settled(s2, s3)
    ensures Walked(cfg, s0, s3, ctx, k, walk, i)
  {
    hide KeptBids, MinExpiresLow, Shape;
    var d := s0.depth;
    DeeperTurnsHidden(s2.log, s3.log, d);
    assert s3.buffers[..d + 1][d] == s3.buffers[d];
    assert s3.buffers[..d] == s3.buffers[..d + 1][..d];
    assert s2.buffers[..d] == s2.buffers[..d + 1][..d];
    var u, v := s2.(depth := d), s3.(depth := d);
    DepthFree(cfg, s2, d);
    DepthFree(cfg, s3, d);
    assert Kept(cfg, u, v, ctx);
    KeptTransitive(cfg, s0, u, v, ctx);
  }

  lemma DepthFree(cfg: Config, s: State, d: nat)
    requires Shape(cfg, s) && d <= |s.buffers|
    ensures Shape(cfg, s.(depth := d))
  {
  }

  lemma WalkEnds(cfg: Config, s: State, t: State, ctx: Context, k: nat, walk: seq<nat>)
    requires Inv(cfg, t, ctx) && Walked(cfg, s, t, ctx, k, walk, |walk|)
    ensures var u := t.(depth := s.depth);
            && Inv(cfg, u, ctx) && Kept(cfg, s, u, ctx) && Settled(s, u) && t.depth == s.depth + 1
            && TurnsAt(u.log, s.depth) == TurnsAt(s.log, s.depth) + WalkOf(k, walk)
  {
    hide Arbitrated, KeptBids, ListsExact, LogGrows;
    assert walk[..|walk|] == walk;
  }
}

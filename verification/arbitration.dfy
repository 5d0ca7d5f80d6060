/** How bids, withdrawals and new active effects change the arbitration of a category: the steps of the
    tracker's operations on exclusive effects, as facts about plain values. */
module Arbitration {
  import opened AuraState

  function Entering(ctx: Context, a: nat): Context {
    ctx.(busy := ctx.busy + {a})
  }

  function Settling(ctx: Context, c: nat): Context {
    ctx.(settling := ctx.settling + {c})
  }

  /** While e takes over its category; a challenger already under way stays the one. */
  function Taking(cfg: Config, ctx: Context, e: nat): (taking: Context)
    requires e < |cfg.effects|
    ensures taking.busy == ctx.busy && taking.settling == ctx.settling && cfg.effects[e].category in taking.open
  {
    var c := cfg.effects[e].category;
    if c in ctx.open then ctx else ctx.(open := ctx.open[c := e])
  }

  /** Whether a bid p of the effect e upsets an operation under way in its category: a settling category's
      bids must stand, and a challenger's must stay the highest. */
  ghost predicate Upsets(cfg: Config, b: Bids, ctx: Context, e: nat, p: real)
    requires BidsShape(cfg, b) && OpenOk(cfg, ctx) && e < |cfg.effects|
  {
    var c := cfg.effects[e].category;
    || c in ctx.settling
    || (c in ctx.open && if ctx.open[c] == e then p < b.priority[e] else p > b.priority[ctx.open[c]])
  }

  ghost function Marked(cfg: Config, s: set<nat>, e: nat, mark: bool): set<nat>
    requires e < |cfg.effects|
  {
    if mark then s + {cfg.effects[e].category} else s
  }

  /** The effect e enabled. */
  ghost function Bidding(cfg: Config, b: Bids, e: nat, ctx: Context): Bids
    requires BidsShape(cfg, b) && OpenOk(cfg, ctx) && e < |cfg.effects|
  {
    b.(enabled := b.enabled[e := true],
       spoiled := Marked(cfg, b.spoiled, e, Upsets(cfg, b, ctx, e, b.priority[e])),
       crowded := Marked(cfg, b.crowded, e, Crowds(cfg, ctx.busy, e)))
  }

  /** The enabled effect e disabled. */
  ghost function Withdrawing(cfg: Config, b: Bids, e: nat, ctx: Context): Bids
    requires BidsShape(cfg, b) && e < |cfg.effects|
  {
    b.(enabled := b.enabled[e := false],
       spoiled := Marked(cfg, b.spoiled, e, cfg.effects[e].category in ctx.settling))
  }

  // ---------------------------------------------------------------- frames

  lemma KeptBidsItself(cfg: Config, b: Bids, ctx: Context)
    requires BidsShape(cfg, b)
    ensures KeptBids(cfg, b, b, ctx)
  {
  }

  /** Operations of the effects of one aura under way, seen from outside: apart from those effects, all
      that must be left alone was left alone. */
  lemma KeptFromBase(cfg: Config, b: Bids, en: seq<bool>, b': Bids, ctx: Context, a: nat)
    requires BidsShape(cfg, b) && |en| == |b.enabled| && a !in ctx.busy
    requires KeptBids(cfg, b.(enabled := en), b', Entering(ctx, a))
    requires forall e :: 0 <= e < |cfg.effects| && en[e] != b.enabled[e] ==>
               && cfg.effects[e].aura == a
               && (cfg.effects[e].category in ctx.settling ==> cfg.effects[e].category in b'.spoiled)
               && (en[e] && Closed(cfg, ctx.busy, cfg.effects[e].category) ==> cfg.effects[e].category in b'.crowded)
    ensures KeptBids(cfg, b, b', ctx)
  {
    var base := b.(enabled := en);
    forall e | (0 <= e < |cfg.effects| && b'.enabled[e] && cfg.effects[e].category !in b'.crowded
                && Closed(cfg, ctx.busy, cfg.effects[e].category))
      ensures b.enabled[e]
    {
      var f :| InCategory(cfg, f, cfg.effects[e].category) && cfg.effects[f].aura in ctx.busy;
      assert cfg.effects[f].aura in Entering(ctx, a).busy;
      assert Closed(cfg, Entering(ctx, a).busy, cfg.effects[e].category);
      assert en[e];
    }
    forall c | c in ctx.settling && c !in b'.spoiled ensures SameIn(cfg, b, b', c) {
      assert SameIn(cfg, base, b', c);
    }
  }

  /** Turning an effect of an aura under way on or off on both sides changes nothing about what was kept. */
  lemma KeptTurned(cfg: Config, b: Bids, b': Bids, b'': Bids, e: nat, on: bool, ctx: Context)
    requires KeptBids(cfg, b, b', ctx) && e < |cfg.effects| && cfg.effects[e].aura in ctx.busy
    requires b'' == b'.(enabled := b'.enabled[e := on], spoiled := b''.spoiled, crowded := b''.crowded)
    requires b'.spoiled <= b''.spoiled && b'.crowded <= b''.crowded
    requires on && cfg.effects[e].category in ctx.settling ==> cfg.effects[e].category in b''.spoiled
    ensures KeptBids(cfg, b.(enabled := b.enabled[e := on]), b'', ctx)
  {
    forall c | c in ctx.settling && c !in b''.spoiled ensures SameIn(cfg, b.(enabled := b.enabled[e := on]), b'', c) {
      assert SameIn(cfg, b, b', c);
    }
  }

  /** The active effect, the bids and the ledger change in the category c alone. */
  ghost predicate ChangesIn(cfg: Config, b: Bids, b': Bids, c: nat) {
    && BidsShape(cfg, b) && BidsShape(cfg, b')
    && b'.enabled == b.enabled && b'.spoiled == b.spoiled && b'.crowded == b.crowded
    && (forall d :: 0 <= d < |cfg.categories| && d != c ==> b'.winner[d] == b.winner[d])
    && (forall e :: 0 <= e < |cfg.effects| && cfg.effects[e].category != c ==>
          b'.priority[e] == b.priority[e] && b'.net[e] == b.net[e] && b'.applied[e] == b.applied[e])
  }

  lemma ChangeKeeps(cfg: Config, b: Bids, b': Bids, c: nat, ctx: Context)
    requires ChangesIn(cfg, b, b', c) && (c in ctx.settling ==> c in b.spoiled)
    ensures KeptBids(cfg, b, b', ctx)
  {
  }

  lemma ElsewhereOk(cfg: Config, b: Bids, b': Bids, d: nat, open: map<nat, nat>)
    requires BidsShape(cfg, b) && BidsShape(cfg, b') && d < |cfg.categories| && SameIn(cfg, b, b', d)
    requires CategoryOk(cfg, b, d, open)
    ensures CategoryOk(cfg, b', d, open)
  {
  }

  /** A change in a settling category. */
  lemma ChangeWhileSettling(cfg: Config, b: Bids, b': Bids, c: nat, ctx: Context)
    requires Arbitrated(cfg, b, ctx) && ChangesIn(cfg, b, b', c) && c in ctx.settling
    ensures Arbitrated(cfg, b', ctx)
  {
    forall d | 0 <= d < |cfg.categories| && d !in b'.spoiled && d !in ctx.settling ensures CategoryOk(cfg, b', d, ctx.open) {
      ElsewhereOk(cfg, b, b', d, ctx.open);
    }
    forall d | 0 <= d < |cfg.categories| && d !in b'.spoiled && d !in b'.crowded && d !in ctx.open && Single(cfg, d)
      ensures AtMostOneEnabled(cfg, b', d)
    {
      assert AtMostOneEnabled(cfg, b, d);
    }
  }

  /** Once the category is decided, or past deciding, it is no longer settling. */
  lemma Settles(cfg: Config, b: Bids, c: nat, ctx: Context)
    requires Arbitrated(cfg, b, Settling(ctx, c)) && c < |cfg.categories|
    requires c in b.spoiled || CategoryOk(cfg, b, c, ctx.open)
    ensures Arbitrated(cfg, b, ctx)
  {
    forall d | 0 <= d < |cfg.categories| && d !in b.spoiled && d !in ctx.settling ensures CategoryOk(cfg, b, d, ctx.open) {
      assert d != c ==> d !in Settling(ctx, c).settling;
    }
  }

  lemma StartsSettling(cfg: Config, b: Bids, c: nat, ctx: Context)
    requires Arbitrated(cfg, b, ctx)
    ensures Arbitrated(cfg, b, Settling(ctx, c))
  {
  }

  // ---------------------------------------------------------------- moving a category to another active effect

  /** The old active effect's OnExpire has taken its bid back: nothing of the category is applied. */
  ghost predicate NothingApplied(cfg: Config, b: Bids, c: nat)
    requires BidsShape(cfg, b)
  {
    LedgerIn(cfg, b, NO_EFFECT, c)
  }

  /** The bids in the category are the same. */
  ghost predicate SameBids(cfg: Config, b: Bids, b': Bids, c: nat)
    requires BidsShape(cfg, b) && BidsShape(cfg, b')
  {
    forall e :: InCategory(cfg, e, c) ==> b'.enabled[e] == b.enabled[e] && (b.enabled[e] ==> b'.priority[e] == b.priority[e])
  }

  lemma SameBidsSameWinner(cfg: Config, b: Bids, b': Bids, w: int, c: nat, open: map<nat, nat>)
    requires BidsShape(cfg, b) && BidsShape(cfg, b') && SameBids(cfg, b, b', c) && WinnerOk(cfg, b, w, c, open)
    ensures WinnerOk(cfg, b', w, c, open)
  {
  }

  /** What the callbacks of a settling category leave of it, if it is not spoiled. */
  lemma SettlingStays(cfg: Config, b: Bids, b': Bids, w: int, c: nat, ctx: Context)
    requires KeptBids(cfg, b, b', ctx) && c in ctx.settling && c !in b'.spoiled && c < |cfg.categories|
    ensures SameIn(cfg, b, b', c)
    ensures WinnerOk(cfg, b, w, c, ctx.open) ==> WinnerOk(cfg, b', w, c, ctx.open)
    ensures NothingApplied(cfg, b, c) ==> NothingApplied(cfg, b', c)
    ensures LedgerIn(cfg, b, w, c) && InCategory(cfg, w, c) && b.enabled[w] ==> LedgerIn(cfg, b', w, c)
  {
  }

  lemma ExpireTakesBack(cfg: Config, b: Bids, b': Bids, c: nat)
    requires BidsShape(cfg, b) && c < |cfg.categories|
    requires b.winner[c] != NO_EFFECT
    requires var w := b.winner[c]; b' == b.(net := b.net[w := b.net[w] - 1], applied := b.applied[w := b.applied[w] - b.priority[w]])
    ensures ChangesIn(cfg, b, b', c)
    ensures LedgerIn(cfg, b, b.winner[c], c) ==> NothingApplied(cfg, b', c)
  {
  }

  lemma GainApplies(cfg: Config, b: Bids, b': Bids, c: nat, w: nat)
    requires BidsShape(cfg, b) && c < |cfg.categories| && InCategory(cfg, w, c)
    requires b' == b.(net := b.net[w := b.net[w] + 1], applied := b.applied[w := b.applied[w] + b.priority[w]])
    ensures ChangesIn(cfg, b, b', c)
    ensures NothingApplied(cfg, b, c) ==> LedgerIn(cfg, b', w, c)
    ensures forall open :: WinnerOk(cfg, b, w, c, open) ==> WinnerOk(cfg, b', w, c, open)
  {
  }

  // ---------------------------------------------------------------- withdrawing

  /** Withdrawing a bid leaves its own category to be settled, and every other as it was. */
  lemma WithdrawKeeps(cfg: Config, b: Bids, e: nat, ctx: Context)
    requires Arbitrated(cfg, b, ctx) && e < |cfg.effects|
    ensures var b1 := Withdrawing(cfg, b, e, ctx);
            Arbitrated(cfg, b1, Settling(ctx, cfg.effects[e].category)) && b1 == b1.(spoiled := b1.spoiled)
  {
    var b1 := Withdrawing(cfg, b, e, ctx);
    var c := cfg.effects[e].category;
    var inner := Settling(ctx, c);
    forall d | 0 <= d < |cfg.categories| && d !in b1.spoiled && d !in inner.settling ensures CategoryOk(cfg, b1, d, ctx.open) {
      ElsewhereOk(cfg, b, b1, d, ctx.open);
    }
    forall d | 0 <= d < |cfg.categories| && d !in b1.spoiled && d !in b1.crowded && d !in inner.open && Single(cfg, d)
      ensures AtMostOneEnabled(cfg, b1, d)
    {
      assert AtMostOneEnabled(cfg, b, d);
    }
  }

  /** After a withdrawal the category stays with its active effect, or goes to a highest bidder left. */
  lemma WithdrawDecides(cfg: Config, b: Bids, e: nat, w: int, ctx: Context)
    requires Arbitrated(cfg, b, ctx) && e < |cfg.effects| && cfg.effects[e].category < |cfg.categories|
    requires b.enabled[e] && cfg.effects[e].category !in Withdrawing(cfg, b, e, ctx).spoiled
    requires forall c :: c in ctx.open ==> ctx.open[c] != e
    requires var c, b1 := cfg.effects[e].category, Withdrawing(cfg, b, e, ctx);
             if b.winner[c] != e then w == b.winner[c]
             else if w == NO_EFFECT then NoneEnabled(cfg, b1, c)
             else InCategory(cfg, w, c) && b1.enabled[w] && Highest(cfg, b1, c, w)
    ensures var c, b1 := cfg.effects[e].category, Withdrawing(cfg, b, e, ctx);
            && WinnerOk(cfg, b1, w, c, ctx.open)
            && LedgerIn(cfg, b1, b1.winner[c], c)
  {
    var c := cfg.effects[e].category;
    assert CategoryOk(cfg, b, c, ctx.open);
  }

  // ---------------------------------------------------------------- bidding

  /** A new bid leaves its own category to be settled, and every other as it was. */
  lemma BidKeeps(cfg: Config, b: Bids, e: nat, ctx: Context)
    requires Arbitrated(cfg, b, ctx) && e < |cfg.effects|
    requires var c, b1 := cfg.effects[e].category, Bidding(cfg, b, e, ctx);
             c < |cfg.categories| && Single(cfg, c) && c !in b1.spoiled && c !in b1.crowded && c !in ctx.open ==>
               AtMostOneEnabled(cfg, b1, c)
    ensures Arbitrated(cfg, Bidding(cfg, b, e, ctx), Settling(ctx, cfg.effects[e].category))
  {
    var b1 := Bidding(cfg, b, e, ctx);
    var c := cfg.effects[e].category;
    var inner := Settling(ctx, c);
    forall d | 0 <= d < |cfg.categories| && d !in b1.spoiled && d !in inner.settling ensures CategoryOk(cfg, b1, d, ctx.open) {
      ElsewhereOk(cfg, b, b1, d, ctx.open);
    }
    forall d | 0 <= d < |cfg.categories| && d !in b1.spoiled && d !in b1.crowded && d !in inner.open && Single(cfg, d)
      ensures AtMostOneEnabled(cfg, b1, d)
    {
      if d != c {
        assert AtMostOneEnabled(cfg, b, d);
      }
    }
  }

  /** The category of a new bid, decided before, has an active effect w that is enabled, and nobody bids above
      it but the challenger of a take-over. */
  lemma BeforeBid(cfg: Config, b: Bids, e: nat, ctx: Context)
    requires Arbitrated(cfg, b, ctx) && e < |cfg.effects| && cfg.effects[e].category < |cfg.categories|
    requires cfg.effects[e].category !in Bidding(cfg, b, e, ctx).spoiled
    ensures CategoryOk(cfg, b, cfg.effects[e].category, ctx.open)
    ensures !b.enabled[e] ==> b.winner[cfg.effects[e].category] != e
  {
  }

  /** A first bid, a higher one, or a tie that wins: e can be the active effect. */
  lemma BidWins(cfg: Config, b: Bids, e: nat, ctx: Context)
    requires Arbitrated(cfg, b, ctx) && e < |cfg.effects| && !b.enabled[e] && cfg.effects[e].category < |cfg.categories|
    requires var w := b.winner[cfg.effects[e].category]; w != NO_EFFECT ==> b.priority[w] <= b.priority[e]
    ensures var c, b1 := cfg.effects[e].category, Bidding(cfg, b, e, ctx);
            c !in b1.spoiled ==> WinnerOk(cfg, b1, e, c, ctx.open) && LedgerIn(cfg, b1, b1.winner[c], c)
  {
    var c := cfg.effects[e].category;
    if c !in Bidding(cfg, b, e, ctx).spoiled {
      BeforeBid(cfg, b, e, ctx);
    }
  }

  /** A first bid stands alone in its category. */
  lemma FirstBidAlone(cfg: Config, b: Bids, e: nat, ctx: Context)
    requires Arbitrated(cfg, b, ctx) && e < |cfg.effects| && cfg.effects[e].category < |cfg.categories|
    requires b.winner[cfg.effects[e].category] == NO_EFFECT
    requires cfg.effects[e].category !in Bidding(cfg, b, e, ctx).spoiled
    ensures AtMostOneEnabled(cfg, Bidding(cfg, b, e, ctx), cfg.effects[e].category)
  {
    BeforeBid(cfg, b, e, ctx);
  }

  /** A bid that does not take the category, lower or a tie that yields: it stays decided. */
  lemma Overbidden(cfg: Config, b: Bids, e: nat, ctx: Context)
    requires Arbitrated(cfg, b, ctx) && e < |cfg.effects| && !b.enabled[e] && cfg.effects[e].category < |cfg.categories|
    requires !Single(cfg, cfg.effects[e].category) || cfg.effects[e].category in Bidding(cfg, b, e, ctx).spoiled
    requires var w := b.winner[cfg.effects[e].category]; w != NO_EFFECT && b.priority[e] <= b.priority[w]
    ensures Arbitrated(cfg, Bidding(cfg, b, e, ctx), ctx)
  {
    var c, b1 := cfg.effects[e].category, Bidding(cfg, b, e, ctx);
    BidKeeps(cfg, b, e, ctx);
    if c !in b1.spoiled {
      BeforeBid(cfg, b, e, ctx);
    }
    Settles(cfg, b1, c, ctx);
  }

  // ---------------------------------------------------------------- taking a category over

  /** A challenger that takes over a single-aura category is enabled before the holder is ended. */
  lemma ChallengeOpens(cfg: Config, b: Bids, e: nat, ctx: Context)
    requires Arbitrated(cfg, b, ctx) && e < |cfg.effects| && !b.enabled[e] && cfg.effects[e].category < |cfg.categories|
    requires cfg.effects[e].aura in ctx.busy
    requires var w := b.winner[cfg.effects[e].category]; w != NO_EFFECT && b.priority[w] <= b.priority[e]
    ensures Arbitrated(cfg, Bidding(cfg, b, e, ctx), Taking(cfg, ctx, e))
  {
    var c, b1, taking := cfg.effects[e].category, Bidding(cfg, b, e, ctx), Taking(cfg, ctx, e);
    forall d | 0 <= d < |cfg.categories| && d !in b1.spoiled && d !in taking.settling ensures CategoryOk(cfg, b1, d, taking.open) {
      if d == c {
        BeforeBid(cfg, b, e, ctx);
      } else {
        ElsewhereOk(cfg, b, b1, d, ctx.open);
      }
    }
    forall d | 0 <= d < |cfg.categories| && d !in b1.spoiled && d !in b1.crowded && d !in taking.open && Single(cfg, d)
      ensures AtMostOneEnabled(cfg, b1, d)
    {
      assert AtMostOneEnabled(cfg, b, d);
    }
  }

  /** In a category that is neither spoiled nor crowded nor being taken over already, the holder w and the
      challenger e are the only bidders, and the holder's aura is not under way. */
  ghost predicate OnlyTwo(cfg: Config, b: Bids, e: nat, w: int, ctx: Context)
    requires BidsShape(cfg, b) && e < |cfg.effects|
  {
    var c := cfg.effects[e].category;
    c !in b.spoiled && c !in b.crowded && c !in ctx.open ==>
      && InCategory(cfg, w, c) && cfg.effects[w].aura !in ctx.busy && b.enabled[w]
      && (Single(cfg, c) ==> forall f :: InCategory(cfg, f, c) && b.enabled[f] ==> f == e || f == w)
  }

  lemma ChallengeIsBetweenTwo(cfg: Config, b: Bids, e: nat, ctx: Context)
    requires Arbitrated(cfg, b, ctx) && e < |cfg.effects| && !b.enabled[e] && cfg.effects[e].category < |cfg.categories|
    requires b.winner[cfg.effects[e].category] != NO_EFFECT
    ensures OnlyTwo(cfg, Bidding(cfg, b, e, ctx), e, b.winner[cfg.effects[e].category], ctx)
  {
    var c, b1 := cfg.effects[e].category, Bidding(cfg, b, e, ctx);
    if c !in b1.spoiled && c !in b1.crowded && c !in ctx.open {
      BeforeBid(cfg, b, e, ctx);
      assert Single(cfg, c) ==> AtMostOneEnabled(cfg, b, c);
    }
  }

  /** Once the holder has ended, the challenger can be the category's active effect. */
  lemma ChallengeCloses(cfg: Config, b1: Bids, b2: Bids, e: nat, w: nat, ctx: Context)
    requires e < |cfg.effects| && cfg.effects[e].category < |cfg.categories| && cfg.effects[e].aura in ctx.busy
    requires Arbitrated(cfg, b2, Taking(cfg, ctx, e)) && KeptBids(cfg, b1, b2, Taking(cfg, ctx, e)) && OpenOk(cfg, ctx)
    requires b1.enabled[e] && OnlyTwo(cfg, b1, e, w, ctx)
    requires cfg.effects[e].category in ctx.settling ==> cfg.effects[e].category in b1.spoiled
    requires var c := cfg.effects[e].category;
             c !in b2.spoiled && c !in b2.crowded && c !in ctx.open ==> w < |cfg.effects| && !b2.enabled[w]
    ensures var c := cfg.effects[e].category;
            && Arbitrated(cfg, b2, Settling(ctx, c))
            && (c !in b2.spoiled ==> WinnerOk(cfg, b2, e, c, ctx.open) && LedgerIn(cfg, b2, b2.winner[c], c))
  {
    var c := cfg.effects[e].category;
    var taking := Taking(cfg, ctx, e);
    if c !in b2.spoiled {
      assert CategoryOk(cfg, b2, c, taking.open);
      assert b2.enabled[e];
    }
    var inner := Settling(ctx, c);
    forall d | 0 <= d < |cfg.categories| && d !in b2.spoiled && d !in inner.settling ensures CategoryOk(cfg, b2, d, ctx.open) {
      assert CategoryOk(cfg, b2, d, taking.open);
    }
    forall d | 0 <= d < |cfg.categories| && d !in b2.spoiled && d !in b2.crowded && d !in ctx.open && Single(cfg, d)
      ensures AtMostOneEnabled(cfg, b2, d)
    {
      if d == c {
        assert InCategory(cfg, e, c) && Closed(cfg, ctx.busy, c);
      } else {
        assert AtMostOneEnabled(cfg, b2, d);
      }
    }
  }

  // ---------------------------------------------------------------- changing a bid

  /** The bid of an effect that is not enabled decides nothing. */
  lemma UnseenBid(cfg: Config, b: Bids, e: nat, p: real, ctx: Context)
    requires Arbitrated(cfg, b, ctx) && e < |cfg.effects| && !b.enabled[e]
    ensures var b' := b.(priority := b.priority[e := p]); Arbitrated(cfg, b', ctx) && KeptBids(cfg, b, b', ctx)
  {
    var b' := b.(priority := b.priority[e := p]);
    forall d | 0 <= d < |cfg.categories| && d !in b'.spoiled && d !in ctx.settling ensures CategoryOk(cfg, b', d, ctx.open) {
      assert CategoryOk(cfg, b, d, ctx.open);
    }
    forall d | 0 <= d < |cfg.categories| && d !in b'.spoiled && d !in b'.crowded && d !in ctx.open && Single(cfg, d)
      ensures AtMostOneEnabled(cfg, b', d)
    {
      assert AtMostOneEnabled(cfg, b, d);
    }
  }

  /** A new bid that may upset an operation under way marks its category. */
  ghost function Rebidding(cfg: Config, b: Bids, e: nat, p: real, ctx: Context): Bids
    requires BidsShape(cfg, b) && OpenOk(cfg, ctx) && e < |cfg.effects|
  {
    b.(spoiled := Marked(cfg, b.spoiled, e, Upsets(cfg, b, ctx, e, p)))
  }

  lemma RebidKeeps(cfg: Config, b: Bids, e: nat, p: real, ctx: Context)
    requires Arbitrated(cfg, b, ctx) && e < |cfg.effects|
    ensures var b1 := Rebidding(cfg, b, e, p, ctx); Arbitrated(cfg, b1, ctx) && KeptBids(cfg, b, b1, ctx)
  {
    var b1 := Rebidding(cfg, b, e, p, ctx);
    forall d | 0 <= d < |cfg.categories| && d !in b1.spoiled && d !in ctx.settling ensures CategoryOk(cfg, b1, d, ctx.open) {
      ElsewhereOk(cfg, b, b1, d, ctx.open);
    }
    forall d | 0 <= d < |cfg.categories| && d !in b1.spoiled && d !in b1.crowded && d !in ctx.open && Single(cfg, d)
      ensures AtMostOneEnabled(cfg, b1, d)
    {
      assert AtMostOneEnabled(cfg, b, d);
    }
  }

  /** With a new bid p for the enabled effect e, the first highest bidder decides whether the category
      stays with its active effect or moves. */
  lemma NewBidDecides(cfg: Config, b: Bids, next: int, e: nat, p: real, ctx: Context)
    requires Arbitrated(cfg, b, ctx) && e < |cfg.effects| && b.enabled[e] && cfg.effects[e].category < |cfg.categories|
    requires cfg.effects[e].category !in Rebidding(cfg, b, e, p, ctx).spoiled
    requires InCategory(cfg, next, cfg.effects[e].category) && b.enabled[next]
    requires Highest(cfg, b.(priority := b.priority[e := p]), cfg.effects[e].category, next)
    ensures var c := cfg.effects[e].category;
            && WinnerOk(cfg, b.(priority := b.priority[e := p]), if b.winner[c] != e && next != e then b.winner[c] else next, c, ctx.open)
            && LedgerIn(cfg, b, b.winner[c], c) && InCategory(cfg, b.winner[c], c) && b.enabled[b.winner[c]]
  {
    var c := cfg.effects[e].category;
    assert CategoryOk(cfg, b, c, ctx.open);
    if c !in ctx.open && b.winner[c] != e && next != e {
      assert b.priority[next] <= b.priority[b.winner[c]];
    }
  }

  /** The new bid of an effect that is not the active one leaves the ledger as it is. */
  lemma BidOffLedger(cfg: Config, b: Bids, w: int, e: nat, p: real, c: nat)
    requires BidsShape(cfg, b) && e < |cfg.effects| && cfg.effects[e].category == c && w != e
    ensures var b' := b.(priority := b.priority[e := p]);
            ChangesIn(cfg, b, b', c) && (LedgerIn(cfg, b, w, c) ==> LedgerIn(cfg, b', w, c))
  {
  }
}

/** What an operation of the tracker and the callbacks it runs may have done, read off from the commands on
    their tapes. */
module AuraReach {
  import opened AuraState
  import opened AuraLemmas
  import opened Arbitration
  import opened Callbacks

  // ---------------------------------------------------------------- what operations under way work on

  /** The categories that operations under way work on: those settling, those being taken over, and those in
      which an aura under way bids. */
  ghost function WorkedOn(cfg: Config, ctx: Context): set<nat> {
    ctx.settling + ctx.open.Keys + set e | 0 <= e < |cfg.effects| && cfg.effects[e].aura in ctx.busy :: cfg.effects[e].category
  }

  /** A category that settles, one that is taken over, and those of an aura under way, are worked on. */
  lemma WorkedOnMore(cfg: Config, ctx: Context)
    ensures forall c :: WorkedOn(cfg, Settling(ctx, c)) == WorkedOn(cfg, ctx) + {c}
    ensures forall a :: WorkedOn(cfg, Entering(ctx, a)) == WorkedOn(cfg, ctx) + BidsIn(cfg, a)
    ensures forall e :: 0 <= e < |cfg.effects| ==> WorkedOn(cfg, Taking(cfg, ctx, e)) == WorkedOn(cfg, ctx) + {cfg.effects[e].category}
  {
  }

  lemma SettlingIsWorkedOn(cfg: Config, ctx: Context, a: nat)
    ensures ctx.settling <= WorkedOn(cfg, ctx.(busy := ctx.busy - {a}))
  {
  }

  lemma HolderClaimed(cfg: Config, e: nat, w: nat)
    requires Registered(cfg) && e < |cfg.effects| && w < |cfg.effects| && cfg.effects[w].category == cfg.effects[e].category
    requires cfg.categories[cfg.effects[e].category].singleAura
    ensures cfg.auras[cfg.effects[w].aura].effects != []
    ensures BidsIn(cfg, cfg.effects[w].aura) <= Claims(cfg, cfg.effects[e].aura)
    ensures cfg.effects[e].category in Claims(cfg, cfg.effects[e].aura)
    ensures cfg.effects[w].aura in Displaced(cfg, {cfg.effects[e].aura})
  {
    assert Rivals(cfg, cfg.effects[e].aura, cfg.effects[w].aura);
    assert cfg.effects[e].category in BidsIn(cfg, cfg.effects[e].aura);
  }

  // ---------------------------------------------------------------- what an operation and its callbacks may have done

  /** What an operation may do of its own, its callbacks aside: the auras it activates and those it ends, the
      categories it works on, and those it marks as spoiled or crowded. */
  datatype Reach = Reach(gained: set<nat>, ended: set<nat>, zone: set<nat>, marked: set<nat>)

  ghost predicate Within(r: Reach, q: Reach) {
    r.gained <= q.gained && r.ended <= q.ended && r.zone <= q.zone && r.marked <= q.marked
  }

  lemma WithinItself(r: Reach)
    ensures Within(r, r)
  {
  }

  /** Callbacks, while the category c, if there is one, settles. */
  ghost function Works(cfg: Config, ctx: Context, c: set<nat>): Reach {
    Reach({}, {}, WorkedOn(cfg, ctx) + c, {})
  }

  /** The withdrawal of an aura's bids. */
  ghost function Withdraws(cfg: Config, ctx: Context, a: nat): Reach {
    Reach({}, {}, WorkedOn(cfg, ctx) + BidsIn(cfg, a), BidsIn(cfg, a) * ctx.settling)
  }

  /** The end of an aura, up to its OnExpire. */
  ghost function Fades(cfg: Config, ctx: Context, a: nat): Reach {
    Withdraws(cfg, ctx, a).(ended := {a})
  }

  /** The bids of an aura under way, which may end auras that it bids against. */
  ghost function ClaimsOf(cfg: Config, ctx: Context, a: nat): Reach {
    Reach({}, Displaced(cfg, {a}), WorkedOn(cfg, ctx) + Claims(cfg, a), Claims(cfg, a) * WorkedOn(cfg, ctx.(busy := ctx.busy - {a})))
  }

  /** A new bid for the category c. */
  ghost function Rebids(cfg: Config, ctx: Context, c: nat): Reach {
    Reach({}, {}, WorkedOn(cfg, ctx) + {c}, {c} * WorkedOn(cfg, ctx))
  }

  lemma SettlingWithin(cfg: Config, ctx: Context, c: nat)
    ensures Within(Works(cfg, Settling(ctx, c), {}), Works(cfg, ctx, {c})) && Within(Works(cfg, ctx, {}), Works(cfg, ctx, {c}))
    ensures Within(Works(cfg, ctx, {c}), Rebids(cfg, ctx, c))
  {
    WorkedOnMore(cfg, ctx);
    hide WorkedOn;
  }

  lemma OwnBidWithin(cfg: Config, ctx: Context, e: nat)
    requires e < |cfg.effects|
    ensures Within(Works(cfg, ctx, {cfg.effects[e].category}), Withdraws(cfg, ctx, cfg.effects[e].aura))
    ensures Within(Works(cfg, ctx, {cfg.effects[e].category}), ClaimsOf(cfg, ctx, cfg.effects[e].aura))
  {
    hide WorkedOn;
    assert cfg.effects[e].category in BidsIn(cfg, cfg.effects[e].aura);
  }

  /** The holder of a single-aura category that e takes over ends within what its challenger may do. */
  lemma HolderWithin(cfg: Config, ctx: Context, e: nat, w: nat)
    requires Registered(cfg) && e < |cfg.effects| && w < |cfg.effects| && cfg.effects[w].category == cfg.effects[e].category
    requires cfg.categories[cfg.effects[e].category].singleAura
    ensures Within(Fades(cfg, Taking(cfg, ctx, e), cfg.effects[w].aura), ClaimsOf(cfg, ctx, cfg.effects[e].aura))
    ensures Within(Works(cfg, Taking(cfg, ctx, e), {}), ClaimsOf(cfg, ctx, cfg.effects[e].aura))
  {
    hide WorkedOn, BidsIn, Claims, Displaced;
    WorkedOnMore(cfg, ctx);
    HolderClaimed(cfg, e, w);
    SettlingIsWorkedOn(cfg, ctx, cfg.effects[e].aura);
    assert Taking(cfg, ctx, e).settling == ctx.settling;
  }

  lemma WithdrawsFromOutside(cfg: Config, ctx: Context, a: nat)
    ensures Withdraws(cfg, Entering(ctx, a), a) == Withdraws(cfg, ctx, a)
  {
    WorkedOnMore(cfg, ctx);
  }

  lemma ClaimsFromOutside(cfg: Config, ctx: Context, a: nat)
    requires a !in ctx.busy
    ensures ClaimsOf(cfg, Entering(ctx, a), a) == ClaimsOf(cfg, ctx, a)
    ensures ClaimsOf(cfg, ctx, a) == Reach({}, Displaced(cfg, {a}), WorkedOn(cfg, ctx) + Claims(cfg, a), Claims(cfg, a) * WorkedOn(cfg, ctx))
    ensures Within(Withdraws(cfg, ctx, a), ClaimsOf(cfg, ctx, a))
  {
    assert WorkedOn(cfg, Entering(ctx, a)) == WorkedOn(cfg, ctx) + BidsIn(cfg, a) by { WorkedOnMore(cfg, ctx); }
    assert BidsIn(cfg, a) <= Claims(cfg, a);
    assert ctx.settling <= WorkedOn(cfg, ctx);
    var without := Entering(ctx, a).busy - {a};
    assert without == ctx.busy == ctx.busy - {a};
    assert Entering(ctx, a).(busy := without) == ctx;
    hide WorkedOn, Claims, BidsIn;
  }

  /** The auras that are active and were not. */
  ghost function Gained(s: State, t: State): set<nat> {
    set a: nat | a < |t.active| && t.active[a] && !(a < |s.active| && s.active[a])
  }

  /** The auras that were active and are not. */
  ghost function Lost(s: State, t: State): set<nat> {
    set a: nat | a < |s.active| && s.active[a] && !(a < |t.active| && t.active[a])
  }

  /** The categories marked as spoiled or crowded that were not. */
  ghost function Marks(b: Bids, b': Bids): set<nat> {
    (b'.spoiled - b.spoiled) + (b'.crowded - b.crowded)
  }

  /** The auras that an operation or the commands on its tape may activate and end, and the categories that
      they may mark. */
  ghost function MayGain(reach: Reach, tape: seq<Command>): set<nat> {
    reach.gained + MayActivate(tape)
  }

  ghost function MayLose(cfg: Config, reach: Reach, tape: seq<Command>): set<nat> {
    reach.ended + MayCost(cfg, tape)
  }

  ghost function MayMark(cfg: Config, reach: Reach, tape: seq<Command>): set<nat> {
    reach.marked + MayClash(cfg, tape) + MayTouch(cfg, tape) * reach.zone
  }

  /** Whoever is active and was not, whoever was active and is not, and whatever category is marked and was not, is
      accounted for by the operation or by a command on the tape. */
  ghost predicate Foreseen(cfg: Config, s: State, t: State, reach: Reach, tape: seq<Command>) {
    && |s.active| == |t.active| == |cfg.auras|
    && Gained(s, t) <= MayGain(reach, tape)
    && Lost(s, t) <= MayLose(cfg, reach, tape)
    && Marks(s.bids, t.bids) <= MayMark(cfg, reach, tape)
  }

  /** Whatever r and its tape account for, reach and its tape do. */
  ghost predicate Covers(cfg: Config, reach: Reach, tape: seq<Command>, r: Reach, part: seq<Command>) {
    && MayGain(r, part) <= MayGain(reach, tape)
    && MayLose(cfg, r, part) <= MayLose(cfg, reach, tape)
    && MayMark(cfg, r, part) <= MayMark(cfg, reach, tape)
  }

  lemma DifferencesAdd(s: State, t: State, u: State)
    ensures Gained(s, u) <= Gained(s, t) + Gained(t, u)
    ensures Lost(s, u) <= Lost(s, t) + Lost(t, u)
    ensures Marks(s.bids, u.bids) <= Marks(s.bids, t.bids) + Marks(t.bids, u.bids)
  {
  }

  lemma ForeseenThen(cfg: Config, s: State, t: State, u: State, r: Reach, part: seq<Command>, q: Reach, more: seq<Command>,
                     reach: Reach, tape: seq<Command>)
    requires Foreseen(cfg, s, t, r, part) && Foreseen(cfg, t, u, q, more)
    requires Covers(cfg, reach, tape, r, part) && Covers(cfg, reach, tape, q, more)
    ensures Foreseen(cfg, s, u, reach, tape)
  {
    hide MayGain, MayLose, MayMark, Gained, Lost, Marks;
    DifferencesAdd(s, t, u);
  }

  /** A larger reach and a longer tape account for more. */
  lemma CoversMore(cfg: Config, r: Reach, reach: Reach, tape: seq<Command>, rest: seq<Command>)
    requires Within(r, reach) && Suffix(rest, tape)
    ensures Covers(cfg, reach, tape, r, rest)
  {
    hide MayActivate, MayEnd, MayCost, MayClash, MayTouch, Suffix;
    SuffixBringsLess(cfg, tape, rest);
    CostsLess(cfg, rest, tape);
  }

  lemma ForeseenOn(cfg: Config, s: State, t: State, u: State, r: Reach, q: Reach, reach: Reach, tape: seq<Command>, rest: seq<Command>)
    requires Foreseen(cfg, s, t, r, tape) && Foreseen(cfg, t, u, q, rest) && Suffix(rest, tape)
    requires Within(r, reach) && Within(q, reach)
    ensures Foreseen(cfg, s, u, reach, tape)
  {
    assert Suffix(tape, tape);
    hide Foreseen, Covers, Within, Suffix;
    CoversMore(cfg, r, reach, tape, tape);
    CoversMore(cfg, q, reach, tape, rest);
    ForeseenThen(cfg, s, t, u, r, tape, q, rest, reach, tape);
  }

  lemma ForeseenWithin(cfg: Config, s: State, t: State, r: Reach, reach: Reach, tape: seq<Command>)
    requires Foreseen(cfg, s, t, r, tape) && Within(r, reach)
    ensures Foreseen(cfg, s, t, reach, tape)
  {
    assert Suffix(tape, tape);
    hide Gained, Lost, Marks, MayGain, MayLose, MayMark, Suffix, Within;
    CoversMore(cfg, r, reach, tape, tape);
  }

  lemma ForeseenFromNothing(cfg: Config, s: State, t: State, reach: Reach, tape: seq<Command>)
    requires Foreseen(cfg, s, t, reach, [])
    ensures Foreseen(cfg, s, t, reach, tape)
  {
    NothingFromNothing();
    CostsLess(cfg, [], tape);
    hide MayCost, Gained, Lost, Marks, MayActivate, MayEnd, MayTouch, MayClash;
  }

  lemma ForeseenFirst(cfg: Config, s: State, t: State, reach: Reach, tape: seq<Command>)
    requires tape != [] && Foreseen(cfg, s, t, reach, [tape[0]])
    ensures Foreseen(cfg, s, t, reach, tape)
  {
    FirstBringsLess(cfg, tape);
    CostsLess(cfg, [tape[0]], tape);
    hide Gained, Lost, Marks, MayActivate, MayEnd, MayCost, MayTouch, MayClash;
  }

  lemma StaysInactive(cfg: Config, s: State, t: State, reach: Reach, tape: seq<Command>, a: nat)
    requires Foreseen(cfg, s, t, reach, tape) && a < |cfg.auras| && !s.active[a] && a !in reach.gained && a !in MayActivate(tape)
    ensures |t.active| == |cfg.auras| && !t.active[a]
  {
    hide Lost, Marks, MayActivate, MayLose, MayMark;
    assert t.active[a] ==> a in Gained(s, t);
  }

  lemma StaysActive(cfg: Config, s: State, t: State, reach: Reach, tape: seq<Command>, a: nat)
    requires Foreseen(cfg, s, t, reach, tape) && a < |cfg.auras|
    requires s.active[a] && a !in reach.ended && a !in MayCost(cfg, tape)
    ensures |t.active| == |cfg.auras| && t.active[a]
  {
    hide Gained, Marks, MayCost, MayGain, MayMark;
    assert !t.active[a] ==> a in Lost(s, t);
  }

  /** Nobody's active flag differs, and no mark. */
  ghost predicate Unmoved(s: State, t: State) {
    t.active == s.active && t.bids.spoiled == s.bids.spoiled && t.bids.crowded == s.bids.crowded
  }

  lemma UnmovedForeseen(cfg: Config, s: State, t: State, reach: Reach, tape: seq<Command>)
    requires Unmoved(s, t) && |s.active| == |cfg.auras|
    ensures Foreseen(cfg, s, t, reach, tape)
  {
  }

  lemma ForeseenStill(cfg: Config, s: State, t: State, reach: Reach, tape: seq<Command>)
    requires Shape(cfg, s) && Unmoved(s, t)
    ensures Foreseen(cfg, s, t, reach, tape) && Suffix(tape, tape)
  {
    UnmovedForeseen(cfg, s, t, reach, tape);
  }

  /** Steps that move nobody show in nothing foreseen. */
  lemma ForeseenAround(cfg: Config, s: State, s1: State, t: State, t1: State, reach: Reach, tape: seq<Command>)
    requires Foreseen(cfg, s1, t, reach, tape) && Unmoved(s, s1) && Unmoved(t, t1)
    ensures Foreseen(cfg, s, t1, reach, tape)
  {
  }

  // ---------------------------------------------------------------- operations that read a tape

  /** An operation whose callbacks read the tape and left the rest of it. */
  ghost predicate Went(cfg: Config, s: State, t: State, ctx: Context, reach: Reach, tape: seq<Command>, rest: seq<Command>) {
    Kept(cfg, s, t, ctx) && Suffix(rest, tape) && Foreseen(cfg, s, t, reach, tape)
  }

  /** And every fade it caused has run its OnExpire. */
  ghost predicate Ran(cfg: Config, s: State, t: State, ctx: Context, reach: Reach, tape: seq<Command>, rest: seq<Command>) {
    Went(cfg, s, t, ctx, reach, tape, rest) && Settled(s, t)
  }

  lemma WentOn(cfg: Config, s: State, t: State, u: State, ctx: Context, r: Reach, q: Reach, reach: Reach,
               tape: seq<Command>, rest: seq<Command>, last: seq<Command>)
    requires Went(cfg, s, t, ctx, r, tape, rest) && Went(cfg, t, u, ctx, q, rest, last)
    requires Within(r, reach) && Within(q, reach)
    ensures Went(cfg, s, u, ctx, reach, tape, last)
  {
    hide Kept, Foreseen, Suffix, Within;
    KeptTransitive(cfg, s, t, u, ctx);
    ForeseenOn(cfg, s, t, u, r, q, reach, tape, rest);
    SuffixOn(tape, rest, last);
  }

  lemma RanOn(cfg: Config, s: State, t: State, u: State, ctx: Context, r: Reach, q: Reach, reach: Reach,
              tape: seq<Command>, rest: seq<Command>, last: seq<Command>)
    requires Ran(cfg, s, t, ctx, r, tape, rest) && Ran(cfg, t, u, ctx, q, rest, last)
    requires Within(r, reach) && Within(q, reach)
    ensures Ran(cfg, s, u, ctx, reach, tape, last)
  {
    hide Went, Within;
    WentOn(cfg, s, t, u, ctx, r, q, reach, tape, rest, last);
  }

  lemma RanStill(cfg: Config, s: State, ctx: Context, reach: Reach, tape: seq<Command>)
    requires Shape(cfg, s)
    ensures Ran(cfg, s, s, ctx, reach, tape, tape)
  {
    hide Foreseen;
    KeptItself(cfg, s, ctx);
    UnmovedForeseen(cfg, s, s, reach, tape);
  }

  lemma RanUnder(cfg: Config, s: State, t: State, big: Context, small: Context, r: Reach, reach: Reach,
                 tape: seq<Command>, rest: seq<Command>)
    requires Ran(cfg, s, t, big, r, tape, rest) && small.busy <= big.busy && small.settling <= big.settling && Within(r, reach)
    ensures Ran(cfg, s, t, small, reach, tape, rest)
  {
    hide Kept, Foreseen, Suffix, Within;
    KeptWeaken(cfg, s, t, big, small);
    ForeseenWithin(cfg, s, t, r, reach, tape);
  }

  lemma RanKept(cfg: Config, s: State, t: State, ctx: Context, reach: Reach, tape: seq<Command>, rest: seq<Command>)
    requires Ran(cfg, s, t, ctx, reach, tape, rest)
    ensures Kept(cfg, s, t, ctx) && Settled(s, t) && Suffix(rest, tape) && Foreseen(cfg, s, t, reach, tape)
    ensures Weight(rest) <= Weight(tape) && (PlainTape(cfg, tape) ==> PlainTape(cfg, rest))
  {
    hide Kept, Foreseen, Weight, MayActivate, MayEnd, MayTouch, MayClash;
    SuffixBringsLess(cfg, tape, rest);
  }

  lemma RanShape(cfg: Config, s: State, t: State, ctx: Context, reach: Reach, tape: seq<Command>, rest: seq<Command>)
    requires Ran(cfg, s, t, ctx, reach, tape, rest)
    ensures Shape(cfg, s) && Shape(cfg, t) && BidsShape(cfg, s.bids) && BidsShape(cfg, t.bids)
    ensures s.bids.spoiled <= t.bids.spoiled && s.bids.crowded <= t.bids.crowded
    ensures forall e :: 0 <= e < |cfg.effects| && cfg.effects[e].aura in ctx.busy ==> t.bids.enabled[e] == s.bids.enabled[e]
    ensures Weight(rest) <= Weight(tape) && (PlainTape(cfg, tape) ==> PlainTape(cfg, rest))
    ensures t.now == s.now
  {
    hide Foreseen, Weight, MayActivate, MayEnd, MayTouch, MayClash;
    SuffixBringsLess(cfg, tape, rest);
  }

  lemma ChangeThenRan(cfg: Config, s: State, t: State, u: State, ctx: Context, r: Reach, reach: Reach,
                      tape: seq<Command>, rest: seq<Command>)
    requires Kept(cfg, s, t, ctx) && Settled(s, t) && Ran(cfg, t, u, ctx, r, tape, rest) && Within(r, reach)
    requires Unmoved(s, t) || Foreseen(cfg, s, t, reach, [])
    ensures Ran(cfg, s, u, ctx, reach, tape, rest)
  {
    KeptShape(cfg, s, t, ctx);
    hide Kept, Foreseen;
    if Unmoved(s, t) {
      UnmovedForeseen(cfg, s, t, reach, tape);
    } else {
      ForeseenFromNothing(cfg, s, t, reach, tape);
    }
    KeptTransitive(cfg, s, t, u, ctx);
    ForeseenOn(cfg, s, t, u, reach, r, reach, tape, tape);
  }

  lemma RanThenChange(cfg: Config, s: State, t: State, u: State, ctx: Context, reach: Reach, tape: seq<Command>, rest: seq<Command>)
    requires Ran(cfg, s, t, ctx, reach, tape, rest) && Kept(cfg, t, u, ctx) && Settled(t, u) && Unmoved(t, u)
    ensures Ran(cfg, s, u, ctx, reach, tape, rest)
  {
    KeptShape(cfg, t, u, ctx);
    hide Kept, Foreseen;
    KeptTransitive(cfg, s, t, u, ctx);
    UnmovedForeseen(cfg, t, u, reach, tape);
    ForeseenOn(cfg, s, t, u, reach, reach, reach, tape, tape);
  }

  /** The gain that OnExpire owes is recorded. */
  lemma WentThenChange(cfg: Config, s: State, t: State, u: State, ctx: Context, reach: Reach, tape: seq<Command>, rest: seq<Command>)
    requires Went(cfg, s, t, ctx, reach, tape, rest) && Kept(cfg, t, u, ctx) && Unmoved(t, u)
    ensures Went(cfg, s, u, ctx, reach, tape, rest)
  {
    KeptShape(cfg, t, u, ctx);
    hide Kept, Foreseen;
    KeptTransitive(cfg, s, t, u, ctx);
    UnmovedForeseen(cfg, t, u, reach, tape);
    ForeseenOn(cfg, s, t, u, reach, reach, reach, tape, tape);
  }

  lemma TurnForeseen(cfg: Config, s0: State, s1: State, s2: State, ctx: Context, tape: seq<Command>, mid: seq<Command>, rest: seq<Command>)
    requires Foreseen(cfg, s0, s1, Works(cfg, ctx, {}), tape) && Suffix(mid, tape)
    requires Foreseen(cfg, s1, s2, Works(cfg, ctx, {}), mid) && Suffix(rest, mid)
    ensures Foreseen(cfg, s0, s2, Works(cfg, ctx, {}), tape) && Suffix(rest, tape)
  {
    hide Foreseen, Works, Suffix;
    WithinItself(Works(cfg, ctx, {}));
    ForeseenOn(cfg, s0, s1, s2, Works(cfg, ctx, {}), Works(cfg, ctx, {}), Works(cfg, ctx, {}), tape, mid);
    SuffixOn(tape, mid, rest);
  }

  lemma SettledFree(s: State, base: State, t: State)
    requires base == s.(bids := base.bids) && Settled(base, t)
    ensures Settled(s, t)
  {
  }

  // ---------------------------------------------------------------- effects turned on or off

  /** The state with other effects enabled. */
  function Without(s: State, enabled: seq<bool>): State {
    s.(bids := s.bids.(enabled := enabled))
  }

  lemma TurnedForeseen(cfg: Config, s: State, t: State, u: State, enabled: seq<bool>, reach: Reach, tape: seq<Command>)
    requires Foreseen(cfg, s, t, reach, tape) && u.active == t.active && Marks(t.bids, u.bids) <= reach.marked
    ensures Foreseen(cfg, Without(s, enabled), u, reach, tape)
  {
    hide MayActivate, MayEnd, MayTouch, MayClash;
    DifferencesAdd(s, t, u);
    hide Marks;
    assert Marks(Without(s, enabled).bids, u.bids) == Marks(s.bids, u.bids) by { MarksFree(s, enabled, u.bids); }
  }

  lemma MarksFree(s: State, enabled: seq<bool>, b: Bids)
    ensures Marks(Without(s, enabled).bids, b) == Marks(s.bids, b)
  {
  }

  lemma RanTurned(cfg: Config, s: State, t: State, u: State, ctx: Context, e: nat, on: bool, reach: Reach,
                  tape: seq<Command>, rest: seq<Command>)
    requires Ran(cfg, s, t, ctx, reach, tape, rest) && e < |cfg.effects| && cfg.effects[e].aura in ctx.busy && BidsShape(cfg, u.bids)
    requires BidsShape(cfg, t.bids) && BidsShape(cfg, s.bids)
    requires u == t.(bids := t.bids.(enabled := t.bids.enabled[e := on], spoiled := u.bids.spoiled, crowded := u.bids.crowded))
    requires t.bids.spoiled <= u.bids.spoiled && t.bids.crowded <= u.bids.crowded
    requires Marks(t.bids, u.bids) <= reach.marked
    requires on && cfg.effects[e].category in ctx.settling ==> cfg.effects[e].category in u.bids.spoiled
    ensures Ran(cfg, Without(s, s.bids.enabled[e := on]), u, ctx, reach, tape, rest)
  {
    hide KeptBids, LogGrows, MinExpiresLow, Foreseen, Suffix;
    KeptTurned(cfg, s.bids, t.bids, u.bids, e, on, ctx);
    TurnedForeseen(cfg, s, t, u, s.bids.enabled[e := on], reach, tape);
  }

  /** Which effects are enabled does not show in who is active or which categories are marked. */
  lemma ForeseenFree(cfg: Config, s: State, base: State, t: State, reach: Reach, tape: seq<Command>)
    requires Foreseen(cfg, base, t, reach, tape) && base == Without(s, base.bids.enabled)
    ensures Foreseen(cfg, s, t, reach, tape)
  {
  }

  /** A bid marks no category but its own, and that one only if an operation under way works on it. */
  lemma BidMarks(cfg: Config, b: Bids, inner: Context, a: nat, e: nat)
    requires Registered(cfg) && BidsShape(cfg, b) && OpenOk(cfg, inner) && e < |cfg.effects| && cfg.effects[e].aura == a
    ensures var b1 := Bidding(cfg, b, e, inner);
            Marks(b, b1) <= ClaimsOf(cfg, inner, a).marked
  {
    var c := cfg.effects[e].category;
    assert c in Claims(cfg, a) by {
      assert c in BidsIn(cfg, a);
    }
    if Crowds(cfg, inner.busy, e) {
      var f :| InCategory(cfg, f, c) && f != e && cfg.effects[f].aura in inner.busy;
      assert cfg.effects[f].aura in inner.busy - {a};
      assert c in WorkedOn(cfg, inner.(busy := inner.busy - {a}));
    }
  }

  // ---------------------------------------------------------------- commands

  /** A callback's first command leaves the tape. */
  lemma TapeAdvances(cfg: Config, s: State, t: State, ctx: Context, tape: seq<Command>, before: seq<Command>)
    requires Ran(cfg, s, t, ctx, Works(cfg, ctx, {}), tape, before) && before != []
    ensures Ran(cfg, s, t, ctx, Works(cfg, ctx, {}), tape, before[1..])
    ensures Weight(before[0].during) + Weight(before[0].after) + 2 <= Weight(tape) && Weight(before[1..]) < Weight(tape)
    ensures PlainTape(cfg, tape) ==> PlainTape(cfg, [before[0]])
  {
    hide Kept, Foreseen, Weight, MayActivate, MayEnd, MayTouch, MayClash;
    SuffixBringsLess(cfg, tape, before);
    FirstBringsLess(cfg, before);
    assert Suffix(before[1..], before);
    SuffixBringsLess(cfg, before, before[1..]);
    SuffixOn(tape, before, before[1..]);
  }

  /** A command has been carried out, and the callback goes on with the next. */
  lemma CommandDone(cfg: Config, s: State, t: State, u: State, ctx: Context, tape: seq<Command>, before: seq<Command>)
    requires Ran(cfg, s, t, ctx, Works(cfg, ctx, {}), tape, before) && before != []
    requires Ran(cfg, t, u, ctx, Works(cfg, ctx, {}), [before[0]], [])
    ensures Ran(cfg, s, u, ctx, Works(cfg, ctx, {}), tape, before[1..])
  {
    hide Kept, Foreseen, Works;
    KeptTransitive(cfg, s, t, u, ctx);
    TapeAdvances(cfg, s, t, ctx, tape, before);
    ForeseenFirst(cfg, t, u, Works(cfg, ctx, {}), before);
    ForeseenOn(cfg, s, t, u, Works(cfg, ctx, {}), Works(cfg, ctx, {}), Works(cfg, ctx, {}), tape, before);
  }

  /** A command whose operation has read the tape of the callbacks that run while it is at work, and then the
      other: what it may do is what the command says. */
  ghost predicate OwnWork(cfg: Config, ctx: Context, command: Command, r: Reach, q: Reach) {
    && r.gained + q.gained <= MayActivate([command]) && r.ended + q.ended <= MayCost(cfg, [command])
    && r.zone <= WorkedOn(cfg, ctx) + ActsOn(cfg, command.op) && r.marked <= ActsOn(cfg, command.op) * WorkedOn(cfg, ctx)
    && q.zone <= WorkedOn(cfg, ctx) && q.marked <= {}
  }

  lemma CommandCovers(cfg: Config, ctx: Context, command: Command, r: Reach, q: Reach)
    requires OwnWork(cfg, ctx, command, r, q)
    ensures Covers(cfg, Works(cfg, ctx, {}), [command], r, command.during)
    ensures Covers(cfg, Works(cfg, ctx, {}), [command], q, command.after)
  {
    hide MayActivate, MayEnd, MayCost, MayTouch, MayClash, ActsOn, WorkedOn;
    AloneBrings(cfg, command);
    CostsLess(cfg, command.during, [command]);
    CostsLess(cfg, command.after, [command]);
  }

  lemma CommandForeseen(cfg: Config, s: State, t: State, u: State, ctx: Context, command: Command, r: Reach, q: Reach)
    requires Foreseen(cfg, s, t, r, command.during) && Foreseen(cfg, t, u, q, command.after) && OwnWork(cfg, ctx, command, r, q)
    ensures Foreseen(cfg, s, u, Works(cfg, ctx, {}), [command])
  {
    hide Foreseen, Covers, OwnWork, Works;
    CommandCovers(cfg, ctx, command, r, q);
    ForeseenThen(cfg, s, t, u, r, command.during, q, command.after, Works(cfg, ctx, {}), [command]);
  }

  lemma CommandRan(cfg: Config, s: State, t: State, u: State, ctx: Context, command: Command, r: Reach, q: Reach,
                   rest: seq<Command>, last: seq<Command>)
    requires Ran(cfg, s, t, ctx, r, command.during, rest) && Ran(cfg, t, u, ctx, q, command.after, last)
    requires OwnWork(cfg, ctx, command, r, q)
    ensures Ran(cfg, s, u, ctx, Works(cfg, ctx, {}), [command], [])
  {
    hide Kept, Foreseen, OwnWork, Works;
    KeptTransitive(cfg, s, t, u, ctx);
    CommandForeseen(cfg, s, t, u, ctx, command, r, q);
  }

  /** A step that moves nobody's active flag and marks nothing, as a command of its own. */
  lemma CommandUnmoved(cfg: Config, s: State, t: State, ctx: Context, command: Command)
    requires Kept(cfg, s, t, ctx) && Settled(s, t) && Unmoved(s, t)
    ensures Ran(cfg, s, t, ctx, Works(cfg, ctx, {}), [command], [])
  {
    KeptShape(cfg, s, t, ctx);
    hide Kept, Foreseen;
    UnmovedForeseen(cfg, s, t, Works(cfg, ctx, {}), [command]);
  }

  lemma CommandPassedOver(cfg: Config, s: State, ctx: Context, command: Command)
    requires Shape(cfg, s)
    ensures Ran(cfg, s, s, ctx, Works(cfg, ctx, {}), [command], [])
  {
    hide Kept, Foreseen, Settled;
    KeptItself(cfg, s, ctx);
    CommandUnmoved(cfg, s, s, ctx, command);
  }

  /** A command whose operation runs callbacks that read one of its tapes. */
  lemma CommandAfter(cfg: Config, s: State, t: State, ctx: Context, command: Command, rest: seq<Command>)
    requires Shape(cfg, s) && Ran(cfg, s, t, ctx, Works(cfg, ctx, {}), command.after, rest)
    ensures Ran(cfg, s, t, ctx, Works(cfg, ctx, {}), [command], [])
  {
    hide Ran, WorkedOn, MayActivate, MayEnd, ActsOn;
    RanStill(cfg, s, ctx, Works(cfg, ctx, {}), command.during);
    CommandRan(cfg, s, s, t, ctx, command, Works(cfg, ctx, {}), Works(cfg, ctx, {}), command.during, rest);
  }

  lemma CommandRebids(cfg: Config, s: State, t: State, ctx: Context, command: Command, rest: seq<Command>)
    requires command.op.SetPriority? && command.op.effect < |cfg.effects| && Shape(cfg, t)
    requires Ran(cfg, s, t, ctx, Rebids(cfg, ctx, cfg.effects[command.op.effect].category), command.during, rest)
    ensures Ran(cfg, s, t, ctx, Works(cfg, ctx, {}), [command], [])
  {
    hide Ran, WorkedOn, MayActivate, MayEnd;
    RanStill(cfg, t, ctx, Works(cfg, ctx, {}), command.after);
    CommandRan(cfg, s, t, t, ctx, command, Rebids(cfg, ctx, cfg.effects[command.op.effect].category), Works(cfg, ctx, {}),
               rest, command.after);
  }

  lemma PlainCommand(cfg: Config, command: Command)
    requires Registered(cfg) && PlainTape(cfg, [command])
    ensures PlainTape(cfg, command.during) && PlainTape(cfg, command.after)
    ensures command.op.SetPriority? ==> command.op.effect >= |cfg.effects|
    ensures command.op.Activate? || command.op.Deactivate? || command.op.SetStacks? ==>
              command.op.aura < |cfg.auras| ==> cfg.auras[command.op.aura].effects == []
  {
    AloneBrings(cfg, command);
    hide MayActivate, MayEnd, MayClash;
    if (command.op.Activate? || command.op.Deactivate? || command.op.SetStacks?) && command.op.aura < |cfg.auras| {
      ClaimsNone(cfg, command.op.aura);
    }
  }

  // ---------------------------------------------------------------- the commands that begin and end an aura

  lemma GainForeseen(cfg: Config, s: State, t: State, ctx: Context, a: nat)
    requires Shape(cfg, s) && a < |cfg.auras| && t.active == s.active[a := true] && t.bids == s.bids
    ensures Foreseen(cfg, s, t, Works(cfg, ctx, {}).(gained := {a}), [])
  {
  }

  lemma BidIsOwnWork(cfg: Config, ctx: Context, a: nat, command: Command)
    requires command.op == Activate(a) && a !in ctx.busy
    ensures OwnWork(cfg, ctx, command, ClaimsOf(cfg, ctx, a), Works(cfg, ctx, {}))
    ensures OwnWork(cfg, ctx, command, ClaimsOf(cfg, ctx, a), Works(cfg, ctx, {}).(gained := {a}))
  {
    ClaimsFromOutside(cfg, ctx, a);
    AloneBrings(cfg, command);
    hide WorkedOn, MayActivate, MayEnd, MayTouch, MayClash, ClaimsOf, Claims, Displaced;
    DisplacedMore(cfg, {a}, MayActivate([command]));
  }

  /** An aura whose effects have all bid has become active, and its OnGain has run. */
  lemma AfterLanding(cfg: Config, s0: State, s1: State, s2: State, t: State, ctx: Context, a: nat, ev: Event,
                     command: Command, rest: seq<Command>, last: seq<Command>)
    requires Registered(cfg) && command.op == Activate(a) && a < |cfg.auras| && a !in ctx.busy && ev.Gain?
    requires Ran(cfg, s0, s1, ctx, ClaimsOf(cfg, ctx, a), command.during, rest)
    requires Kept(cfg, s1, s2, ctx) && Settled(s1, s2) && s2.log == s1.log + [ev] && s2.active == s1.active[a := true] && s2.bids == s1.bids
    requires Ran(cfg, s2, t, ctx, Works(cfg, ctx, {}), command.after, last)
    ensures Ran(cfg, s0, t, ctx, Works(cfg, ctx, {}), [command], [])
    ensures exists p :: |s0.log| <= p < |t.log| && t.log[p] == ev
    ensures t.now == s0.now
    ensures cfg.auras[a].effects == [] && a !in MayEnd(command.after) ==> t.active[a]
  {
    var reach := Works(cfg, ctx, {}).(gained := {a});
    assert Shape(cfg, s0) && Shape(cfg, t) && t.now == s0.now && exists p :: |s0.log| <= p < |t.log| && t.log[p] == ev by {
      KeptShape(cfg, s0, s1, ctx);
      KeptShape(cfg, s2, t, ctx);
      assert t.log[|s1.log|] == ev;
    }
    assert Foreseen(cfg, s1, s2, reach, []) by { GainForeseen(cfg, s1, s2, ctx, a); }
    hide Kept, Foreseen, Settled, ClaimsOf, OwnWork, Suffix, MayEnd, MayCost, MayActivate;
    if cfg.auras[a].effects == [] && a !in MayEnd(command.after) {
      OnlyEnded(cfg, command.after, a);
      StaysActive(cfg, s2, t, Works(cfg, ctx, {}), command.after, a);
    }
    assert Within(Works(cfg, ctx, {}), reach);
    hide WorkedOn, Works, Within;
    ChangeThenRan(cfg, s1, s2, t, ctx, Works(cfg, ctx, {}), reach, command.after, last);
    BidIsOwnWork(cfg, ctx, a, command);
    CommandRan(cfg, s0, s1, t, ctx, command, ClaimsOf(cfg, ctx, a), reach, rest, last);
  }

  /** An aura that was blocked has taken its bids back. */
  lemma AfterBlocking(cfg: Config, s0: State, t: State, ctx: Context, a: nat, command: Command, rest: seq<Command>)
    requires command.op == Activate(a) && a < |cfg.auras| && a !in ctx.busy && Shape(cfg, t)
    requires Ran(cfg, s0, t, ctx, ClaimsOf(cfg, ctx, a), command.during, rest)
    ensures Ran(cfg, s0, t, ctx, Works(cfg, ctx, {}), [command], [])
  {
    hide Ran, OwnWork, ClaimsOf, Works;
    RanStill(cfg, t, ctx, Works(cfg, ctx, {}), command.after);
    BidIsOwnWork(cfg, ctx, a, command);
    CommandRan(cfg, s0, t, t, ctx, command, ClaimsOf(cfg, ctx, a), Works(cfg, ctx, {}), rest, command.after);
  }

  lemma FadeForeseen(cfg: Config, s: State, t: State, ctx: Context, a: nat)
    requires a < |cfg.auras| == |s.active| && t.active == s.active[a := false] && t.bids == s.bids
    ensures Foreseen(cfg, s, t, Fades(cfg, ctx, a), [])
  {
    hide WorkedOn, BidsIn;
  }

  /** What a fading aura's callbacks do while it is under way, seen from outside. */
  lemma StacksGone(cfg: Config, s1: State, s2: State, ctx: Context, a: nat, tape: seq<Command>, rest: seq<Command>)
    requires Ran(cfg, s1, s2, Entering(ctx, a), Works(cfg, Entering(ctx, a), {}), tape, rest) && a < |cfg.auras|
    ensures Ran(cfg, s1, s2, ctx, Fades(cfg, ctx, a), tape, rest)
    ensures Weight(rest) <= Weight(tape) && (PlainTape(cfg, tape) ==> PlainTape(cfg, rest))
  {
    hide Went, Weight;
    WorkedOnMore(cfg, ctx);
    RanUnder(cfg, s1, s2, Entering(ctx, a), ctx, Works(cfg, Entering(ctx, a), {}), Fades(cfg, ctx, a), tape, rest);
    RanKept(cfg, s1, s2, ctx, Fades(cfg, ctx, a), tape, rest);
  }

  lemma FadeStaysLogged(cfg: Config, s0: State, s1: State, s2: State, s3: State, ctx: Context, a: nat,
                        tape: seq<Command>, mid: seq<Command>, rest: seq<Command>)
    requires a < |cfg.auras| && |s1.log| == |s0.log| + 1 && s1.log[|s0.log|] == Fade(a)
    requires Ran(cfg, s1, s2, Entering(ctx, a), Works(cfg, Entering(ctx, a), {}), tape, mid)
    requires Went(cfg, s2, s3, ctx, Withdraws(cfg, ctx, a), mid, rest)
    ensures |s0.log| < |s3.log| && s3.log[|s0.log|] == Fade(a)
  {
    hide Foreseen, Withdraws, Works, Weight, Suffix;
    KeptShape(cfg, s1, s2, Entering(ctx, a));
    KeptShape(cfg, s2, s3, ctx);
  }

  /** The aura has gone inactive, its stacks have vanished and its effects have withdrawn, in this order, each
      step with the callbacks it causes; its OnExpire is due. */
  lemma AfterFade(cfg: Config, s0: State, s1: State, s2: State, s3: State, ctx: Context, a: nat,
                  tape: seq<Command>, mid: seq<Command>, rest: seq<Command>)
    requires Registered(cfg) && a < |cfg.auras| && |s1.log| == |s0.log| + 1 && s1.log[|s0.log|] == Fade(a)
    requires Kept(cfg, s0, s1, ctx) && Foreseen(cfg, s0, s1, Fades(cfg, ctx, a), [])
    requires forall b: nat :: Owed(s1.log, b) == Owed(s0.log, b) + if b == a then 1 else 0
    requires Ran(cfg, s1, s2, Entering(ctx, a), Works(cfg, Entering(ctx, a), {}), tape, mid)
    requires Went(cfg, s2, s3, ctx, Withdraws(cfg, ctx, a), mid, rest)
    requires forall b: nat :: Owed(s3.log, b) == Owed(s2.log, b) - if b == a then 1 else 0
    ensures Ran(cfg, s0, s3, ctx, Fades(cfg, ctx, a), tape, rest)
    ensures |s0.log| < |s3.log| && s3.log[|s0.log|] == Fade(a)
  {
    FadeStaysLogged(cfg, s0, s1, s2, s3, ctx, a, tape, mid, rest);
    hide Went, Withdraws, Works, Fades, Foreseen, Kept, Within, Weight;
    StacksGone(cfg, s1, s2, ctx, a, tape, mid);
    var reach := Fades(cfg, ctx, a);
    FadeWithin(cfg, ctx, a);
    WentQuietly(cfg, s0, s1, ctx, reach, tape);
    WentOn(cfg, s0, s1, s2, ctx, reach, reach, reach, tape, tape, mid);
    WentOn(cfg, s0, s2, s3, ctx, reach, Withdraws(cfg, ctx, a), reach, tape, mid, rest);
  }

  lemma FadeWithin(cfg: Config, ctx: Context, a: nat)
    ensures Within(Withdraws(cfg, ctx, a), Fades(cfg, ctx, a)) && Within(Fades(cfg, ctx, a), Fades(cfg, ctx, a))
  {
    hide WorkedOn, BidsIn;
  }

  lemma WentQuietly(cfg: Config, s: State, t: State, ctx: Context, reach: Reach, tape: seq<Command>)
    requires Kept(cfg, s, t, ctx) && Foreseen(cfg, s, t, reach, [])
    ensures Went(cfg, s, t, ctx, reach, tape, tape)
  {
    hide Kept, Foreseen;
    ForeseenFromNothing(cfg, s, t, reach, tape);
  }

  lemma FadeIsOwnWork(cfg: Config, ctx: Context, a: nat, command: Command)
    requires command.op == Deactivate(a) && a < |cfg.auras|
    ensures OwnWork(cfg, ctx, command, Fades(cfg, ctx, a), Works(cfg, ctx, {}))
  {
    AloneBrings(cfg, command);
    assert ctx.settling <= WorkedOn(cfg, ctx);
    hide WorkedOn, MayActivate, MayEnd, MayTouch, MayClash, BidsIn;
  }

  /** An aura has faded, and its OnExpire has run. */
  lemma AfterExpire(cfg: Config, s0: State, s1: State, t: State, ctx: Context, a: nat,
                    command: Command, rest: seq<Command>, last: seq<Command>)
    requires command.op == Deactivate(a) && a < |cfg.auras|
    requires Ran(cfg, s0, s1, ctx, Fades(cfg, ctx, a), command.during, rest)
    requires Ran(cfg, s1, t, ctx, Works(cfg, ctx, {}), command.after, last)
    requires a < |s1.active| && !s1.active[a]
    ensures Ran(cfg, s0, t, ctx, Works(cfg, ctx, {}), [command], [])
    ensures a < |t.active| && (a !in MayActivate(command.after) ==> !t.active[a])
  {
    assert |t.active| == |s1.active| == |cfg.auras|;
    hide Kept, Foreseen, Settled, OwnWork, Suffix, MayActivate, WorkedOn, Fades;
    if a !in MayActivate(command.after) {
      StaysInactive(cfg, s1, t, Works(cfg, ctx, {}), command.after, a);
    }
    FadeIsOwnWork(cfg, ctx, a, command);
    CommandRan(cfg, s0, s1, t, ctx, command, Fades(cfg, ctx, a), Works(cfg, ctx, {}), rest, last);
  }

  /** A change of stacks accounts for the aura's ending, and for its OnStacksChange. */
  lemma StacksCover(cfg: Config, ctx: Context, command: Command, ending: Command)
    requires command.op.SetStacks? && ending.op == Deactivate(command.op.aura) && ending.during == command.during
    requires Suffix(ending.after, command.after)
    ensures Covers(cfg, Works(cfg, ctx, {}), [command], Works(cfg, ctx, {}), command.after)
    ensures Covers(cfg, Works(cfg, ctx, {}), [command], Works(cfg, ctx, {}), [ending])
  {
    hide MayActivate, MayEnd, MayCost, MayTouch, MayClash, Suffix, BidsIn, WorkedOn;
    SuffixBringsLess(cfg, command.after, ending.after);
    AloneBrings(cfg, command);
    AloneBrings(cfg, ending);
    CostsLess(cfg, command.after, [command]);
    CostsLess(cfg, [ending], [command]);
  }

  lemma StacksForeseen(cfg: Config, s0: State, s1: State, t: State, ctx: Context, command: Command, ending: Command)
    requires command.op.SetStacks? && ending.op == Deactivate(command.op.aura) && ending.during == command.during
    requires Foreseen(cfg, s0, s1, Works(cfg, ctx, {}), command.after) && Suffix(ending.after, command.after)
    requires Foreseen(cfg, s1, t, Works(cfg, ctx, {}), [ending])
    ensures Foreseen(cfg, s0, t, Works(cfg, ctx, {}), [command])
  {
    hide Foreseen, Covers, Works, Suffix;
    StacksCover(cfg, ctx, command, ending);
    ForeseenThen(cfg, s0, s1, t, Works(cfg, ctx, {}), command.after, Works(cfg, ctx, {}), [ending], Works(cfg, ctx, {}), [command]);
  }

  /** An aura's stacks have changed, and the aura may have ended. */
  lemma AfterStacks(cfg: Config, s0: State, s1: State, t: State, ctx: Context, command: Command, ending: Command)
    requires command.op.SetStacks? && ending.op == Deactivate(command.op.aura) && ending.during == command.during
    requires Ran(cfg, s0, s1, ctx, Works(cfg, ctx, {}), command.after, ending.after)
    requires Ran(cfg, s1, t, ctx, Works(cfg, ctx, {}), [ending], [])
    ensures Ran(cfg, s0, t, ctx, Works(cfg, ctx, {}), [command], [])
  {
    hide Kept, Foreseen, Works;
    KeptTransitive(cfg, s0, s1, t, ctx);
    StacksForeseen(cfg, s0, s1, t, ctx, command, ending);
  }

  // ---------------------------------------------------------------- scripts that tell who is active

  /** Whether what an aura does shows in its own commands alone. */
  predicate Traceable(cfg: Config, ctx: Context, a: nat) {
    a < |cfg.auras| && cfg.auras[a].effects == [] && a !in ctx.busy
  }

  /** What a telling command says of an aura has come about. */
  ghost predicate Obeyed(cfg: Config, ctx: Context, s: State, t: State, command: Command) {
    && |s.active| == |t.active| == |cfg.auras|
    && forall a: nat :: Traceable(cfg, ctx, a) && Telling(command, a) ==>
         t.active[a] == if command.op == Activate(a) then true else if command.op == Deactivate(a) then false else s.active[a]
  }

  /** So has what a telling tape says. */
  ghost predicate Told(cfg: Config, ctx: Context, s: State, t: State, tape: seq<Command>) {
    && |s.active| == |t.active| == |cfg.auras|
    && forall a: nat :: Traceable(cfg, ctx, a) && TellingTape(tape, a) ==> t.active[a] == ActiveAfter(tape, a, s.active[a])
  }

  /** So has what a telling tape says that several callbacks read. */
  ghost predicate ToldThrough(cfg: Config, ctx: Context, s: State, t: State, tape: seq<Command>, n: nat) {
    && |s.active| == |t.active| == |cfg.auras|
    && forall a: nat :: Traceable(cfg, ctx, a) && TellingTape(tape, a) ==> t.active[a] == ActiveThrough(tape, n, a, s.active[a])
  }

  lemma ToldOnce(cfg: Config, ctx: Context, s: State, t: State, u: State, tape: seq<Command>, n: nat, rest: seq<Command>)
    requires ToldThrough(cfg, ctx, s, t, tape, n) && rest == PastCallbacks(tape, n) && Told(cfg, ctx, t, u, rest)
    ensures ToldThrough(cfg, ctx, s, u, tape, n + 1)
  {
    hide TellingTape, ActiveAfter;
    forall a: nat | Traceable(cfg, ctx, a) && TellingTape(tape, a) ensures u.active[a] == ActiveThrough(tape, n + 1, a, s.active[a]) {
      TellingPast(tape, n, a);
    }
  }

  /** An event's walk after i turns, n of them calls: the calls have read their callbacks and no more, and what
      the tape says of them is so; the first turn was a call, and so were all of auras no command may end. */
  ghost predicate Answered(cfg: Config, ctx: Context, s: State, t: State, walk: seq<nat>, i: nat, n: nat, tape: seq<Command>, rest: seq<Command>) {
    && rest == PastCallbacks(tape, n) && ToldThrough(cfg, ctx, s, t, tape, n)
    && n <= i && (0 < i ==> 0 < n)
    && ((forall j :: 0 <= j < |walk| ==> walk[j] !in MayCost(cfg, tape)) ==> n == i)
  }

  lemma AnsweredYet(cfg: Config, ctx: Context, s: State, t: State, walk: seq<nat>, tape: seq<Command>)
    requires t.active == s.active && |s.active| == |cfg.auras|
    ensures Answered(cfg, ctx, s, t, walk, 0, 0, tape, tape)
  {
    hide MayCost, TellingTape;
  }

  /** One more turn. */
  lemma AnsweredNext(cfg: Config, ctx: Context, s: State, t: State, u: State, walk: seq<nat>, i: nat, n: nat, called: bool,
                     tape: seq<Command>, mid: seq<Command>, rest: seq<Command>)
    requires Answered(cfg, ctx, s, t, walk, i, n, tape, mid) && i < |walk| && walk[i] < |cfg.auras|
    requires |s.active| == |cfg.auras| && s.active[walk[i]] && (i == 0 ==> t.active == s.active)
    requires Foreseen(cfg, s, t, Works(cfg, ctx, {}), tape) && called == t.active[walk[i]]
    requires rest == if called then PastCallback(mid) else mid
    requires if called then Told(cfg, ctx, t, u, mid) else u.active == t.active
    ensures Answered(cfg, ctx, s, u, walk, i + 1, n + if called then 1 else 0, tape, rest)
  {
    hide Foreseen, MayCost, TellingTape, WorkedOn, Told;
    if walk[i] !in MayCost(cfg, tape) {
      StaysActive(cfg, s, t, Works(cfg, ctx, {}), tape, walk[i]);
    }
    if called {
      ToldOnce(cfg, ctx, s, t, u, tape, n, mid);
    }
  }

  /** The depth does not show in it, nor does a turn recorded. */
  lemma AnsweredAnyway(cfg: Config, ctx: Context, s: State, t: State, u: State, walk: seq<nat>, i: nat, n: nat, tape: seq<Command>, rest: seq<Command>)
    requires Answered(cfg, ctx, s, t, walk, i, n, tape, rest) && u.active == t.active
    ensures Answered(cfg, ctx, s, u, walk, i, n, tape, rest)
  {
    hide MayCost, TellingTape;
  }

  lemma ToldAnyway(cfg: Config, ctx: Context, s: State, t: State, u: State, tape: seq<Command>)
    requires t.active == s.active
    ensures Told(cfg, ctx, t, u, tape) <==> Told(cfg, ctx, s, u, tape)
  {
  }

  /** A tape read up to the rest of it: what the rest says from here, the whole said from the start. */
  ghost predicate ToldSoFar(cfg: Config, ctx: Context, s: State, t: State, tape: seq<Command>, rest: seq<Command>) {
    && |s.active| == |t.active| == |cfg.auras|
    && forall a: nat :: Traceable(cfg, ctx, a) && TellingTape(tape, a) ==>
         TellingTape(rest, a) && ActiveAfter(rest, a, t.active[a]) == ActiveAfter(tape, a, s.active[a])
  }

  lemma CommandObeyed(cfg: Config, ctx: Context, s: State, t: State, command: Command)
    requires Registered(cfg) && Ran(cfg, s, t, ctx, Works(cfg, ctx, {}), [command], [])
    requires command.op.Activate? ==>
               Traceable(cfg, ctx, command.op.aura) && command.op.aura !in MayEnd(command.after) ==>
                 command.op.aura < |t.active| && t.active[command.op.aura]
    requires command.op.Deactivate? ==>
               command.op.aura < |cfg.auras| && command.op.aura !in MayActivate(command.after) ==>
                 command.op.aura < |t.active| && !t.active[command.op.aura]
    ensures Obeyed(cfg, ctx, s, t, command)
  {
    assert |s.active| == |t.active| == |cfg.auras|;
    hide Kept, Settled, Foreseen, MayActivate, MayEnd, MayCost, WorkedOn, Suffix;
    forall a: nat | Traceable(cfg, ctx, a) && Telling(command, a)
      ensures t.active[a] == if command.op == Activate(a) then true else if command.op == Deactivate(a) then false else s.active[a]
    {
      if command.op != Activate(a) && command.op != Deactivate(a) {
        OnlyEnded(cfg, [command], a);
        if s.active[a] {
          StaysActive(cfg, s, t, Works(cfg, ctx, {}), [command], a);
        } else {
          StaysInactive(cfg, s, t, Works(cfg, ctx, {}), [command], a);
        }
      }
    }
  }

  lemma NothingToldYet(cfg: Config, ctx: Context, s: State, tape: seq<Command>)
    requires Shape(cfg, s)
    ensures ToldSoFar(cfg, ctx, s, s, tape, tape)
  {
  }

  lemma ToldNext(cfg: Config, ctx: Context, s: State, t: State, u: State, tape: seq<Command>, before: seq<Command>)
    requires ToldSoFar(cfg, ctx, s, t, tape, before) && before != [] && !before[0].op.Return?
    requires Obeyed(cfg, ctx, t, u, before[0])
    ensures ToldSoFar(cfg, ctx, s, u, tape, before[1..])
  {
    hide Telling;
  }

  lemma ToldAll(cfg: Config, ctx: Context, s: State, t: State, tape: seq<Command>, rest: seq<Command>)
    requires ToldSoFar(cfg, ctx, s, t, tape, rest) && (rest == [] || rest[0].op.Return?)
    ensures Told(cfg, ctx, s, t, tape)
  {
  }

  // ---------------------------------------------------------------- which categories are marked

  lemma MarksThen(b: Bids, b': Bids, b'': Bids, m: set<nat>, all: set<nat>)
    requires Marks(b, b') <= all && Marks(b', b'') <= m <= all
    ensures Marks(b, b'') <= all
  {
    forall c | c in Marks(b, b'') ensures c in all {
      assert c in Marks(b, b') || c in Marks(b', b'');
    }
  }

  lemma NothingMarked(b: Bids)
    ensures Marks(b, b) == {}
  {
  }

  /** A category in which no commands clash is neither spoiled nor crowded, if no operation under way works on it
      or no command acts on it. */
  ghost predicate SparesOthers(cfg: Config, ctx: Context, tape: seq<Command>, b: Bids, b': Bids) {
    forall c: nat :: c !in MayClash(cfg, tape) && (c !in WorkedOn(cfg, ctx) || c !in MayTouch(cfg, tape)) ==>
      (c in b'.spoiled ==> c in b.spoiled) && (c in b'.crowded ==> c in b.crowded)
  }

  lemma RanSpares(cfg: Config, s: State, t: State, ctx: Context, tape: seq<Command>, rest: seq<Command>)
    requires Ran(cfg, s, t, ctx, Works(cfg, ctx, {}), tape, rest)
    ensures SparesOthers(cfg, ctx, tape, s.bids, t.bids)
  {
    hide Kept, Settled, Suffix, Gained, Lost, MayActivate, MayEnd, MayTouch, MayClash, WorkedOn;
    forall c: nat | c !in MayClash(cfg, tape) && (c !in WorkedOn(cfg, ctx) || c !in MayTouch(cfg, tape))
      ensures (c in t.bids.spoiled ==> c in s.bids.spoiled) && (c in t.bids.crowded ==> c in s.bids.crowded)
    {
      assert c !in MayMark(cfg, Works(cfg, ctx, {}), tape);
      assert c !in Marks(s.bids, t.bids);
    }
  }

  /** With nothing else under way a tape marks at most the categories in which its commands clash. */
  lemma IdleMarks(cfg: Config, s: State, t: State, tape: seq<Command>)
    requires Foreseen(cfg, s, t, Works(cfg, IDLE, {}), tape)
    ensures Marks(s.bids, t.bids) <= MayClash(cfg, tape)
  {
    hide Gained, Lost, Marks, MayActivate, MayEnd, MayTouch, MayClash;
    assert WorkedOn(cfg, IDLE) == {};
  }

  /** Every category that was never marked is decided. */
  lemma UnmarkedDecided(cfg: Config, start: Bids, s: State, all: set<nat>)
    requires Inv(cfg, s, IDLE) && start.spoiled == {} && start.crowded == {} && Marks(start, s.bids) <= all
    ensures BidsShape(cfg, s.bids) && s.bids.spoiled + s.bids.crowded <= all
    ensures forall c :: 0 <= c < |cfg.categories| && c !in all ==>
              CategoryOk(cfg, s.bids, c, map[]) && (Single(cfg, c) ==> AtMostOneEnabled(cfg, s.bids, c))
  {
    hide Tracking, CategoryOk, AtMostOneEnabled;
    assert s.bids.spoiled + s.bids.crowded == Marks(start, s.bids);
  }
}

/** The aura tracker and its exclusive effects as one object that changes in place.

    Callbacks are code the tracker cannot see, of auras and of exclusive effects alike.  Every method that
    runs callbacks takes a tape: the commands those callbacks will give the tracker, in the order they are
    given, whichever callback gives them; the method returns what is left of it.  A callback reads the tape
    up to the next Return, and each command brings the tapes of the callbacks it causes in turn.  What
    callbacks do to the tracker in a terminating run is some tape, so a contract that holds for all tapes
    holds whatever they do, within the commands modelled; and what a tape may activate, end or act on can be
    read off before anything runs. */
module Auras {
  import opened AuraState
  import opened AuraLemmas
  import opened Arbitration
  import opened Callbacks
  import opened AuraSteps
  import opened AuraReach
  import opened AuraIterations
  import opened AuraEndings
  import Ref = AuraReference

  ghost function ActiveSet(active: seq<bool>): set<nat> {
    set a: nat | a < |active| && active[a]
  }

  lemma ActiveSetShrinks(active: seq<bool>, a: nat)
    requires a < |active| && active[a]
    ensures |ActiveSet(active[a := false])| < |ActiveSet(active)|
  {
    assert ActiveSet(active[a := false]) == ActiveSet(active) - {a};
  }

  /** After one more end the list of endings is shorter, or fewer auras are active. */
  lemma FewerAfter(cfg: Config, s: State, t: State, a: nat, before: seq<Command>, rest: seq<Command>)
    requires OneEnd(cfg, s, t, a, before, rest) && a < |s.active| && s.active[a]
    ensures |rest| < |before| || (|rest| == |before| && |ActiveSet(t.active)| < |ActiveSet(s.active)|)
  {
    hide Spared, BringsLess, Ref.CoreOf, AuraEnds;
    if |rest| >= |before| {
      ActiveSetShrinks(s.active, a);
    }
  }

  class AuraTracker {
    const cfg: Config

    var active: seq<bool>
    var expires: seq<int>
    var stacks: seq<int>
    var lists: seq<seq<nat>>
    var index: seq<seq<int>>
    var minExpires: int
    var priority: seq<real>
    var enabled: seq<bool>
    var winner: seq<int>
    var net: seq<int>
    var applied: seq<real>
    var buffers: seq<seq<nat>>
    var depth: nat
    var now: int
    ghost var spoiled: set<nat>
    ghost var crowded: set<nat>
    ghost var log: seq<Event>

    ghost function Arena(): Bids
      reads this
    {
      Bids(priority, enabled, winner, net, applied, spoiled, crowded)
    }

    ghost function Snap(): State
      reads this
    {
      State(active, expires, stacks, lists, index, minExpires, Arena(), buffers, depth, now, log)
    }

    /** What the reference sees of it. */
    ghost function Core(): Ref.Core
      reads this
    {
      Ref.CoreOf(Snap())
    }

    // -------------------------------------------------------------- leaf operations

    method Refresh(a: nat)
      requires Registered(cfg) && Shape(cfg, Snap()) && a < |cfg.auras|
      modifies this
      ensures var until := if Permanent(cfg.auras[a]) then NEVER_EXPIRES else now + cfg.auras[a].duration;
              Snap() == old(Snap()).(
                expires := old(expires)[a := until],
                minExpires := if !Permanent(cfg.auras[a]) && until < old(minExpires) then until else old(minExpires))
      ensures Core() == Ref.Refreshed(cfg, old(Core()), a)
    {
      if cfg.auras[a].duration == NEVER_EXPIRES {
        expires := expires[a := NEVER_EXPIRES];
      } else {
        expires := expires[a := now + cfg.auras[a].duration];
        if expires[a] < minExpires {
          minExpires := expires[a];
        }
      }
    }

    /** Appends an aura that has just become active to every list it belongs in. */
    method Enlist(a: nat)
      requires Registered(cfg) && Shape(cfg, Snap()) && a < |cfg.auras| && active[a]
      requires ListsExact(cfg, active[a := false], lists, index)
      modifies this`lists, this`index
      ensures Shape(cfg, Snap()) && ListsExact(cfg, active, lists, index)
      ensures forall k :: 0 <= k < KINDS ==> lists[k] == if Wants(cfg, a, k) then old(lists)[k] + [a] else old(lists)[k]
      ensures lists == Ref.Joined(cfg, old(lists), a)
    {
      hide Exact, Members;
      ghost var before := active[a := false];
      assert before[a := true] == active;
      var k := 0;
      while k < KINDS
        invariant 0 <= k <= KINDS && |lists| == |index| == KINDS
        invariant forall j :: 0 <= j < k ==> Exact(lists[j], index[j], Members(cfg, active, j))
        invariant forall j :: 0 <= j < k ==> lists[j] == if Wants(cfg, a, j) then old(lists)[j] + [a] else old(lists)[j]
        invariant forall j :: k <= j < KINDS ==> lists[j] == old(lists)[j] && index[j] == old(index)[j]
      {
        MembersFlip(cfg, before, a, k, true);
        assert Exact(lists[k], index[k], Members(cfg, before, k));
        ListedIffMember(lists[k], index[k], Members(cfg, before, k), a);
        MemberIff(cfg, before, a, k);
        if Wants(cfg, a, k) {
          AppendKeepsExact(lists[k], index[k], Members(cfg, before, k), a);
          index := index[k := index[k][a := |lists[k]|]];
          lists := lists[k := lists[k] + [a]];
        }
        k := k + 1;
      }
      Ref.JoinedWhereWanted(cfg, old(lists), lists, a);
    }

    /** Removes an aura that has just become inactive from every list it stands in: the last entry
        takes its place and learns its new position. */
    method Delist(a: nat)
      requires Registered(cfg) && Shape(cfg, Snap()) && a < |cfg.auras| && !active[a]
      requires ListsExact(cfg, active[a := true], lists, index)
      modifies this`lists, this`index
      ensures Shape(cfg, Snap()) && ListsExact(cfg, active, lists, index)
      ensures forall k :: 0 <= k < KINDS ==> multiset(lists[k]) == multiset(old(lists)[k]) - multiset{a}
      ensures lists == Ref.Quit(old(lists), a)
    {
      ghost var before := active[a := true];
      assert before[a := false] == active;
      var k := 0;
      while k < KINDS
        invariant 0 <= k <= KINDS && |lists| == |index| == KINDS
        invariant forall j :: 0 <= j < k ==> Exact(lists[j], index[j], Members(cfg, active, j)) && Ref.Left(old(lists)[j], lists[j], a)
        invariant forall j :: k <= j < KINDS ==> lists[j] == old(lists)[j] && index[j] == old(index)[j]
      {
        hide Exact, Members, RemoveBySwappingToBack, Ref.Left, Registered, Wants;
        MembersFlip(cfg, before, a, k, false);
        MemberIff(cfg, before, a, k);
        assert Exact(lists[k], index[k], Members(cfg, before, k));
        Ref.LeavesList(lists[k], index[k], Members(cfg, before, k), a);
        if index[k][a] != NOT_LISTED {
          var i := index[k][a];
          var list := RemoveBySwappingToBack(lists[k], i);
          var positions := if i < |list| then index[k][list[i] := i] else index[k];
          lists := lists[k := list];
          index := index[k := positions[a := NOT_LISTED]];
        }
        k := k + 1;
      }
    }

    // -------------------------------------------------------------- exclusive effects

    method HighestPrioActiveEffect(c: nat) returns (w: int)
      requires Registered(cfg) && Shape(cfg, Snap()) && c < |cfg.categories|
      ensures w == NO_EFFECT ==> NoneEnabled(cfg, Arena(), c)
      ensures w != NO_EFFECT ==> InCategory(cfg, w, c) && enabled[w] && Highest(cfg, Arena(), c, w)
      ensures w != NO_EFFECT ==> exists i :: && 0 <= i < |cfg.categories[c].effects| && cfg.categories[c].effects[i] == w
                                             && forall j :: 0 <= j < i && enabled[cfg.categories[c].effects[j]] ==>
                                                  priority[cfg.categories[c].effects[j]] < priority[w]
      ensures w == Ref.Top(cfg.categories[c].effects, enabled, priority)
    {
      var effects := cfg.categories[c].effects;
      CategoryIndexes(c);
      hide Registered, InCategory;
      w := NO_EFFECT;
      var i := 0;
      while i < |effects|
        invariant 0 <= i <= |effects| && w == Ref.Top(effects[..i], enabled, priority) && (w == NO_EFFECT || 0 <= w < |priority|)
      {
        var e := effects[i];
        Ref.TopStep(effects, i, enabled, priority);
        if enabled[e] && (w == NO_EFFECT || priority[e] > priority[w]) {
          w := e;
        }
        i := i + 1;
      }
      assert effects[..i] == effects;
      ghost var at := Ref.TopIsFirst(effects, enabled, priority);
      TopDecides(c, w, at);
    }

    lemma CategoryIndexes(c: nat)
      requires Registered(cfg) && Shape(cfg, Snap()) && c < |cfg.categories|
      ensures Ref.Indexes(cfg.categories[c].effects, enabled, priority)
    {
      assert forall j :: 0 <= j < |cfg.categories[c].effects| ==> InCategory(cfg, cfg.categories[c].effects[j], c);
    }

    lemma TopDecides(c: nat, w: int, at: nat)
      requires Registered(cfg) && Shape(cfg, Snap()) && c < |cfg.categories| && Ref.Indexes(cfg.categories[c].effects, enabled, priority)
      requires if w == NO_EFFECT then forall j :: 0 <= j < |cfg.categories[c].effects| ==> !enabled[cfg.categories[c].effects[j]]
               else at < |cfg.categories[c].effects| && cfg.categories[c].effects[at] == w
                    && Ref.FirstAmong(cfg.categories[c].effects, at, enabled, priority)
      ensures w == NO_EFFECT ==> NoneEnabled(cfg, Arena(), c)
      ensures w != NO_EFFECT ==> InCategory(cfg, w, c) && Highest(cfg, Arena(), c, w)
    {
      forall e | InCategory(cfg, e, c) && enabled[e] ensures w != NO_EFFECT && priority[e] <= priority[w] {
        assert e in cfg.categories[c].effects;
      }
    }

    /** The OnExpire of a category's active effect takes its bid back, and whatever else it does runs while
        the category has none settled. */
    method EffectOnExpire(e: nat, ctx: Context, tape: seq<Command>) returns (rest: seq<Command>)
      requires e < |cfg.effects| && Inv(cfg, Snap(), Settling(ctx, cfg.effects[e].category))
      requires winner[cfg.effects[e].category] == e
      requires cfg.effects[e].category in ctx.settling ==> cfg.effects[e].category in spoiled
      modifies this
      ensures Inv(cfg, Snap(), Settling(ctx, cfg.effects[e].category))
      ensures Ran(cfg, old(Snap()), Snap(), ctx, Works(cfg, ctx, {cfg.effects[e].category}), tape, rest)
      ensures var c := cfg.effects[e].category;
              c !in spoiled ==>
                && SameBids(cfg, old(Arena()), Arena(), c) && winner[c] == e
                && (LedgerIn(cfg, old(Arena()), e, c) ==> NothingApplied(cfg, Arena(), c))
      ensures PlainTape(cfg, tape) ==> Arena() == old(Arena()).(net := old(net)[e := old(net)[e] - 1], applied := applied)
      ensures Ref.Outcome(Core(), rest) == Ref.EffectExpired(cfg, old(Core()), ctx.busy, e, tape)
      decreases Weight(tape), 0, 0, 1
    {
      hide Inv, Ran, Kept, Settled, PlainTape, LedgerIn, NothingApplied, SameBids, Works, Within, Ref.Callback, Ref.EffectExpired, Ref.CoreOf;
      ghost var s0 := Snap();
      var c := cfg.effects[e].category;
      var settling := Settling(ctx, c);
      SettlingWithin(cfg, ctx, c);
      InvShape(cfg, s0, settling);
      net := net[e := net[e] - 1];
      applied := applied[e := applied[e] - priority[e]];
      ghost var s1 := Snap();
      Ref.ExpiryCalls(cfg, s0, s1, ctx.busy, e, tape);
      ExpireTakesBack(cfg, s0.bids, s1.bids, c);
      ChangeStep(cfg, s0, s1, c, ctx);
      rest := RunCallback(settling, tape);
      CallbackWhileSettling(cfg, s0, s1, Snap(), e, c, ctx, Works(cfg, settling, {}), Works(cfg, ctx, {c}), tape, rest);
    }

    /** The OnGain of a category's new active effect applies its bid; unless a bid is still to be changed,
        the category is decided before what else it does runs. */
    method EffectOnGain(e: nat, ctx: Context, hold: bool, tape: seq<Command>) returns (rest: seq<Command>)
      requires e < |cfg.effects| && Inv(cfg, Snap(), Settling(ctx, cfg.effects[e].category))
      requires cfg.effects[e].category in ctx.settling ==> cfg.effects[e].category in spoiled
      requires var c := cfg.effects[e].category;
               c !in spoiled ==>
                 && winner[c] == e && NothingApplied(cfg, Arena(), c) && enabled[e]
                 && (!hold ==> WinnerOk(cfg, Arena(), e, c, ctx.open))
      modifies this
      ensures Inv(cfg, Snap(), if hold then Settling(ctx, cfg.effects[e].category) else ctx)
      ensures Ran(cfg, old(Snap()), Snap(), ctx, Works(cfg, ctx, {cfg.effects[e].category}), tape, rest)
      ensures var c := cfg.effects[e].category;
              hold && c !in spoiled ==> SameBids(cfg, old(Arena()), Arena(), c) && winner[c] == e && LedgerIn(cfg, Arena(), e, c)
      ensures PlainTape(cfg, tape) ==> Arena() == old(Arena()).(net := old(net)[e := old(net)[e] + 1], applied := applied)
      ensures Ref.Outcome(Core(), rest) == Ref.EffectGained(cfg, old(Core()), ctx.busy, e, tape)
      decreases Weight(tape), 0, 0, 1
    {
      hide Inv, Ran, Kept, Settled, PlainTape, WinnerOk, LedgerIn, NothingApplied, SameBids, Works, Within, Ref.Callback, Ref.EffectGained, Ref.CoreOf;
      ghost var s0 := Snap();
      var c := cfg.effects[e].category;
      var settling := Settling(ctx, c);
      SettlingWithin(cfg, ctx, c);
      InvShape(cfg, s0, settling);
      net := net[e := net[e] + 1];
      applied := applied[e := applied[e] + priority[e]];
      ghost var s1 := Snap();
      Ref.GainCalls(cfg, s0, s1, ctx.busy, e, tape);
      GainApplies(cfg, s0.bids, s1.bids, c, e);
      ChangeStep(cfg, s0, s1, c, ctx);
      if hold {
        rest := RunCallback(settling, tape);
        CallbackWhileSettling(cfg, s0, s1, Snap(), e, c, ctx, Works(cfg, settling, {}), Works(cfg, ctx, {c}), tape, rest);
      } else {
        SettledStep(cfg, s1, c, ctx);
        rest := RunCallback(ctx, tape);
        ChangeThenRan(cfg, s0, s1, Snap(), ctx, Works(cfg, ctx, {}), Works(cfg, ctx, {c}), tape, rest);
      }
    }

    /** Moves a category to another active effect: the old one's OnExpire, then the new one's OnGain, each
        applying the bid as it stands. */
    method SetActive(c: nat, w: int, ctx: Context, hold: bool, tape: seq<Command>) returns (rest: seq<Command>)
      requires Inv(cfg, Snap(), Settling(ctx, c)) && c < |cfg.categories|
      requires w == NO_EFFECT || InCategory(cfg, w, c)
      requires c in ctx.settling ==> c in spoiled
      requires c !in spoiled ==>
                 && LedgerIn(cfg, Arena(), winner[c], c)
                 && (w != NO_EFFECT ==> enabled[w])
                 && (!hold ==> WinnerOk(cfg, Arena(), w, c, ctx.open))
      modifies this
      ensures Inv(cfg, Snap(), if hold then Settling(ctx, c) else ctx)
      ensures Ran(cfg, old(Snap()), Snap(), ctx, Works(cfg, ctx, {c}), tape, rest)
      ensures hold && c !in spoiled ==> SameBids(cfg, old(Arena()), Arena(), c) && winner[c] == w && LedgerIn(cfg, Arena(), w, c)
      ensures PlainTape(cfg, tape) ==>
                && Arena() == old(Arena()).(winner := old(winner)[c := w], net := net, applied := applied)
                && SameSurplus(cfg, old(Arena()), Arena())
      ensures Ref.Outcome(Core(), rest) == Ref.HandedTo(cfg, old(Core()), ctx.busy, c, w, tape)
      decreases Weight(tape), 0, 0, 4
    {
      hide Inv, Ran, Kept, Settled, PlainTape, WinnerOk, LedgerIn, SameBids, SameSurplus, Works, Ref.HandedTo, Ref.CoreOf;
      ghost var s0 := Snap();
      InvShape(cfg, s0, Settling(ctx, c));
      if w != winner[c] {
        rest := HandOver(c, w, ctx, hold, tape);
        return;
      }
      rest := tape;
      Ref.NotHanded(cfg, s0, ctx.busy, c, tape);
      SameBidsStill(cfg, s0.bids, c);
      RanStill(cfg, s0, ctx, Works(cfg, ctx, {c}), tape);
      assert winner[c := w] == winner;
      SurplusStill(cfg, s0.bids);
      if !hold {
        SettledStep(cfg, s0, c, ctx);
      }
    }

    /** The handover itself. */
    method HandOver(c: nat, w: int, ctx: Context, hold: bool, tape: seq<Command>) returns (rest: seq<Command>)
      requires Inv(cfg, Snap(), Settling(ctx, c)) && c < |cfg.categories|
      requires w != winner[c] && (w == NO_EFFECT || InCategory(cfg, w, c))
      requires c in ctx.settling ==> c in spoiled
      requires c !in spoiled ==>
                 && LedgerIn(cfg, Arena(), winner[c], c)
                 && (w != NO_EFFECT ==> enabled[w])
                 && (!hold ==> WinnerOk(cfg, Arena(), w, c, ctx.open))
      modifies this
      ensures Inv(cfg, Snap(), if hold then Settling(ctx, c) else ctx)
      ensures Ran(cfg, old(Snap()), Snap(), ctx, Works(cfg, ctx, {c}), tape, rest)
      ensures hold && c !in spoiled ==> SameBids(cfg, old(Arena()), Arena(), c) && winner[c] == w && LedgerIn(cfg, Arena(), w, c)
      ensures PlainTape(cfg, tape) ==>
                && Arena() == old(Arena()).(winner := old(winner)[c := w], net := net, applied := applied)
                && SameSurplus(cfg, old(Arena()), Arena())
      ensures Ref.Outcome(Core(), rest) == Ref.HandedTo(cfg, old(Core()), ctx.busy, c, w, tape)
      decreases Weight(tape), 0, 0, 3
    {
      hide Inv, Ran, Kept, Settled, PlainTape, WinnerOk, LedgerIn, NothingApplied, SameBids, SameSurplus, Works, Within,
           Foreseen, Weight, Ref.HandedTo, Ref.EffectExpired, Ref.EffectGained, Ref.CoreOf;
      ghost var s0, works := Snap(), Works(cfg, ctx, {c});
      InvShape(cfg, s0, Settling(ctx, c));
      rest := ExpireActive(c, ctx, tape);
      ghost var s1, mid := Snap(), rest;
      RanShape(cfg, s0, s1, ctx, works, tape, mid);
      if c !in spoiled {
        StillDecided(cfg, s0.bids, s1.bids, w, c, ctx.open);
      }
      rest := InstallActive(c, w, ctx, hold, rest);
      Ref.HandedBy(cfg, s0, s1, Snap(), ctx.busy, c, w, tape, mid, rest);
      AfterHandover(cfg, s0, s1, Snap(), c, ctx, works, tape, mid, rest);
      if PlainTape(cfg, tape) {
        HandoverBalances(cfg, s0.bids, Arena(), c, w);
      }
    }

    /** Another active effect, and its OnGain if there is one. */
    method InstallActive(c: nat, w: int, ctx: Context, hold: bool, tape: seq<Command>) returns (rest: seq<Command>)
      requires Inv(cfg, Snap(), Settling(ctx, c)) && c < |cfg.categories|
      requires w == NO_EFFECT || InCategory(cfg, w, c)
      requires c in ctx.settling ==> c in spoiled
      requires c !in spoiled ==>
                 && NothingApplied(cfg, Arena(), c)
                 && (w != NO_EFFECT ==> enabled[w])
                 && (!hold ==> WinnerOk(cfg, Arena(), w, c, ctx.open))
      modifies this
      ensures Inv(cfg, Snap(), if hold then Settling(ctx, c) else ctx)
      ensures Ran(cfg, old(Snap()), Snap(), ctx, Works(cfg, ctx, {c}), tape, rest)
      ensures hold && c !in spoiled ==> SameBids(cfg, old(Arena()), Arena(), c) && winner[c] == w && LedgerIn(cfg, Arena(), w, c)
      ensures PlainTape(cfg, tape) ==>
                Arena() == old(Arena()).(winner := old(winner)[c := w], applied := applied,
                                         net := if w == NO_EFFECT then old(net) else old(net)[w := old(net)[w] + 1])
      ensures var handed := old(Core()).(winner := old(winner)[c := w]);
              if w == NO_EFFECT then Core() == handed && rest == tape
              else Ref.Outcome(Core(), rest) == Ref.EffectGained(cfg, handed, ctx.busy, w, tape)
      decreases Weight(tape), 0, 0, 2
    {
      hide Inv, Ran, Kept, Settled, PlainTape, WinnerOk, LedgerIn, SameBids, Works, Ref.EffectGained;
      ghost var s0, works := Snap(), Works(cfg, ctx, {c});
      InvShape(cfg, s0, Settling(ctx, c));
      SameBidsStill(cfg, s0.bids, c);
      RanStill(cfg, s0, ctx, works, tape);
      winner := winner[c := w];
      ghost var s1 := Snap();
      HandoverStep(cfg, s0, s0, s1, w, c, ctx, works, tape, tape);
      if w != NO_EFFECT {
        rest := EffectOnGain(w, ctx, hold, tape);
        AfterHandover(cfg, s0, s1, Snap(), c, ctx, works, tape, tape, rest);
      } else {
        rest := tape;
        SameBidsStill(cfg, s1.bids, c);
        if !hold {
          SettledStep(cfg, s1, c, ctx);
        }
      }
    }

    /** The OnExpire of the category's active effect, if it has one. */
    method ExpireActive(c: nat, ctx: Context, tape: seq<Command>) returns (rest: seq<Command>)
      requires Inv(cfg, Snap(), Settling(ctx, c)) && c < |cfg.categories|
      requires c in ctx.settling ==> c in spoiled
      requires c !in spoiled ==> LedgerIn(cfg, Arena(), winner[c], c)
      modifies this
      ensures Inv(cfg, Snap(), Settling(ctx, c))
      ensures Ran(cfg, old(Snap()), Snap(), ctx, Works(cfg, ctx, {c}), tape, rest)
      ensures c !in spoiled ==> SameBids(cfg, old(Arena()), Arena(), c) && NothingApplied(cfg, Arena(), c)
      ensures PlainTape(cfg, tape) ==>
                var w := old(winner)[c];
                Arena() == old(Arena()).(net := if w == NO_EFFECT then old(net) else old(net)[w := old(net)[w] - 1], applied := applied)
      ensures var w := old(winner)[c];
              if w == NO_EFFECT then Snap() == old(Snap()) && rest == tape
              else 0 <= w && Ref.Outcome(Core(), rest) == Ref.EffectExpired(cfg, old(Core()), ctx.busy, w, tape)
      decreases Weight(tape), 0, 0, 2
    {
      hide Inv, Ran, Kept, Settled, PlainTape, SameBids, Works, Ref.EffectExpired, Ref.CoreOf;
      ghost var s0 := Snap();
      InvShape(cfg, s0, Settling(ctx, c));
      SameBidsStill(cfg, s0.bids, c);
      RanStill(cfg, s0, ctx, Works(cfg, ctx, {c}), tape);
      rest := tape;
      if winner[c] != NO_EFFECT {
        RanShape(cfg, s0, s0, ctx, Works(cfg, ctx, {c}), tape, tape);
        rest := EffectOnExpire(winner[c], ctx, rest);
        RanShape(cfg, s0, Snap(), ctx, Works(cfg, ctx, {c}), tape, rest);
      }
    }

    /** An effect of an aura under way withdraws; if it was the active one, the category goes to the highest
        bidder left. */
    method EffectDeactivate(e: nat, ctx: Context, tape: seq<Command>) returns (rest: seq<Command>)
      requires Inv(cfg, Snap(), ctx) && e < |cfg.effects| && cfg.effects[e].aura in ctx.busy
      requires forall c :: c in ctx.open ==> ctx.open[c] != e
      modifies this
      ensures Inv(cfg, Snap(), ctx)
      ensures Ran(cfg, Without(old(Snap()), old(enabled)[e := false]), Snap(), ctx, Withdraws(cfg, ctx, cfg.effects[e].aura), tape, rest)
      ensures old(enabled)[e] && cfg.effects[e].category in ctx.settling ==> cfg.effects[e].category in spoiled
      ensures PlainTape(cfg, tape) ==> Calm(cfg, old(Arena()), Arena(), ctx, {}) && enabled == old(enabled)[e := false]
      ensures Ref.Outcome(Core(), rest) == Ref.EffectEnded(cfg, old(Core()), ctx.busy, e, tape)
      decreases Weight(tape), 0, 0, 5
    {
      hide Inv, Ran, PlainTape, WinnerOk, LedgerIn, Works, Withdraws, ClaimsOf, Within, Foreseen, Ref.HandedTo, Ref.EffectEnded, Ref.Top, Ref.CoreOf;
      ghost var s0 := Snap();
      ghost var reach := Withdraws(cfg, ctx, cfg.effects[e].aura);
      InvShape(cfg, s0, ctx);
      if !enabled[e] {
        assert enabled == enabled[e := false];
        RanStill(cfg, s0, ctx, reach, tape);
        Ref.EffectNotEnded(cfg, s0, ctx.busy, e, tape);
        return tape;
      }
      var c := cfg.effects[e].category;
      ghost var base := Without(s0, s0.bids.enabled[e := false]);
      enabled := enabled[e := false];
      spoiled := Marked(cfg, spoiled, e, c in ctx.settling);
      ghost var s1 := Snap();
      assert s1.bids == Withdrawing(cfg, s0.bids, e, ctx);
      WithdrawStep(cfg, s0, s1, e, ctx);
      rest := tape;
      if winner[c] == e {
        var w := HighestPrioActiveEffect(c);
        WithdrawDecision(cfg, s0, s1, e, w, ctx);
        rest := SetActive(c, w, ctx, false, rest);
        RanShape(cfg, s1, Snap(), ctx, Works(cfg, ctx, {c}), tape, rest);
        OwnBidWithin(cfg, ctx, e);
        ChangeThenRan(cfg, base, s1, Snap(), ctx, Works(cfg, ctx, {c}), reach, tape, rest);
      } else {
        WithdrawDecision(cfg, s0, s1, e, winner[c], ctx);
        SettledStep(cfg, s1, c, ctx);
        RanStill(cfg, s1, ctx, reach, tape);
        WithinItself(reach);
        ChangeThenRan(cfg, base, s1, s1, ctx, reach, reach, tape, tape);
      }
      InvShape(cfg, Snap(), ctx);
      Ref.EffectEndedBy(cfg, s0, s1, Snap(), ctx.busy, e, tape, rest);
    }

    /** A new bid: the first highest bidder under it decides who is the category's active effect. */
    method SetPriority(e: nat, p: real, ctx: Context, tape: seq<Command>) returns (rest: seq<Command>)
      requires Inv(cfg, Snap(), ctx) && e < |cfg.effects|
      modifies this
      ensures Inv(cfg, Snap(), ctx)
      ensures Ran(cfg, old(Snap()), Snap(), ctx, Rebids(cfg, ctx, cfg.effects[e].category), tape, rest)
      ensures !old(enabled)[e] ==> rest == tape && Arena() == old(Arena()).(priority := old(priority)[e := p])
      ensures PlainTape(cfg, tape) ==>
                && priority == old(priority)[e := p] && enabled == old(enabled) && crowded == old(crowded)
                && (ctx.settling == {} && ctx.open == map[] ==> spoiled == old(spoiled))
      ensures Ref.Outcome(Core(), rest) == Ref.Rebid(cfg, old(Core()), ctx.busy, e, p, tape)
      decreases Weight(tape), 0, 0, 6
    {
      hide Inv, Ran, PlainTape, WinnerOk, LedgerIn, Works, Rebids, Within, Foreseen, Ref.Rebid, Ref.BidMoved, Ref.Top, Ref.CoreOf;
      ghost var s0 := Snap();
      InvShape(cfg, s0, ctx);
      var c := cfg.effects[e].category;
      ghost var reach := Rebids(cfg, ctx, c);
      if !enabled[e] {
        priority := priority[e := p];
        Ref.RebidBy(cfg, s0, s0, Snap(), ctx.busy, e, p, tape, tape);
        UnseenStep(cfg, s0, Snap(), e, p, ctx);
        RanStill(cfg, Snap(), ctx, reach, tape);
        WithinItself(reach);
        ChangeThenRan(cfg, s0, Snap(), Snap(), ctx, reach, reach, tape, tape);
        return tape;
      }
      spoiled := Marked(cfg, spoiled, e, Upsets(cfg, s0.bids, ctx, e, p));
      ghost var s1 := Snap();
      RebidStep(cfg, s0, s1, e, p, ctx);
      var oldPriority := priority[e];
      priority := priority[e := p];
      var next := HighestPrioActiveEffect(c);
      priority := priority[e := oldPriority];
      assert priority == s0.bids.priority;
      assert next != NO_EFFECT;
      RebidDecision(cfg, s0, s1, next, e, p, ctx);
      rest := MoveBid(e, p, next, ctx, tape);
      Ref.RebidBy(cfg, s0, s1, Snap(), ctx.busy, e, p, tape, rest);
      SettlingWithin(cfg, ctx, c);
      ChangeThenRan(cfg, s0, s1, Snap(), ctx, Works(cfg, ctx, {c}), reach, tape, rest);
    }

    /** The four cases of a new bid for an enabled effect: the active effect that stays takes its old
        bid back and applies the new one; an effect that loses the category expires with the old bid;
        one that gains it applies the new bid. */
    method MoveBid(e: nat, p: real, next: nat, ctx: Context, tape: seq<Command>) returns (rest: seq<Command>)
      requires Inv(cfg, Snap(), ctx) && e < |cfg.effects| && enabled[e] && InCategory(cfg, next, cfg.effects[e].category)
      requires cfg.effects[e].category in ctx.settling ==> cfg.effects[e].category in spoiled
      requires var c := cfg.effects[e].category;
               c !in spoiled ==>
                 && LedgerIn(cfg, Arena(), winner[c], c) && enabled[next]
                 && WinnerOk(cfg, Arena().(priority := priority[e := p]), if winner[c] != e && next != e then winner[c] else next, c, ctx.open)
      modifies this
      ensures Inv(cfg, Snap(), ctx)
      ensures Ran(cfg, old(Snap()), Snap(), ctx, Works(cfg, ctx, {cfg.effects[e].category}), tape, rest)
      ensures PlainTape(cfg, tape) ==>
                && priority == old(priority)[e := p] && enabled == old(enabled) && spoiled == old(spoiled) && crowded == old(crowded)
                && var c := cfg.effects[e].category;
                   winner == old(winner)[c := if old(winner)[c] != e && next != e then old(winner)[c] else next]
      ensures Ref.Outcome(Core(), rest) == Ref.BidMoved(cfg, old(Core()), ctx.busy, e, p, next, tape)
      decreases Weight(tape), 0, 0, 5
    {
      hide Inv, Ran, PlainTape, WinnerOk, LedgerIn, Works, Within, Foreseen, Ref.BidMoved, Ref.HandedTo, Ref.EffectExpired, Ref.EffectGained, Ref.CoreOf;
      ghost var s0 := Snap();
      InvShape(cfg, s0, ctx);
      var c := cfg.effects[e].category;
      var current := winner[c];
      ghost var reach := Works(cfg, ctx, {c});
      WithinItself(reach);
      SettlingStep(cfg, s0, c, ctx);
      rest := tape;
      if current == e && next == e {
        rest := EffectOnExpire(e, ctx, tape);
        ghost var s1, mid := Snap(), rest;
        RanShape(cfg, s0, s1, ctx, reach, tape, mid);
        InvShape(cfg, s1, Settling(ctx, c));
        priority := priority[e := p];
        PriorityStep(cfg, s1, Snap(), e, p, ctx);
        RanThenChange(cfg, s0, s1, Snap(), ctx, reach, tape, mid);
        BidChanged(cfg, s0, s1, Snap(), next, e, p, ctx, reach, tape, mid);
        ghost var s2 := Snap();
        rest := EffectOnGain(e, ctx, false, rest);
        Ref.BidStays(cfg, s0, s1, s2, Snap(), ctx.busy, e, p, tape, mid, rest);
        RanOn(cfg, s0, s2, Snap(), ctx, reach, reach, reach, tape, mid, rest);
      } else if current != e && next != e {
        priority := priority[e := p];
        PriorityStep(cfg, s0, Snap(), e, p, ctx);
        SettledStep(cfg, Snap(), c, ctx);
        RanStill(cfg, Snap(), ctx, reach, tape);
        ChangeThenRan(cfg, s0, Snap(), Snap(), ctx, reach, reach, tape, tape);
        Ref.BidUnseen(cfg, s0, Snap(), ctx.busy, e, p, next, tape);
      } else if current == e {
        rest := SetActive(c, next, ctx, true, tape);
        ghost var s1 := Snap();
        RanShape(cfg, s0, s1, ctx, reach, tape, rest);
        InvShape(cfg, s1, Settling(ctx, c));
        priority := priority[e := p];
        PriorityStep(cfg, s1, Snap(), e, p, ctx);
        RanThenChange(cfg, s0, s1, Snap(), ctx, reach, tape, rest);
        BidChanged(cfg, s0, s1, Snap(), next, e, p, ctx, reach, tape, rest);
        Ref.BidLoses(cfg, s0, s1, Snap(), ctx.busy, e, p, next, tape, rest);
        SettledStep(cfg, Snap(), c, ctx);
      } else {
        priority := priority[e := p];
        ghost var s1 := Snap();
        PriorityStep(cfg, s0, s1, e, p, ctx);
        rest := SetActive(c, next, ctx, false, tape);
        Ref.BidGains(cfg, s0, s1, Snap(), ctx.busy, e, p, tape, rest);
        ChangeThenRan(cfg, s0, s1, Snap(), ctx, reach, reach, tape, rest);
      }
    }

    // -------------------------------------------------------------- operations that run callbacks

    /** A callback: the commands of the tape up to the next Return. */
    method RunCallback(ctx: Context, tape: seq<Command>) returns (rest: seq<Command>)
      requires Inv(cfg, Snap(), ctx)
      modifies this
      ensures Inv(cfg, Snap(), ctx)
      ensures Ran(cfg, old(Snap()), Snap(), ctx, Works(cfg, ctx, {}), tape, rest)
      ensures PlainTape(cfg, tape) ==> Arena() == old(Arena())
      ensures Told(cfg, ctx, old(Snap()), Snap(), tape)
      ensures Weight(rest) < Weight(tape) || (tape == rest == [] && Snap() == old(Snap()))
      ensures Ref.Outcome(Core(), rest) == Ref.Callback(cfg, old(Core()), ctx.busy, tape)
      decreases Weight(tape), 0, 0, 0
    {
      hide Inv, Ran, Kept, PlainTape, Works, Weight, Told, ToldSoFar, Obeyed, Ref.Callback, Ref.Commanded, Ref.CoreOf;
      ghost var s0 := Snap();
      InvShape(cfg, s0, ctx);
      RanStill(cfg, s0, ctx, Works(cfg, ctx, {}), tape);
      NothingToldYet(cfg, ctx, s0, tape);
      rest := tape;
      while rest != []
        invariant Inv(cfg, Snap(), ctx)
        invariant Ran(cfg, s0, Snap(), ctx, Works(cfg, ctx, {}), tape, rest)
        invariant ToldSoFar(cfg, ctx, s0, Snap(), tape, rest)
        invariant PlainTape(cfg, tape) ==> Arena() == old(Arena())
        invariant Weight(rest) < Weight(tape) || (rest == tape && Snap() == s0)
        invariant Ref.Callback(cfg, Core(), ctx.busy, rest) == Ref.Callback(cfg, old(Core()), ctx.busy, tape)
        decreases |rest|
      {
        var command := rest[0];
        ghost var s1, before := Snap(), rest;
        TapeAdvances(cfg, s0, s1, ctx, tape, before);
        rest := rest[1..];
        if command.op.Return? {
          ToldAll(cfg, ctx, s0, s1, tape, before);
          Ref.CallbackEnds(cfg, Ref.CoreOf(s1), ctx.busy, before);
          return;
        }
        Perform(command, ctx);
        CommandDone(cfg, s0, s1, Snap(), ctx, tape, before);
        Ref.CallbackStep(cfg, Ref.CoreOf(s1), Core(), ctx.busy, before);
        ToldNext(cfg, ctx, s0, s1, Snap(), tape, before);
      }
      ToldAll(cfg, ctx, s0, Snap(), tape, rest);
      Ref.CallbackEnds(cfg, Core(), ctx.busy, rest);
    }

    /** A command.  One the tracker answers with a panic is not given; the activation of an aura that is itself
        being activated or deactivated, and an expiry moved earlier, are passed over. */
    method Perform(command: Command, ctx: Context)
      requires Inv(cfg, Snap(), ctx)
      modifies this
      ensures Inv(cfg, Snap(), ctx)
      ensures Ran(cfg, old(Snap()), Snap(), ctx, Works(cfg, ctx, {}), [command], [])
      ensures SparesOthers(cfg, ctx, [command], old(Arena()), Arena())
      ensures PlainTape(cfg, [command]) ==> Arena() == old(Arena())
      ensures Obeyed(cfg, ctx, old(Snap()), Snap(), command)
      ensures Core() == Ref.Commanded(cfg, old(Core()), ctx.busy, command)
      decreases Weight(command.during) + Weight(command.after) + 1, 0, 0, 0
    {
      hide Inv, Ran, Kept, PlainTape, LogGrows, Works, Weight, Obeyed, MayActivate, MayEnd, SparesOthers, Ref.Commanded, Ref.Activated, Ref.Deactivated, Ref.Stacked, Ref.Rebid, Ref.Walk, Ref.CoreOf, Ref.Refreshed;
      ghost var s0 := Snap();
      InvShape(cfg, s0, ctx);
      CommandPassedOver(cfg, s0, ctx, command);
      Ref.CommandedBy(cfg, s0, ctx.busy, command);
      if PlainTape(cfg, [command]) {
        PlainCommand(cfg, command);
      }
      match command.op {
        case Activate(a) =>
          if a < |cfg.auras| && (active[a] || a !in ctx.busy) {
            var landed := this.Activate(a, ctx, command.during, command.after);
            assert command == Command(Op.Activate(a), command.during, command.after);
            InvShape(cfg, Snap(), ctx);
          }
        case Deactivate(a) =>
          if a < |cfg.auras| {
            this.Deactivate(a, ctx, command.during, command.after);
            assert command == Command(Op.Deactivate(a), command.during, command.after);
            InvShape(cfg, Snap(), ctx);
          }
        case Refresh(_) =>
          PerformSmall(command, ctx);
        case UpdateExpires(_, _) =>
          PerformSmall(command, ctx);
        case SetStacks(a, n) =>
          if a < |cfg.auras| && (active[a] || n == 0) && 0 <= n && cfg.auras[a].maxStacks != 0 {
            var rest := this.SetStacks(a, n, ctx, command.during, command.after);
            assert command == Command(Op.SetStacks(a, n), command.during, command.after);
          }
        case SetPriority(e, p) =>
          if e < |cfg.effects| {
            var rest := this.SetPriority(e, p, ctx, command.during);
            InvShape(cfg, Snap(), ctx);
            CommandRebids(cfg, s0, Snap(), ctx, command, rest);
          }
        case Fire(k) =>
          if 1 <= k < KINDS {
            var rest := this.Fire(k, ctx, command.after);
            CommandAfter(cfg, s0, Snap(), ctx, command, rest);
          }
        case Return =>
      }
      CommandObeyed(cfg, ctx, s0, Snap(), command);
      RanSpares(cfg, s0, Snap(), ctx, [command], []);
    }

    /** The commands that run no callback. */
    method PerformSmall(command: Command, ctx: Context)
      requires Inv(cfg, Snap(), ctx) && (command.op.Refresh? || command.op.UpdateExpires?)
      modifies this
      ensures Inv(cfg, Snap(), ctx)
      ensures Ran(cfg, old(Snap()), Snap(), ctx, Works(cfg, ctx, {}), [command], [])
      ensures Arena() == old(Arena())
      ensures Core() == Ref.Commanded(cfg, old(Core()), ctx.busy, command)
    {
      hide Inv, Ran, Kept, Works, Ref.Commanded, Ref.Refreshed;
      ghost var s0 := Snap();
      InvShape(cfg, s0, ctx);
      CommandPassedOver(cfg, s0, ctx, command);
      Ref.CommandedBy(cfg, s0, ctx.busy, command);
      match command.op {
        case Refresh(a) =>
          if a < |cfg.auras| {
            this.Refresh(a);
            ExpiryStep(cfg, s0, Snap(), ctx, a);
            CommandUnmoved(cfg, s0, Snap(), ctx, command);
          }
        case UpdateExpires(a, at) =>
          if a < |cfg.auras| && active[a] && expires[a] <= at {
            this.UpdateExpires(a, at);
            ExpiryStep(cfg, s0, Snap(), ctx, a);
            CommandUnmoved(cfg, s0, Snap(), ctx, command);
          }
      }
    }

    method UpdateExpires(a: nat, at: int)
      requires a < |expires|
      modifies this`expires
      ensures expires == old(expires)[a := at]
    {
      expires := expires[a := at];
    }

    /** Sets the stacks, at most the maximum; whatever the callbacks do, an active aura whose stacks drop to
        zero fades, unless a callback gives it stacks again. */
    method SetStacks(a: nat, n: int, ctx: Context, during: seq<Command>, after: seq<Command>) returns (rest: seq<Command>)
      requires Inv(cfg, Snap(), ctx) && a < |cfg.auras|
      requires (active[a] || n == 0) && 0 <= n && cfg.auras[a].maxStacks != 0
      modifies this
      ensures Inv(cfg, Snap(), ctx)
      ensures Ran(cfg, old(Snap()), Snap(), ctx, Works(cfg, ctx, {}), [Command(Op.SetStacks(a, n), during, after)], [])
      ensures a in ctx.busy ==> Ran(cfg, old(Snap()), Snap(), ctx, Works(cfg, ctx, {}), after, rest)
      ensures var given := if n < cfg.auras[a].maxStacks then n else cfg.auras[a].maxStacks;
              if given == old(stacks[a]) then Snap() == old(Snap()) && rest == after
              else |old(log)| < |log| && log[|old(log)|] == Stack(a, given)
      ensures n == 0 && old(active[a]) && old(stacks[a]) != 0 ==> Faded(log, |old(log)|, a) || Given(log, |old(log)|, a)
      ensures a in ctx.busy ==> stacks[a] == 0
      ensures PlainTape(cfg, during) && PlainTape(cfg, after) ==>
                Calm(cfg, old(Arena()), Arena(), ctx, {}) && (cfg.auras[a].effects == [] || a in ctx.busy ==> Arena() == old(Arena()))
      ensures after == [] ==> stacks[a] == if n < cfg.auras[a].maxStacks then n else cfg.auras[a].maxStacks
      ensures after == [] && n == 0 && old(stacks[a]) != 0 ==> !active[a]
      ensures Ref.Outcome(Core(), rest) == Ref.Stacked(cfg, old(Core()), ctx.busy, a, n, during, after)
      ensures a in ctx.busy && old(stacks[a]) != 0 ==>
                Ref.Outcome(Core(), rest) == Ref.Callback(cfg, old(Core()).(stacks := old(stacks)[a := 0]), ctx.busy, after)
      decreases Weight(during) + Weight(after), 1, |ActiveSet(active)|, 3
    {
      hide Inv, Ran, Kept, Settled, PlainTape, Weight, Works, Ref.Stacked, Ref.Callback, Ref.Deactivated, Ref.CoreOf;
      ghost var s0, command := Snap(), Command(Op.SetStacks(a, n), during, after);
      BeforeFade(cfg, s0, ctx, a);
      KeptItself(cfg, s0, ctx);
      BusyWithoutStacks(cfg, s0, s0, ctx, a);
      CommandPassedOver(cfg, s0, ctx, command);
      RanStill(cfg, s0, ctx, Works(cfg, ctx, {}), after);
      var newStacks := if n < cfg.auras[a].maxStacks then n else cfg.auras[a].maxStacks;
      if stacks[a] == newStacks {
        Ref.NotStacked(cfg, s0, ctx.busy, a, n, during, after);
        return after;
      }
      rest := ChangeStacks(a, newStacks, ctx, after);
      ghost var s1 := Snap();
      RanKept(cfg, s0, s1, ctx, Works(cfg, ctx, {}), after, rest);
      BusyWithoutStacks(cfg, s0, s1, ctx, a);
      if stacks[a] == 0 {
        this.Deactivate(a, ctx, during, rest);
        ghost var ending := Command(Op.Deactivate(a), during, rest);
        AfterStacks(cfg, s0, s1, Snap(), ctx, command, ending);
        RanKept(cfg, s1, Snap(), ctx, Works(cfg, ctx, {}), [ending], []);
        BusyWithoutStacks(cfg, s1, Snap(), ctx, a);
        LogKept(cfg, s1, Snap(), ctx, |s0.log|, a);
      } else {
        CommandAfter(cfg, s0, s1, ctx, command, rest);
      }
      Ref.StackedBy(cfg, s0, s1, Snap(), ctx.busy, a, n, during, after, rest);
    }

    /** The new stacks are recorded and OnStacksChange runs. */
    method ChangeStacks(a: nat, n: int, ctx: Context, tape: seq<Command>) returns (rest: seq<Command>)
      requires Inv(cfg, Snap(), ctx) && a < |cfg.auras| && n != stacks[a]
      requires 0 <= n <= cfg.auras[a].maxStacks && (active[a] || n == 0)
      modifies this
      ensures Inv(cfg, Snap(), ctx)
      ensures Ran(cfg, old(Snap()), Snap(), ctx, Works(cfg, ctx, {}), tape, rest)
      ensures |old(log)| < |log| && log[|old(log)|] == Stack(a, n)
      ensures old(active[a]) && !active[a] ==> Faded(log, |old(log)|, a)
      ensures n == 0 && stacks[a] != 0 ==> Given(log, |old(log)|, a)
      ensures a in ctx.busy ==> stacks[a] == 0 && !active[a]
      ensures PlainTape(cfg, tape) ==> Arena() == old(Arena())
      ensures Weight(rest) < Weight(tape) || (tape == rest == [] && active == old(active) && stacks[a] == n)
      ensures Ref.Outcome(Core(), rest) == Ref.Callback(cfg, old(Core()).(stacks := old(stacks)[a := n]), ctx.busy, tape)
      decreases Weight(tape), 1, 0, 0
    {
      hide Inv, Ran, Kept, Settled, PlainTape, Weight, Works, Ref.Callback;
      ghost var s0 := Snap();
      KeptItself(cfg, s0, ctx) by { InvShape(cfg, s0, ctx); }
      BusyWithoutStacks(cfg, s0, s0, ctx, a);
      stacks := stacks[a := n];
      log := log + [Stack(a, n)];
      ghost var s1 := Snap();
      StacksStep(cfg, s0, s1, ctx, a);
      rest := RunCallback(ctx, tape);
      WithinItself(Works(cfg, ctx, {}));
      ChangeThenRan(cfg, s0, s1, Snap(), ctx, Works(cfg, ctx, {}), Works(cfg, ctx, {}), tape, rest);
      RanKept(cfg, s1, Snap(), ctx, Works(cfg, ctx, {}), tape, rest);
      BusyWithoutStacks(cfg, s1, Snap(), ctx, a);
      StacksAfterCallback(cfg, s0, s1, Snap(), ctx, a);
    }

    /** Ends an active aura: it leaves its lists, its stacks vanish, its exclusive effects withdraw, and its
        OnExpire runs, in this order, each step with the callbacks it causes. */
    method Deactivate(a: nat, ctx: Context, during: seq<Command>, after: seq<Command>)
      requires Inv(cfg, Snap(), ctx) && a < |cfg.auras|
      modifies this
      ensures Inv(cfg, Snap(), ctx)
      ensures Ran(cfg, old(Snap()), Snap(), ctx, Works(cfg, ctx, {}), [Command(Op.Deactivate(a), during, after)], [])
      ensures SparesOthers(cfg, ctx, [Command(Op.Deactivate(a), during, after)], old(Arena()), Arena())
      ensures !old(active[a]) ==> Snap() == old(Snap())
      ensures old(active[a]) ==> |old(log)| < |log| && log[|old(log)|] == Event.Fade(a)
      ensures old(active[a]) ==> !Overdue(active, expires, now, a)
      ensures old(active[a]) ==>
                forall e :: (0 <= e < |cfg.effects| && cfg.effects[e].aura == a && Closed(cfg, ctx.busy, cfg.effects[e].category)
                             && cfg.effects[e].category !in crowded) ==> !enabled[e]
      ensures PlainTape(cfg, during) && PlainTape(cfg, after) ==>
                Calm(cfg, old(Arena()), Arena(), ctx, {}) && (cfg.auras[a].effects == [] ==> Arena() == old(Arena()))
      ensures PlainTape(cfg, during) && PlainTape(cfg, after) && old(active[a]) ==>
                forall e :: 0 <= e < |cfg.effects| ==> enabled[e] == (old(enabled)[e] && cfg.effects[e].aura != a)
      ensures a !in MayActivate(after) ==> !active[a]
      ensures after == [] && old(active[a]) ==> stacks[a] == 0
      ensures Core() == Ref.Deactivated(cfg, old(Core()), ctx.busy, a, during, after)
      decreases Weight(during) + Weight(after), 1, |ActiveSet(active)|, 2
    {
      hide Inv, Ran, Kept, Settled, PlainTape, Weight, Works, Fades, MayActivate, Calm, SparesOthers, Ref.Deactivated, Ref.Gone, Ref.Callback, Ref.CoreOf;
      ghost var s0, command := Snap(), Command(Op.Deactivate(a), during, after);
      BeforeFade(cfg, s0, ctx, a);
      CommandPassedOver(cfg, s0, ctx, command);
      CalmStill(cfg, s0.bids, ctx, {});
      RanSpares(cfg, s0, s0, ctx, [command], []);
      if !active[a] {
        Ref.DeactivatedBy(cfg, s0, s0, s0, ctx.busy, a, during, after, during, after);
        return;
      }
      var rest := Fade(a, ctx, during);
      ghost var s1 := Snap();
      BeforeFade(cfg, s1, ctx, a);
      var last := RunCallback(ctx, after);
      AfterExpire(cfg, s0, s1, Snap(), ctx, a, command, rest, last);
      RanKept(cfg, s1, Snap(), ctx, Works(cfg, ctx, {}), after, last);
      StaysDown(cfg, s1, Snap(), ctx, a);
      Ref.DeactivatedBy(cfg, s0, s1, Snap(), ctx.busy, a, during, after, rest, last);
      RanSpares(cfg, s0, Snap(), ctx, [command], []);
    }

    /** All of it but the OnExpire, which is due. */
    method Fade(a: nat, ctx: Context, tape: seq<Command>) returns (rest: seq<Command>)
      requires Inv(cfg, Snap(), ctx) && a < |cfg.auras| && active[a]
      modifies this
      ensures Inv(cfg, Snap(), ctx) && Shape(cfg, Snap())
      ensures Ran(cfg, old(Snap()), Snap(), ctx, Fades(cfg, ctx, a), tape, rest)
      ensures |old(log)| < |log| && log[|old(log)|] == Event.Fade(a)
      ensures !active[a] && stacks[a] == 0 && forall e :: 0 <= e < |cfg.effects| && cfg.effects[e].aura == a ==> !enabled[e]
      ensures PlainTape(cfg, tape) ==>
                && Calm(cfg, old(Arena()), Arena(), ctx, {}) && (cfg.auras[a].effects == [] ==> Arena() == old(Arena()))
                && forall e :: 0 <= e < |cfg.effects| ==> enabled[e] == (old(enabled)[e] && cfg.effects[e].aura != a)
      ensures Ref.Outcome(Core(), rest) == Ref.Gone(cfg, old(Core()), ctx.busy, a, tape)
      decreases Weight(tape), 1, |ActiveSet(active)|, 1
    {
      hide Inv, Ran, Kept, Settled, PlainTape, Weight, Works, Fades, Withdraws, Foreseen, Went, Ref.Gone, Ref.Callback, Ref.EffectsEnded, Ref.Stacked;
      ghost var s0 := Snap();
      BeforeFade(cfg, s0, ctx, a);
      var inner := Entering(ctx, a);
      ActiveSetShrinks(s0.active, a);
      BeginFade(a, ctx);
      ghost var s1 := Snap();
      // the aura's state is consistent again before any callback runs
      rest := tape;
      BeforeFade(cfg, s1, inner, a);
      RanStill(cfg, s1, inner, Works(cfg, inner, {}), tape);
      CalmStill(cfg, s1.bids, inner, {});
      NothingFromNothing();
      if stacks[a] != 0 {
        rest := this.SetStacks(a, 0, inner, [], rest);
      }
      ghost var s2, mid := Snap(), rest;
      StacksGone(cfg, s1, s2, ctx, a, tape, mid);
      Ref.GoneBy(cfg, s0, s1, s2, ctx.busy, a, tape, mid);
      rest := FinishFade(a, ctx, rest);
      AfterFade(cfg, s0, s1, s2, Snap(), ctx, a, tape, mid, rest);
      InvShape(cfg, Snap(), ctx);
    }

    /** The aura goes inactive and leaves every list. */
    method BeginFade(a: nat, ghost ctx: Context)
      requires Inv(cfg, Snap(), ctx) && a < |cfg.auras| && active[a]
      modifies this
      ensures Inv(cfg, Snap(), Entering(ctx, a)) && Kept(cfg, old(Snap()), Snap(), ctx)
      ensures Snap() == old(Snap()).(active := old(active)[a := false], expires := old(expires)[a := 0],
                                     lists := lists, index := index, log := old(log) + [Event.Fade(a)])
      ensures lists == Ref.Quit(old(lists), a)
      ensures Foreseen(cfg, old(Snap()), Snap(), Fades(cfg, ctx, a), [])
      ensures forall b: nat :: Owed(log, b) == Owed(old(log), b) + if b == a then 1 else 0
    {
      hide Inv, Kept, Foreseen, Fades;
      ghost var s0 := Snap();
      InvLists(cfg, s0, ctx);
      active := active[a := false];
      log := log + [Event.Fade(a)];
      expires := expires[a := 0];
      assert active[a := true] == s0.active;
      Delist(a);
      FadeStep(cfg, s0, Snap(), ctx, a);
      LogAppend(s0.log, Event.Fade(a));
      FadeForeseen(cfg, s0, Snap(), ctx, a);
    }

    /** The aura's exclusive effects withdraw, and its OnExpire is due. */
    method FinishFade(a: nat, ctx: Context, tape: seq<Command>) returns (rest: seq<Command>)
      requires Inv(cfg, Snap(), Entering(ctx, a)) && a < |cfg.auras| && a !in ctx.busy && stacks[a] == 0 && OpenOk(cfg, ctx)
      modifies this
      ensures Inv(cfg, Snap(), ctx) && Went(cfg, old(Snap()), Snap(), ctx, Withdraws(cfg, ctx, a), tape, rest)
      ensures !active[a] && stacks[a] == 0 && forall e :: 0 <= e < |cfg.effects| && cfg.effects[e].aura == a ==> !enabled[e]
      ensures forall b: nat :: Owed(log, b) == Owed(old(log), b) - if b == a then 1 else 0
      ensures PlainTape(cfg, tape) ==>
                && Calm(cfg, old(Arena()), Arena(), ctx, {}) && (cfg.auras[a].effects == [] ==> Arena() == old(Arena()))
                && forall e :: 0 <= e < |cfg.effects| ==> enabled[e] == (old(enabled)[e] && cfg.effects[e].aura != a)
      ensures Ref.Outcome(Core(), rest) == Ref.EffectsEnded(cfg, old(Core()), ctx.busy + {a}, cfg.auras[a].effects, tape)
      decreases Weight(tape), 0, 0, 7
    {
      hide Inv, Kept, PlainTape, Calm, Foreseen, Suffix, Withdraws, Ref.EffectsEnded, Ref.CoreOf;
      ghost var s0 := Snap();
      InvShape(cfg, s0, Entering(ctx, a));
      rest := EffectsDeactivate(a, |cfg.auras[a].effects|, Entering(ctx, a), tape);
      ghost var s1 := Snap();
      assert cfg.auras[a].effects[..|cfg.auras[a].effects|] == cfg.auras[a].effects;
      EffectsEnded(cfg, s0, s1, ctx, a, |cfg.auras[a].effects|, tape, rest);
      if PlainTape(cfg, tape) {
        CalmAnyway(cfg, s0.bids, s1.bids, Entering(ctx, a), ctx, {});
        OffAll(cfg, s0.bids.enabled, a);
      }
      LogStep(cfg, s1, Expire(a), ctx);
      log := log + [Expire(a)];
      assert Went(cfg, s0, s1, ctx, Withdraws(cfg, ctx, a), tape, rest);
      WentThenChange(cfg, s0, s1, Snap(), ctx, Withdraws(cfg, ctx, a), tape, rest);
      Ref.SameCore(s1, Snap());
    }

    /** Deactivates the first n exclusive effects of an aura under way. */
    method EffectsDeactivate(a: nat, n: nat, ctx: Context, tape: seq<Command>) returns (rest: seq<Command>)
      requires Inv(cfg, Snap(), ctx) && a < |cfg.auras| && n <= |cfg.auras[a].effects| && a in ctx.busy
      requires forall c :: c in ctx.open ==> InCategory(cfg, ctx.open[c], c) && cfg.effects[ctx.open[c]].aura != a
      modifies this
      ensures Inv(cfg, Snap(), ctx)
      ensures Ended(cfg, old(Snap()), Snap(), ctx, a, n, tape, rest)
      ensures PlainTape(cfg, tape) ==>
                && Calm(cfg, old(Arena()), Arena(), ctx, {})
                && enabled == Off(cfg, old(enabled), a, n)
      ensures n == 0 ==> Snap() == old(Snap()) && rest == tape
      ensures Ref.Outcome(Core(), rest) == Ref.EffectsEnded(cfg, old(Core()), ctx.busy, cfg.auras[a].effects[..n], tape)
      decreases Weight(tape), 0, 0, 6
    {
      hide Inv, Ran, PlainTape, Ended, Calm, Weight, Ref.EffectsEnded, Ref.EffectEnded, Ref.CoreOf;
      ghost var s0 := Snap();
      NoneEnded(cfg, s0, ctx, a, tape);
      rest := tape;
      var i := 0;
      assert cfg.auras[a].effects[0..n] == cfg.auras[a].effects[..n];
      while i < n
        invariant 0 <= i <= n && Weight(rest) <= Weight(tape)
        invariant Inv(cfg, Snap(), ctx)
        invariant Ended(cfg, s0, Snap(), ctx, a, i, tape, rest)
        invariant PlainTape(cfg, tape) ==>
                    PlainTape(cfg, rest) && Calm(cfg, s0.bids, Arena(), ctx, {}) && enabled == Off(cfg, s0.bids.enabled, a, i)
        invariant i == 0 ==> Snap() == s0 && rest == tape
        invariant Ref.EffectsEnded(cfg, Core(), ctx.busy, cfg.auras[a].effects[i..n], rest)
                  == Ref.EffectsEnded(cfg, old(Core()), ctx.busy, cfg.auras[a].effects[..n], tape)
      {
        var e := cfg.auras[a].effects[i];
        ghost var s1, mid := Snap(), rest;
        EffectOf(cfg, s1, ctx, a, i);
        rest := EffectDeactivate(e, ctx, rest);
        Ref.EffectsEndedStep(cfg, Ref.CoreOf(s1), Core(), ctx.busy, cfg.auras[a].effects, i, n, mid, rest);
        OneMoreEnded(cfg, s0, s1, Snap(), ctx, a, i, tape, mid, rest);
        if PlainTape(cfg, tape) {
          CalmOn(cfg, s0.bids, s1.bids, Arena(), ctx, {});
          OffOneMore(cfg, s0.bids.enabled, a, i);
        }
        i := i + 1;
      }
      Ref.NoEffectEnds(cfg, Core(), ctx.busy, cfg.auras[a].effects[n..n], rest);
    }

    function RemainingDuration(a: nat): int
      requires a < |active| == |expires|
      reads this
    {
      if !active[a] then 0 else if expires[a] == NEVER_EXPIRES then NEVER_EXPIRES else expires[a] - now
    }

    /** Whether the effect e lasts longer than the newcomer f could. */
    predicate Outlasts(e: nat, f: nat)
      requires Registered(cfg) && |active| == |expires| == |cfg.auras| && e < |cfg.effects| && f < |cfg.effects|
      reads this
    {
      RemainingDuration(cfg.effects[e].aura) > cfg.auras[cfg.effects[f].aura].duration
    }

    predicate KeepsTie(e: nat, f: nat)
      requires Registered(cfg) && |active| == |expires| == |cfg.auras| && e < |cfg.effects| && f < |cfg.effects|
      reads this
    {
      cfg.auras[cfg.effects[e].aura].spell != cfg.auras[cfg.effects[f].aura].spell && Outlasts(e, f)
    }

    /** Whether the category's active effect keeps the newcomer out altogether. */
    predicate Blocks(e: nat)
      requires Registered(cfg) && Shape(cfg, Snap()) && e < |cfg.effects|
      reads this
    {
      var c := cfg.effects[e].category;
      var w := winner[c];
      && cfg.categories[c].singleAura && w != NO_EFFECT && w != e
      && (priority[w] > priority[e] || (priority[e] == priority[w] && Outlasts(w, e)))
    }

    /** Whether the newcomer, not blocked, becomes the category's active effect. */
    predicate Takes(e: nat)
      requires Registered(cfg) && Shape(cfg, Snap()) && e < |cfg.effects|
      reads this
    {
      var w := winner[cfg.effects[e].category];
      || w == NO_EFFECT
      || priority[e] > priority[w]
      || (priority[e] == priority[w] && !cfg.effects[e].yieldsTies && !KeepsTie(w, e))
    }

    /** Equal bids, in the fields: the active effect of a single-aura category keeps a newcomer out if its aura has
        more time left than the newcomer's full duration; and an active effect keeps the category if the newcomer
        yields ties, or if the newcomer is another spell that it outlasts. */
    lemma TiesInFields(e: nat)
      requires Registered(cfg) && Shape(cfg, Snap()) && e < |cfg.effects|
      ensures var c := cfg.effects[e].category;
              var w := winner[c];
              w != NO_EFFECT && w != e && priority[w] == priority[e] ==>
                var h, a := cfg.effects[w].aura, cfg.effects[e].aura;
                && (Blocks(e) <==> cfg.categories[c].singleAura && LastsLonger(cfg, active, expires, now, h, a))
                && (Takes(e) <==> && !cfg.effects[e].yieldsTies
                                  && (cfg.auras[h].spell == cfg.auras[a].spell || !LastsLonger(cfg, active, expires, now, h, a)))
    {
    }

    /** Bids, equal or not, are decided as the reference says. */
    lemma BidsAsStated(e: nat)
      requires Registered(cfg) && Shape(cfg, Snap()) && e < |cfg.effects|
      ensures Blocks(e) == Ref.KeepsOut(cfg, Core(), e)
      ensures Takes(e) == Ref.TakesOver(cfg, Core(), e)
    {
    }

    /** An effect of an aura being activated bids for its category. */
    method EffectActivate(e: nat, ctx: Context, tape: seq<Command>) returns (ok: bool, rest: seq<Command>)
      requires Inv(cfg, Snap(), ctx) && e < |cfg.effects| && !enabled[e] && cfg.effects[e].aura in ctx.busy
      modifies this
      ensures Inv(cfg, Snap(), ctx)
      ensures ok == !old(Blocks(e))
      ensures !ok ==> rest == tape && Snap() == old(Snap())
      ensures ok ==> Ran(cfg, old(Snap()).(bids := Bidding(cfg, old(Arena()), e, ctx)), Snap(), ctx,
                         ClaimsOf(cfg, ctx, cfg.effects[e].aura), tape, rest)
      ensures ok && PlainTape(cfg, tape) ==>
                && Calm(cfg, Bidding(cfg, old(Arena()), e, ctx), Arena(), ctx, {})
                && winner[cfg.effects[e].category] == (if old(Takes(e)) then e else old(winner)[cfg.effects[e].category])
                && OthersUp(cfg, Bidding(cfg, old(Arena()), e, ctx), Arena(), old(HolderOf(cfg, winner, e)))
      ensures Ref.BidOutcome(ok, Core(), rest) == Ref.EffectBid(cfg, old(Core()), ctx.busy, e, tape)
      decreases Weight(tape), 2, 0, 0
    {
      hide Inv, Ran, PlainTape, WinnerOk, LedgerIn, Crowds, Works, ClaimsOf, Within, Ref.EffectBid, Ref.KeepsOut, Ref.TakesOver, Ref.HandedTo, Ref.Ended, Ref.CoreOf;
      rest := tape;
      ghost var s0 := Snap();
      ghost var reach := ClaimsOf(cfg, ctx, cfg.effects[e].aura);
      InvShape(cfg, s0, ctx);
      BidsAsStated(e);
      if Blocks(e) {
        Ref.EffectKeptOut(cfg, s0, ctx.busy, e, tape);
        return false, rest;
      }
      ok := true;
      var c := cfg.effects[e].category;
      var w := winner[c];
      var takes := Takes(e);
      enabled := enabled[e := true];
      spoiled := Marked(cfg, spoiled, e, Upsets(cfg, s0.bids, ctx, e, priority[e]));
      crowded := Marked(cfg, crowded, e, Crowds(cfg, ctx.busy, e));
      ghost var s1 := Snap();
      if takes && w != NO_EFFECT && cfg.categories[c].singleAura && w != e {
        ChallengeStep(cfg, s0, s1, e, ctx);
        rest := TakeOver(e, ctx, rest);
      } else if takes {
        TakesStep(cfg, s0, s1, e, ctx);
        rest := SetActive(c, e, ctx, false, rest);
        OwnBidWithin(cfg, ctx, e);
        RanUnder(cfg, s1, Snap(), ctx, ctx, Works(cfg, ctx, {c}), reach, tape, rest);
        InvShape(cfg, Snap(), ctx);
      } else {
        assert InCategory(cfg, e, c);
        OverbiddenStep(cfg, s0, s1, e, ctx);
        RanStill(cfg, s1, ctx, reach, tape);
      }
      Ref.EffectBidBy(cfg, s0, s1, Snap(), ctx.busy, e, tape, rest);
    }

    /** The challenger e, just enabled, ends the aura that holds its single-aura category and takes
        the category over. */
    method TakeOver(e: nat, ctx: Context, tape: seq<Command>) returns (rest: seq<Command>)
      requires e < |cfg.effects| && Inv(cfg, Snap(), Taking(cfg, ctx, e)) && OpenOk(cfg, ctx)
      requires enabled[e] && cfg.effects[e].aura in ctx.busy && cfg.categories[cfg.effects[e].category].singleAura
      requires cfg.effects[e].category in ctx.settling ==> cfg.effects[e].category in spoiled
      requires var w := winner[cfg.effects[e].category]; w != NO_EFFECT && OnlyTwo(cfg, Arena(), e, w, ctx)
      requires var w := winner[cfg.effects[e].category]; HolderIsActive(cfg, Snap(), e, w, ctx)
      modifies this
      ensures Inv(cfg, Snap(), ctx)
      ensures Ran(cfg, old(Snap()), Snap(), ctx, ClaimsOf(cfg, ctx, cfg.effects[e].aura), tape, rest)
      ensures PlainTape(cfg, tape) ==>
                && Calm(cfg, old(Arena()), Arena(), ctx, {}) && winner[cfg.effects[e].category] == e
                && OthersUp(cfg, old(Arena()), Arena(), old(HolderOf(cfg, winner, e)))
      ensures var o := Ref.Ended(cfg, old(Core()), ctx.busy, cfg.effects[old(winner)[cfg.effects[e].category]].aura, tape);
              Ref.Outcome(Core(), rest) == Ref.HandedTo(cfg, o.core, ctx.busy, cfg.effects[e].category, e, o.rest)
      decreases Weight(tape), 1, |ActiveSet(active)|, 4
    {
      hide Inv, Ran, PlainTape, WinnerOk, LedgerIn, OnlyTwo, HolderIsActive, Calm, SameSurplus, OthersUp, Taking, Works, ClaimsOf, Within, Weight, Ref.HandedTo, Ref.Ended, Ref.CoreOf;
      ghost var s1, reach := Snap(), ClaimsOf(cfg, ctx, cfg.effects[e].aura);
      InvShape(cfg, s1, Taking(cfg, ctx, e));
      var c := cfg.effects[e].category;
      rest := EndHolder(e, ctx, tape);
      ghost var s2, mid := Snap(), rest;
      RanKept(cfg, s1, s2, ctx, reach, tape, mid);
      rest := SetActive(c, e, ctx, false, rest);
      OwnBidWithin(cfg, ctx, e);
      WithinItself(reach);
      RanOn(cfg, s1, s2, Snap(), ctx, reach, Works(cfg, ctx, {c}), reach, tape, mid, rest);
      InvShape(cfg, Snap(), ctx);
      if PlainTape(cfg, tape) {
        HandoverIsCalm(cfg, s1.bids, s2.bids, Arena(), ctx, ctx);
        UpAfterHandover(cfg, s1.bids, s2.bids, Arena(), HolderOf(cfg, s1.bids.winner, e));
      }
    }

    /** The holder of the category that e is taking over ends. */
    method EndHolder(e: nat, ctx: Context, tape: seq<Command>) returns (rest: seq<Command>)
      requires e < |cfg.effects| && Inv(cfg, Snap(), Taking(cfg, ctx, e)) && OpenOk(cfg, ctx)
      requires enabled[e] && cfg.effects[e].aura in ctx.busy && cfg.categories[cfg.effects[e].category].singleAura
      requires cfg.effects[e].category in ctx.settling ==> cfg.effects[e].category in spoiled
      requires var w := winner[cfg.effects[e].category]; w != NO_EFFECT && OnlyTwo(cfg, Arena(), e, w, ctx)
      requires var w := winner[cfg.effects[e].category]; HolderIsActive(cfg, Snap(), e, w, ctx)
      modifies this
      ensures Inv(cfg, Snap(), Settling(ctx, cfg.effects[e].category))
      ensures Ran(cfg, old(Snap()), Snap(), ctx, ClaimsOf(cfg, ctx, cfg.effects[e].aura), tape, rest)
      ensures enabled[e] && (cfg.effects[e].category in ctx.settling ==> cfg.effects[e].category in spoiled)
      ensures var c := cfg.effects[e].category;
              c !in spoiled ==> LedgerIn(cfg, Arena(), winner[c], c) && WinnerOk(cfg, Arena(), e, c, ctx.open)
      ensures PlainTape(cfg, tape) ==>
                Calm(cfg, old(Arena()), Arena(), ctx, {}) && OthersUp(cfg, old(Arena()), Arena(), old(HolderOf(cfg, winner, e)))
      ensures Ref.Outcome(Core(), rest) == Ref.Ended(cfg, old(Core()), ctx.busy, cfg.effects[old(winner)[cfg.effects[e].category]].aura, tape)
      decreases Weight(tape), 1, |ActiveSet(active)|, 3
    {
      hide Inv, Ran, Kept, PlainTape, WinnerOk, LedgerIn, OnlyTwo, HolderIsActive, Calm, SameSurplus, OthersUp, ClaimsOf, Taking, Within, Weight, Foreseen, Ref.Ended, Ref.CoreOf;
      ghost var s1, reach := Snap(), ClaimsOf(cfg, ctx, cfg.effects[e].aura);
      ghost var taking := Taking(cfg, ctx, e);
      InvShape(cfg, s1, taking);
      var w := winner[cfg.effects[e].category];
      rest := EndWithin(w, e, ctx, tape);
      InvShape(cfg, Snap(), taking);
      RanKept(cfg, s1, Snap(), taking, reach, tape, rest);
      CloseStep(cfg, s1, Snap(), e, w, ctx);
      WithinItself(reach);
      RanUnder(cfg, s1, Snap(), taking, ctx, reach, reach, tape, rest);
      if PlainTape(cfg, tape) {
        CalmAnyway(cfg, s1.bids, Arena(), taking, ctx, {});
        OnlyHolderDown(cfg, s1, Snap(), Arena(), cfg.effects[w].aura);
      }
    }

    /** The aura of the effect w, if it is active, is deactivated while e takes w's category over; all its
        callbacks, its OnExpire too, run within the take-over and read one tape. */
    method EndWithin(w: nat, e: nat, ctx: Context, tape: seq<Command>) returns (rest: seq<Command>)
      requires e < |cfg.effects| && Inv(cfg, Snap(), Taking(cfg, ctx, e)) && Registered(cfg)
      requires InCategory(cfg, w, cfg.effects[e].category) && cfg.categories[cfg.effects[e].category].singleAura
      requires cfg.effects[w].aura < |cfg.auras|
      modifies this
      ensures Inv(cfg, Snap(), Taking(cfg, ctx, e))
      ensures Ran(cfg, old(Snap()), Snap(), Taking(cfg, ctx, e), ClaimsOf(cfg, ctx, cfg.effects[e].aura), tape, rest)
      ensures old(active[cfg.effects[w].aura]) ==>
                forall f :: (0 <= f < |cfg.effects| && cfg.effects[f].aura == cfg.effects[w].aura
                             && Closed(cfg, Taking(cfg, ctx, e).busy, cfg.effects[f].category)
                             && cfg.effects[f].category !in crowded) ==> !enabled[f]
      ensures PlainTape(cfg, tape) ==> Calm(cfg, old(Arena()), Arena(), Taking(cfg, ctx, e), {})
      ensures PlainTape(cfg, tape) ==>
                if old(active[cfg.effects[w].aura])
                then forall f :: 0 <= f < |cfg.effects| ==> enabled[f] == (old(enabled)[f] && cfg.effects[f].aura != cfg.effects[w].aura)
                else enabled == old(enabled)
      ensures Ref.Outcome(Core(), rest) == Ref.Ended(cfg, old(Core()), ctx.busy, cfg.effects[w].aura, tape)
      decreases Weight(tape), 1, |ActiveSet(active)|, 2
    {
      hide Inv, Ran, Kept, PlainTape, Calm, ClaimsOf, Fades, Works, Within, Weight, Taking, Ref.Ended, Ref.Gone, Ref.Callback, Ref.CoreOf;
      ghost var s0, reach := Snap(), ClaimsOf(cfg, ctx, cfg.effects[e].aura);
      ghost var taking := Taking(cfg, ctx, e);
      InvShape(cfg, s0, taking);
      var h := cfg.effects[w].aura;
      CalmStill(cfg, s0.bids, taking, {});
      if !active[h] {
        RanStill(cfg, s0, taking, reach, tape);
        Ref.EndedBy(cfg, s0, s0, s0, ctx.busy, h, tape, tape, tape);
        return tape;
      }
      rest := Fade(h, Taking(cfg, ctx, e), tape);
      ghost var s1, mid := Snap(), rest;
      RanKept(cfg, s0, s1, taking, Fades(cfg, taking, h), tape, mid);
      rest := RunCallback(Taking(cfg, ctx, e), rest);
      InvShape(cfg, Snap(), taking);
      HolderWithin(cfg, ctx, e, w);
      RanKept(cfg, s1, Snap(), taking, Works(cfg, taking, {}), mid, rest);
      RanOn(cfg, s0, s1, Snap(), taking, Fades(cfg, taking, h), Works(cfg, taking, {}), reach, tape, mid, rest);
      StaysDown(cfg, s1, Snap(), taking, h);
      Ref.EndedBy(cfg, s0, s1, Snap(), ctx.busy, h, tape, mid, rest);
    }

    /** Activates an aura: refreshes a running one; otherwise its exclusive effects bid in turn, and
        if one is blocked the earlier ones are taken back and the aura does not land. */
    method Activate(a: nat, ctx: Context, during: seq<Command>, after: seq<Command>) returns (landed: bool)
      requires Inv(cfg, Snap(), ctx) && a < |cfg.auras| && (active[a] || a !in ctx.busy)
      modifies this
      ensures Inv(cfg, Snap(), ctx)
      ensures Ran(cfg, old(Snap()), Snap(), ctx, Works(cfg, ctx, {}), [Command(Op.Activate(a), during, after)], [])
      ensures SparesOthers(cfg, ctx, [Command(Op.Activate(a), during, after)], old(Arena()), Arena())
      ensures !landed ==> !active[a] && forall e :: 0 <= e < |cfg.effects| && cfg.effects[e].aura == a ==> !enabled[e]
      ensures old(active[a]) ==>
                landed && log == old(log) && active == old(active) && Arena() == old(Arena()) && expires[a] == Fresh(a)
      ensures landed && !old(active[a]) ==> exists p :: |old(log)| <= p < |log| && log[p] == Gain(a, Fresh(a))
      ensures landed && after == [] ==> active[a] && expires[a] == Fresh(a)
      ensures cfg.auras[a].effects == [] && a !in MayEnd(after) ==> active[a]
      ensures PlainTape(cfg, during) && PlainTape(cfg, after) ==>
                Calm(cfg, old(Arena()), Arena(), ctx, {a}) && (cfg.auras[a].effects == [] ==> Arena() == old(Arena()))
      ensures landed && PlainTape(cfg, during) && PlainTape(cfg, after) ==>
                forall e :: 0 <= e < |cfg.effects| && cfg.effects[e].aura == a ==> enabled[e]
      ensures |cfg.auras[a].effects| == 1 && cfg.auras[a].effects[0] < |cfg.effects| && !old(active[a]) ==>
                var e := cfg.auras[a].effects[0];
                && landed == !old(Blocks(e))
                && (!landed ==> Arena() == old(Arena()))
                && (landed && PlainTape(cfg, during) && PlainTape(cfg, after) ==> HoldsAfter(cfg, e, old(Takes(e)), old(Arena()), Arena()))
      ensures Core() == Ref.Activated(cfg, old(Core()), ctx.busy, a, during, after)
      decreases Weight(during) + Weight(after), 3, 0, 0
    {
      hide Inv, Ran, Kept, PlainTape, Calm, Weight, Works, ClaimsOf, MayEnd, SparesOthers, Ref.Activated, Ref.AuraBid, Ref.Callback, Ref.CoreOf, Ref.Landed, Ref.Refreshed, HoldsAfter;
      ghost var s0, command := Snap(), Command(Op.Activate(a), during, after);
      InvShape(cfg, s0, ctx);
      CalmStill(cfg, s0.bids, ctx, {a});
      if active[a] {
        this.Refresh(a);
        ExpiryStep(cfg, s0, Snap(), ctx, a);
        CommandUnmoved(cfg, s0, Snap(), ctx, command);
        ActiveBids(cfg, s0, ctx, a);
        RanSpares(cfg, s0, Snap(), ctx, [command], []);
        Ref.RefreshedOnly(cfg, s0, ctx.busy, a, during, after);
        return true;
      }
      var rest;
      landed, rest := Bid(a, ctx, during);
      ghost var s1 := Snap();
      RanShape(cfg, s0, s1, ctx, ClaimsOf(cfg, ctx, a), during, rest);
      if landed {
        ghost var ev := Gain(a, Fresh(a));
        Land(a, ctx);
        ghost var s2 := Snap();
        // the aura's state is consistent before OnGain runs
        var last := RunCallback(ctx, after);
        NothingFromNothing();
        AfterLanding(cfg, s0, s1, s2, Snap(), ctx, a, ev, command, rest, last);
        Ref.ActivatedBy(cfg, s0, s1, s2, Snap(), ctx.busy, a, landed, during, after, rest, last);
        InvShape(cfg, Snap(), ctx);
        assert after == [] ==> Snap() == s2;
      } else {
        AfterBlocking(cfg, s0, s1, ctx, a, command, rest);
        Ref.ActivatedBy(cfg, s0, s1, s1, s1, ctx.busy, a, landed, during, after, rest, rest);
      }
      RanSpares(cfg, s0, Snap(), ctx, [command], []);
    }

    lemma HoldsAfterBid(e: nat, ctx: Context, before: Bids)
      requires Registered(cfg) && e < |cfg.effects| && BidsShape(cfg, before) && BidsShape(cfg, Arena()) && OpenOk(cfg, ctx)
      ensures forall takes: bool ::
                && winner[cfg.effects[e].category] == (if takes then e else before.winner[cfg.effects[e].category])
                && OthersUp(cfg, Bidding(cfg, before, e, ctx), Arena(), HolderOf(cfg, before.winner, e)) ==>
                  HoldsAfter(cfg, e, takes, before, Arena())
    {
    }

    /** The expiry an activation or a refresh sets. */
    function Fresh(a: nat): int
      requires a < |cfg.auras|
      reads this
    {
      if Permanent(cfg.auras[a]) then NEVER_EXPIRES else now + cfg.auras[a].duration
    }

    /** The exclusive effects of an inactive aura bid in turn; if one is blocked, the earlier bids are taken
        back. */
    method Bid(a: nat, ctx: Context, tape: seq<Command>) returns (landed: bool, rest: seq<Command>)
      requires Inv(cfg, Snap(), ctx) && a < |cfg.auras| && !active[a] && a !in ctx.busy
      modifies this
      ensures Inv(cfg, Snap(), if landed then Entering(ctx, a) else ctx) && OpenOk(cfg, ctx)
      ensures Ran(cfg, old(Snap()), Snap(), ctx, ClaimsOf(cfg, ctx, a), tape, rest)
      ensures cfg.auras[a].effects == [] ==> landed
      ensures !active[a] && forall e :: 0 <= e < |cfg.effects| && cfg.effects[e].aura == a ==> enabled[e] == landed
      ensures PlainTape(cfg, tape) ==>
                Calm(cfg, old(Arena()), Arena(), ctx, {a}) && (cfg.auras[a].effects == [] ==> Arena() == old(Arena()))
      ensures |cfg.auras[a].effects| == 1 && cfg.auras[a].effects[0] < |cfg.effects| ==>
                var e := cfg.auras[a].effects[0];
                && landed == !old(Blocks(e))
                && (!landed ==> Arena() == old(Arena()))
                && (landed && PlainTape(cfg, tape) ==> HoldsAfter(cfg, e, old(Takes(e)), old(Arena()), Arena()))
      ensures Ref.BidOutcome(landed, Core(), rest) == Ref.AuraBid(cfg, old(Core()), ctx.busy + {a}, a, tape)
      decreases Weight(tape), 2, 2, 0
    {
      hide Inv, Ran, PlainTape, BiddenTo, Calm, ClaimsOf, Withdraws, Within, Weight, Ref.AuraBid, Ref.BidsFrom, Ref.EffectsEnded, Ref.CoreOf;
      ghost var s0 := Snap();
      var inner := Entering(ctx, a);
      BidsBegin(cfg, s0, ctx, a, tape);
      var i;
      landed, i, rest := BidInTurn(a, ctx, tape);
      ghost var s2, mid := Snap(), rest;
      BidsEnd(cfg, s0, s2, ctx, a, i, tape, mid);
      RanKept(cfg, s0, s2, ctx, ClaimsOf(cfg, ctx, a), tape, mid);
      if !landed {
        rest := EffectsDeactivate(a, i, inner, rest);
        EffectsEnded(cfg, s2, Snap(), ctx, a, i, mid, rest);
        ClaimsFromOutside(cfg, ctx, a);
        WithinItself(ClaimsOf(cfg, ctx, a));
        RanOn(cfg, s0, s2, Snap(), ctx, ClaimsOf(cfg, ctx, a), Withdraws(cfg, ctx, a), ClaimsOf(cfg, ctx, a), tape, mid, rest);
      } else {
        CalmStill(cfg, s2.bids, inner, {});
      }
      Ref.AuraBidBy(cfg, s0, s2, Snap(), inner.busy, a, landed, i, tape, mid, rest);
      if PlainTape(cfg, tape) {
        BidsTakenBack(cfg, s0.bids, s2.bids, Arena(), ctx, a);
      }
    }

    /** The bids in turn, up to the first that is blocked. */
    method BidInTurn(a: nat, ctx: Context, tape: seq<Command>) returns (landed: bool, i: nat, rest: seq<Command>)
      requires Inv(cfg, Snap(), ctx) && a < |cfg.auras| && !active[a] && a !in ctx.busy
      modifies this
      ensures Inv(cfg, Snap(), Entering(ctx, a)) && BiddenTo(cfg, old(Snap()), Snap(), Entering(ctx, a), a, i, tape, rest)
      ensures Weight(rest) <= Weight(tape) && i <= |cfg.auras[a].effects| && (landed <==> i == |cfg.auras[a].effects|)
      ensures PlainTape(cfg, tape) ==> Calm(cfg, old(Arena()), Arena(), Entering(ctx, a), {a})
      ensures cfg.auras[a].effects == [] ==> landed && Snap() == old(Snap())
      ensures |cfg.auras[a].effects| == 1 && cfg.auras[a].effects[0] < |cfg.effects| ==>
                var e := cfg.auras[a].effects[0];
                && landed == !old(Blocks(e))
                && (!landed ==> Arena() == old(Arena()))
                && (landed && PlainTape(cfg, tape) ==> HoldsAfter(cfg, e, old(Takes(e)), old(Arena()), Arena()))
      ensures Ref.BidsOutcome(landed, i, Core(), rest) == Ref.BidsFrom(cfg, old(Core()), ctx.busy + {a}, cfg.auras[a].effects, 0, tape)
      decreases Weight(tape), 2, 1, 0
    {
      hide Inv, Ran, PlainTape, BiddenTo, Calm, HoldsAfter, OthersUp, Bidding, Registered, ClaimsOf, Weight, Ref.EffectBid, Ref.BidsFrom, Ref.CoreOf;
      rest := tape;
      ghost var s0 := Snap();
      var inner := Entering(ctx, a);
      EnterKeepsInv(cfg, s0, ctx, a);
      BidsBegin(cfg, s0, ctx, a, tape);
      var effects := cfg.auras[a].effects;
      landed := true;
      i := 0;
      while landed && i < |effects|
        invariant 0 <= i <= |effects| && Weight(rest) <= Weight(tape)
        invariant Inv(cfg, Snap(), inner) && Shape(cfg, Snap())
        invariant BiddenTo(cfg, s0, Snap(), inner, a, i, tape, rest)
        invariant PlainTape(cfg, tape) ==> PlainTape(cfg, rest) && Calm(cfg, s0.bids, Arena(), inner, {a})
        invariant (i == 0 ==> Snap() == s0) && (!landed ==> i < |effects|)
        invariant |effects| == 1 && effects[0] < |cfg.effects| && (i == 1 || !landed) ==>
                    && landed == !old(Blocks(effects[0]))
                    && (!landed ==> i == 0)
                    && (landed && PlainTape(cfg, tape) ==> HoldsAfter(cfg, effects[0], old(Takes(effects[0])), s0.bids, Arena()))
        invariant (if landed then Ref.BidsFrom(cfg, Core(), inner.busy, effects, i, rest) else Ref.BidsOutcome(false, i, Core(), rest))
                  == Ref.BidsFrom(cfg, old(Core()), ctx.busy + {a}, effects, 0, tape)
        decreases |effects| - i, landed
      {
        var e := effects[i];
        ghost var s1, mid := Snap(), rest;
        EffectOf(cfg, s1, inner, a, i);
        StillDisabled(cfg, s0, s1, inner, a, i, tape, mid);
        landed, rest := EffectActivate(e, inner, rest);
        InvShape(cfg, Snap(), inner);
        Ref.BidStep(cfg, Ref.CoreOf(s1), inner.busy, effects, i, Ref.BidOutcome(landed, Core(), rest), mid);
        if landed {
          HoldsAfterBid(e, inner, s1.bids);
          NextBid(cfg, s0, s1, Snap(), inner, a, i, tape, mid, rest);
          BidIsCalm(cfg, s0.bids, s1.bids, Arena(), inner, a, i);
          i := i + 1;
        }
      }
      Ref.AllHaveBid(cfg, Core(), inner.busy, effects, rest);
    }

    /** An aura whose effects all bid becomes active and joins its lists. */
    method Land(a: nat, ghost ctx: Context)
      requires Inv(cfg, Snap(), Entering(ctx, a)) && a < |cfg.auras| && a !in ctx.busy && !active[a] && OpenOk(cfg, ctx)
      requires forall e :: 0 <= e < |cfg.effects| && cfg.effects[e].aura == a ==> enabled[e]
      modifies this
      ensures Inv(cfg, Snap(), ctx) && Kept(cfg, old(Snap()), Snap(), ctx) && Settled(old(Snap()), Snap())
      ensures active == old(active)[a := true] && log == old(log) + [Gain(a, Fresh(a))] && stacks == old(stacks)
      ensures expires == old(expires)[a := Fresh(a)] && now == old(now) && Arena() == old(Arena())
      ensures forall k :: 0 <= k < KINDS ==> lists[k] == if Wants(cfg, a, k) then old(lists)[k] + [a] else old(lists)[k]
      ensures Core() == Ref.Landed(cfg, old(Core()), a)
    {
      hide Inv, Kept, Settled, ListsExact, Exact;
      ghost var s1 := Snap();
      InvShape(cfg, s1, Entering(ctx, a));
      InvLists(cfg, s1, Entering(ctx, a));
      active := active[a := true];
      this.Refresh(a);
      assert active[a := false] == s1.active;
      Enlist(a);
      log := log + [Gain(a, expires[a])];
      GainStep(cfg, s1, Snap(), ctx, a);
    }

    // -------------------------------------------------------------- event dispatch

    /** An event: copies the callback list into the buffer of this nesting depth and walks the copy,
        calling each aura that is still active when its turn comes.  The n auras called have read n callbacks off
        the tape and no more, and every aura that the tape tells of is as those callbacks leave it.  Somebody is
        called if anybody is listed, and everybody if no command may end an aura listed. */
    method Fire(k: nat, ctx: Context, tape: seq<Command>) returns (rest: seq<Command>)
      requires Inv(cfg, Snap(), ctx) && 1 <= k < KINDS
      modifies this
      ensures Inv(cfg, Snap(), ctx)
      ensures Ran(cfg, old(Snap()), Snap(), ctx, Works(cfg, ctx, {}), tape, rest)
      ensures SparesOthers(cfg, ctx, tape, old(Arena()), Arena())
      ensures TurnsAt(log, depth) == TurnsAt(old(log), depth) + WalkOf(k, old(lists[k]))
      ensures PlainTape(cfg, tape) ==> Arena() == old(Arena())
      ensures CallsAt(old(log), depth) <= CallsAt(log, depth)
      ensures Answered(cfg, ctx, old(Snap()), Snap(), old(lists[k]), |old(lists[k])|, CallsAt(log, depth) - CallsAt(old(log), depth), tape, rest)
      ensures Ref.Outcome(Core(), rest) == Ref.Walk(cfg, old(Core()), ctx.busy, old(lists[k]), tape)
      decreases Weight(tape), 3, 0, 0
    {
      hide Inv, Kept, Settled, Walked, TurnsAt, CallsAt, WalkOf, PlainTape, Foreseen, Works, Suffix, Weight, SparesOthers, Answered,
           Ref.Walk, Ref.Called, Ref.CoreOf;
      ghost var s0 := Snap();
      InvShape(cfg, s0, ctx);
      ListedIsActive(cfg, s0, ctx, k);
      var d := depth;
      var n := |lists[k]|;
      ghost var walk := lists[k];
      if d == |buffers| {
        buffers := buffers + [[]];
      }
      buffers := buffers[d := lists[k]];
      depth := d + 1;
      WalkBegins(cfg, s0, Snap(), ctx, k, walk);
      Ref.SameCore(s0, Snap());
      AnsweredYet(cfg, ctx, s0, Snap(), walk, tape);
      rest := tape;
      ForeseenStill(cfg, s0, Snap(), Works(cfg, ctx, {}), tape);
      var i := 0;
      ghost var calls := 0;
      assert walk[0..] == walk;
      while i < n
        invariant 0 <= i <= n && Weight(rest) <= Weight(tape) && Suffix(rest, tape)
        invariant Foreseen(cfg, s0, Snap(), Works(cfg, ctx, {}), tape)
        invariant Inv(cfg, Snap(), ctx)
        invariant Walked(cfg, s0, Snap(), ctx, k, walk, i)
        invariant PlainTape(cfg, tape) ==> PlainTape(cfg, rest) && Arena() == s0.bids
        invariant Answered(cfg, ctx, s0, Snap(), walk, i, calls, tape, rest) && (i == 0 ==> active == s0.active)
        invariant CallsAt(log, d) == CallsAt(s0.log, d) + calls
        invariant Ref.Walk(cfg, Core(), ctx.busy, walk[i..], rest) == Ref.Walk(cfg, old(Core()), ctx.busy, walk, tape)
      {
        ghost var s1, mid := Snap(), rest;
        WalkReads(cfg, s0, s1, ctx, k, walk, i);
        ghost var called := active[walk[i]];
        rest := TakeTurn(k, i, ctx, s0, walk, rest);
        AnsweredNext(cfg, ctx, s0, s1, Snap(), walk, i, calls, called, tape, mid, rest);
        calls := calls + if called then 1 else 0;
        Ref.WalkStep(cfg, Ref.CoreOf(s1), Core(), ctx.busy, walk, i, mid, rest);
        TurnForeseen(cfg, s0, s1, Snap(), ctx, tape, mid, rest);
        i := i + 1;
      }
      ghost var s2 := Snap();
      assert walk[n..] == [];
      Ref.WalkEnds(cfg, Core(), ctx.busy, rest);
      WalkEnds(cfg, s0, s2, ctx, k, walk);
      depth := depth - 1;
      Ref.SameCore(s2, Snap());
      AnsweredAnyway(cfg, ctx, s0, s2, Snap(), walk, n, calls, tape, rest);
      ForeseenAround(cfg, s0, s0, s2, Snap(), Works(cfg, ctx, {}), tape);
      RanSpares(cfg, s0, Snap(), ctx, tape, rest);
    }

    /** The i-th turn of an event that fired in state s0: the aura is called if it is still active. */
    method TakeTurn(k: nat, i: nat, ctx: Context, ghost s0: State, ghost walk: seq<nat>, tape: seq<Command>) returns (rest: seq<Command>)
      requires Inv(cfg, Snap(), ctx) && Walked(cfg, s0, Snap(), ctx, k, walk, i) && i < |walk|
      modifies this
      ensures Inv(cfg, Snap(), ctx) && Walked(cfg, s0, Snap(), ctx, k, walk, i + 1)
      ensures Suffix(rest, tape) && Foreseen(cfg, old(Snap()), Snap(), Works(cfg, ctx, {}), tape)
      ensures Weight(rest) <= Weight(tape) && (PlainTape(cfg, tape) ==> PlainTape(cfg, rest) && Arena() == old(Arena()))
      ensures walk[i] < |old(active)| && depth == s0.depth + 1
      ensures CallsAt(log, s0.depth) == old(CallsAt(log, s0.depth)) + if old(active)[walk[i]] then 1 else 0
      ensures rest == if old(active)[walk[i]] then PastCallback(tape) else tape
      ensures if old(active)[walk[i]] then Told(cfg, ctx, old(Snap()), Snap(), tape) else active == old(active)
      ensures Ref.Outcome(Core(), rest) == Ref.Called(cfg, old(Core()), ctx.busy, walk[i], tape)
      decreases Weight(tape), 2, 0, 0
    {
      hide Inv, Ran, Kept, Settled, Walked, PlainTape, Foreseen, Works, Suffix, Weight, CallsAt, Told, Ref.Called, Ref.Callback, Ref.CoreOf;
      ghost var s1 := Snap();
      WalkReads(cfg, s0, s1, ctx, k, walk, i);
      var a := buffers[depth - 1][i];
      var called := active[a];
      TurnStep(cfg, s0, s1, ctx, k, walk, i, called);
      log := log + [Turn(depth - 1, k, a, called)];
      ghost var s2 := Snap();
      InvShape(cfg, s2, ctx);
      RanStill(cfg, s2, ctx, Works(cfg, ctx, {}), tape);
      rest := tape;
      if called {
        rest := RunCallback(ctx, tape);
      }
      RanKept(cfg, s2, Snap(), ctx, Works(cfg, ctx, {}), tape, rest);
      ForeseenAround(cfg, s1, s2, Snap(), Snap(), Works(cfg, ctx, {}), tape);
      NestedStep(cfg, s0, s2, Snap(), ctx, k, walk, i + 1);
      WalkDepth(cfg, s0, Snap(), ctx, k, walk, i + 1);
      TurnCounts(cfg, s1, s2, Snap(), ctx, s0.depth, k, a, called);
      ToldAnyway(cfg, ctx, s1, s2, Snap(), tape);
      Ref.CalledBy(cfg, s1, s2, Snap(), ctx.busy, a, tape, rest);
    }


    // -------------------------------------------------------------- time and iterations

    /** Deactivates an active aura between operations.  The list holds a Deactivate command for each ending to
        come, with the tapes of its callbacks; the first one for this aura is taken off it, and if there is none
        the aura ends without callbacks. */
    method EndNext(a: nat, endings: seq<Command>) returns (rest: seq<Command>)
      requires Inv(cfg, Snap(), IDLE) && a < |cfg.auras| && active[a]
      modifies this
      ensures Inv(cfg, Snap(), IDLE) && Kept(cfg, old(Snap()), Snap(), IDLE) && Settled(old(Snap()), Snap())
      ensures !Overdue(active, expires, now, a) && OneEnd(cfg, old(Snap()), Snap(), a, endings, rest)
    {
      hide Inv, Ran, Kept, Settled, Marks, MayActivate, MayClash, BringsLess, Spared, Ref.CoreOf, Ref.Deactivated;
      ghost var s0 := Snap();
      var i := NextEnding(endings, a);
      NothingFromNothing();
      if i < |endings| {
        this.Deactivate(a, IDLE, endings[i].during, endings[i].after);
        AuraEnded(cfg, s0, Snap(), a, endings, i);
        return endings[..i] + endings[i + 1..];
      }
      this.Deactivate(a, IDLE, [], []);
      AuraEndedQuietly(cfg, s0, Snap(), a);
      KeptShape(cfg, s0, Snap(), IDLE);
      QuietEnd(cfg, s0, Snap(), a, endings);
      return endings;
    }

    /** Deactivates every overdue aura and caches the earliest expiry that is left.  Each deactivation
        restarts the scan, since callbacks change the list; it ends because every restart leaves
        fewer overdue auras.  Whoever is lost was due, or a callback may have ended it; without callbacks exactly
        those due are gone, and nobody else is touched. */
    method Advance(endings: seq<Command>)
      requires Inv(cfg, Snap(), IDLE)
      modifies this
      ensures Inv(cfg, Snap(), IDLE) && Undisturbed(cfg, old(Snap()), Snap())
      ensures forall a :: 0 <= a < |cfg.auras| && active[a] && !Permanent(cfg.auras[a]) ==> now < expires[a]
      ensures MinExpiresLow(cfg, active, expires, minExpires)
      ensures minExpires == NEVER_EXPIRES ||
              exists a :: 0 <= a < |cfg.auras| && active[a] && !Permanent(cfg.auras[a]) && expires[a] == minExpires
      ensures Marks(old(Arena()), Arena()) <= MayClash(cfg, endings)
      ensures forall a :: 0 <= a < |cfg.auras| && old(active)[a] && !active[a] ==>
                (!Permanent(cfg.auras[a]) && old(expires)[a] <= now) || a in CallbacksCost(cfg, endings)
      ensures forall a :: 0 <= a < |cfg.auras| && !old(active)[a] && active[a] ==> a in MayActivate(endings)
      ensures endings == [] ==> forall a :: 0 <= a < |cfg.auras| ==>
                && (active[a] <==> old(active)[a] && (Permanent(cfg.auras[a]) || now < old(expires)[a]))
                && (active[a] ==> expires[a] == old(expires)[a])
      ensures Ends(Due, cfg, old(Core()), endings, Core())
    {
      hide Inv, Undisturbed, Scanned, Kept, Settled, Marks, MayClash, CallbacksCost, MayActivate, Ending, OneEnd, Spared, Ends, Picks, Ref.CoreOf;
      var rest := endings;
      ghost var s0 := Snap();
      ghost var ended: seq<nat> := [];
      ghost var due := DueIn(cfg, s0);
      NothingDisturbed(cfg, s0);
      EndingBegins(Due, cfg, s0, due, endings);
      var restart := true;
      while restart
        invariant Inv(cfg, Snap(), IDLE) && Undisturbed(cfg, s0, Snap())
        invariant Shape(cfg, Snap()) && (!restart ==> Scanned(cfg, Snap(), |lists[0]|))
        invariant Ending(Due, cfg, s0, Snap(), due, endings, rest, ended)
        decreases |OverdueSet(active, expires, now)|, restart
      {
        restart := false;
        ScanStarts(cfg, s0, Snap());
        EndingStill(Due, cfg, s0, Snap(), NEVER_EXPIRES, due, endings, rest, ended);
        minExpires := NEVER_EXPIRES;
        var i := 0;
        ghost var s1 := Snap();
        while i < |lists[0]|
          invariant |lists| == KINDS && 0 <= i <= |lists[0]| && Shape(cfg, Snap())
          invariant Inv(cfg, Snap(), IDLE) && Undisturbed(cfg, s0, Snap())
          invariant Snap() == s1.(minExpires := minExpires) && Scanned(cfg, Snap(), i)
          invariant Ending(Due, cfg, s0, Snap(), due, endings, rest, ended)
        {
          var a := lists[0][i];
          ghost var s2, before := Snap(), rest;
          Listed(cfg, s2, 0, i);
          if expires[a] <= now {
            FirstDueIsPicked(cfg, s0, s2, i);
            rest := EndNext(a, rest);
            OverdueFalls(cfg, s0, s2, Snap(), a);
            EndingOn(Due, cfg, s0, s2, Snap(), due, endings, before, rest, ended, a);
            ended := ended + [a];
            restart := true;
            break;
          }
          ScanStep(cfg, s0, s2, i);
          EndingStill(Due, cfg, s0, s2, if expires[a] < minExpires then expires[a] else minExpires, due, endings, rest, ended);
          if expires[a] < minExpires {
            minExpires := expires[a];
          }
          i := i + 1;
        }
      }
      ScanComplete(cfg, Snap());
      NobodyDue(cfg, Snap());
      EndingEnds(Due, cfg, s0, Snap(), due, endings, rest, ended);
      UndisturbedSettles(cfg, s0, Snap());
      WhoIsLost(cfg, s0, Snap(), due, endings);
      OnlyDueLost(cfg, s0, Snap());
    }

    /** The cheap check before a scan: nothing is due before the cached minimum, so skipping the scan answers as
        the scan would. */
    method TryAdvance(endings: seq<Command>) returns (next: int)
      requires Inv(cfg, Snap(), IDLE) && MinExpiresLow(cfg, active, expires, minExpires)
      modifies this
      ensures Inv(cfg, Snap(), IDLE) && Undisturbed(cfg, old(Snap()), Snap())
      ensures forall a :: 0 <= a < |cfg.auras| && active[a] && !Permanent(cfg.auras[a]) ==> now < expires[a]
      ensures MinExpiresLow(cfg, active, expires, minExpires) && next == minExpires
      ensures old(now < minExpires) ==> Snap() == old(Snap())
      ensures Marks(old(Arena()), Arena()) <= MayClash(cfg, endings)
      ensures forall a :: 0 <= a < |cfg.auras| && old(active)[a] && !active[a] ==>
                (!Permanent(cfg.auras[a]) && old(expires)[a] <= now) || a in CallbacksCost(cfg, endings)
      ensures forall a :: 0 <= a < |cfg.auras| && !old(active)[a] && active[a] ==> a in MayActivate(endings)
      ensures endings == [] ==> forall a :: 0 <= a < |cfg.auras| ==>
                && (active[a] <==> old(active)[a] && (Permanent(cfg.auras[a]) || now < old(expires)[a]))
                && (active[a] ==> expires[a] == old(expires)[a])
      ensures Ends(Due, cfg, old(Core()), endings, Core())
    {
      hide Inv, Undisturbed, Marks, MayClash, CallbacksCost, MayActivate, Ends, Ref.CoreOf;
      ghost var s0 := Snap();
      NothingDisturbed(cfg, s0);
      NothingMarked(Arena());
      if now < minExpires {
        NothingDueYet(cfg, s0, endings);
        return minExpires;
      }
      Advance(endings);
      next := minExpires;
    }

    /** Deactivates auras that may expire until none is left; permanent ones stay, unless a callback
        ends them. */
    method ExpireAll(endings: seq<Command>)
      requires Inv(cfg, Snap(), IDLE)
      modifies this
      ensures Inv(cfg, Snap(), IDLE) && Undisturbed(cfg, old(Snap()), Snap())
      ensures forall a :: 0 <= a < |cfg.auras| && active[a] ==> Permanent(cfg.auras[a])
      ensures MinExpiresLow(cfg, active, expires, minExpires) && minExpires == NEVER_EXPIRES
      ensures Marks(old(Arena()), Arena()) <= MayClash(cfg, endings)
      ensures forall a :: 0 <= a < |cfg.auras| && old(active)[a] && !active[a] ==>
                !Permanent(cfg.auras[a]) || a in CallbacksCost(cfg, endings)
      ensures forall a :: 0 <= a < |cfg.auras| && !old(active)[a] && active[a] ==> a in MayActivate(endings)
      ensures endings == [] ==> forall a :: 0 <= a < |cfg.auras| ==>
                (active[a] <==> old(active)[a] && Permanent(cfg.auras[a])) && (active[a] ==> expires[a] == old(expires)[a])
      ensures Ends(Mortal, cfg, old(Core()), endings, Core())
    {
      hide Inv, Undisturbed, Kept, Settled, Marks, MayClash, CallbacksCost, MayActivate, Ending, OneEnd, Spared, Ends, Ref.CoreOf;
      var rest := endings;
      ghost var s0 := Snap();
      ghost var ended: seq<nat> := [];
      ghost var all := Mortals(cfg);
      NothingDisturbed(cfg, s0);
      EndingBegins(Mortal, cfg, s0, all, endings);
      while lists[0] != []
        invariant Inv(cfg, Snap(), IDLE) && Undisturbed(cfg, s0, Snap()) && Shape(cfg, Snap())
        invariant Ending(Mortal, cfg, s0, Snap(), all, endings, rest, ended)
        decreases |rest|, |ActiveSet(active)|
      {
        var a := lists[0][0];
        Listed(cfg, Snap(), 0, 0);
        ghost var s1, before := Snap(), rest;
        FirstListedIsPicked(cfg, s1);
        rest := EndNext(a, rest);
        UndisturbedStep(cfg, s0, s1, Snap(), IDLE);
        EndingOn(Mortal, cfg, s0, s1, Snap(), all, endings, before, rest, ended, a);
        ended := ended + [a];
        FewerAfter(cfg, s1, Snap(), a, before, rest);
      }
      NoneListed(cfg, Snap());
      NobodyPicked(Mortal, cfg, Snap());
      EndingEnds(Mortal, cfg, s0, Snap(), all, endings, rest, ended);
      WhoIsLost(cfg, s0, Snap(), all, endings);
      Ref.SameCore(Snap(), Snap().(minExpires := NEVER_EXPIRES));
      MinExpiresFree(cfg, s0, Snap());
      minExpires := NEVER_EXPIRES;
    }

    /** Deactivates every aura, permanent ones too, starting over after each. */
    method DeactivateAll(endings: seq<Command>)
      requires Inv(cfg, Snap(), IDLE)
      modifies this
      ensures Inv(cfg, Snap(), IDLE) && Undisturbed(cfg, old(Snap()), Snap()) && NobodyActive(Snap())
      ensures Marks(old(Arena()), Arena()) <= MayClash(cfg, endings)
      ensures Ends(Anybody, cfg, old(Core()), endings, Core())
    {
      hide Inv, Undisturbed, Kept, Settled, Marks, MayClash, Ending, OneEnd, Spared, Ends, Ref.CoreOf;
      var rest := endings;
      ghost var s0 := Snap();
      ghost var ended: seq<nat> := [];
      ghost var all := Everyone(cfg);
      NothingDisturbed(cfg, s0);
      EndingBegins(Anybody, cfg, s0, all, endings);
      var i := 0;
      while i < |cfg.auras|
        invariant 0 <= i <= |cfg.auras| == |active|
        invariant Inv(cfg, Snap(), IDLE) && Undisturbed(cfg, s0, Snap())
        invariant forall b :: 0 <= b < i ==> !active[b]
        invariant Ending(Anybody, cfg, s0, Snap(), all, endings, rest, ended)
        decreases |rest|, |ActiveSet(active)|, |cfg.auras| - i
      {
        if active[i] {
          ghost var s1, before := Snap(), rest;
          FirstActiveIsPicked(s1, i);
          rest := EndNext(i, rest);
          UndisturbedStep(cfg, s0, s1, Snap(), IDLE);
          EndingOn(Anybody, cfg, s0, s1, Snap(), all, endings, before, rest, ended, i);
          ended := ended + [i];
          FewerAfter(cfg, s1, Snap(), i, before, rest);
          i := 0;
        } else {
          i := i + 1;
        }
      }
      InvShape(cfg, Snap(), IDLE);
      NobodyPicked(Anybody, cfg, Snap());
      EndingEnds(Anybody, cfg, s0, Snap(), all, endings, rest, ended);
    }

    /** The end of an iteration: every aura is deactivated, permanent ones too, and then each checks that it
        is inactive and without stacks before its OnDoneIteration runs.  The check panics exactly if the
        OnDoneIteration of an aura checked before has activated the aura and nothing has ended it since: so
        it does not if no callback activates a later aura, and where the callbacks' scripts tell which auras
        they leave active, they tell whether it does. */
    method DoneIteration(endings: seq<Command>, scripts: seq<seq<Command>>) returns (panicked: bool, ghost from: nat)
      requires Inv(cfg, Snap(), IDLE)
      modifies this
      ensures Inv(cfg, Snap(), IDLE) && Undisturbed(cfg, old(Snap()), Snap())
      ensures Backward(scripts) ==> !panicked
      ensures TellingChecks(cfg, scripts) ==> (panicked <==> Catches(cfg, scripts))
      ensures !panicked ==> ScriptsTold(cfg, scripts, |cfg.auras|, active)
      ensures |old(log)| <= from <= |log|
      ensures panicked <==> CaughtActive(log, from)
      ensures !panicked ==> ChecksSince(log, from) == FirstAuras(|cfg.auras|)
      ensures panicked ==> exists i :: 0 <= i < |cfg.auras| && ChecksSince(log, from) == FirstAuras(i + 1) && active[i]
      ensures Marks(old(Arena()), Arena()) <= MayClash(cfg, endings) + ScriptsClash(cfg, scripts)
      ensures !panicked ==> IterationEnds(cfg, old(Core()), endings, scripts, Core())
    {
      hide Inv, Undisturbed, Kept, Settled, CaughtActive, ChecksSince, Marks, MayClash, ScriptsClash, Backward, ScriptsTold,
           TellingChecks, Catches, Standing, Checked, Told, Foreseen, Ends, Scripted, Ref.CoreOf, Ref.Callback;
      ghost var s0 := Snap();
      ghost var all := MayClash(cfg, endings) + ScriptsClash(cfg, scripts);
      DeactivateAll(endings);
      from := |log|;
      ghost var c1 := Core();
      NoneScripted(cfg, c1, scripts, true);
      StandingBegins(cfg, scripts, s0, Snap(), all);
      var i := 0;
      while i < |cfg.auras|
        invariant 0 <= i <= |cfg.auras|
        invariant Inv(cfg, Snap(), IDLE) && Standing(cfg, scripts, s0, Snap(), from, i, i, all)
        invariant Core() == Scripted(cfg, c1, scripts, i, true)
      {
        ghost var s1 := Snap();
        log := log + [Check(i)];
        StandingCheck(cfg, scripts, s0, s1, Snap(), from, i, all);
        if active[i] {
          return true, from;
        }
        assert stacks[i] == 0;
        ghost var s2 := Snap();
        expires := expires[i := 0];
        StandingChecked(cfg, scripts, s0, s2, from, i, all);
        InactiveExpiry(cfg, s0, s2, Snap(), from, i + 1, i);
        ghost var s3 := Snap();
        RunScript(ScriptOf(scripts, i));
        StandingNext(cfg, scripts, s0, s3, Snap(), from, i, all);
        ScriptedNext(cfg, c1, scripts, i, s1, s3, Snap(), true);
        i := i + 1;
      }
      panicked := false;
      StandingEnds(cfg, scripts, s0, Snap(), from, all);
    }

    /** An aura's callback between iterations. */
    method RunScript(script: seq<Command>)
      requires Inv(cfg, Snap(), IDLE)
      modifies this
      ensures Inv(cfg, Snap(), IDLE) && Kept(cfg, old(Snap()), Snap(), IDLE) && Settled(old(Snap()), Snap())
      ensures Told(cfg, IDLE, old(Snap()), Snap(), script) && Foreseen(cfg, old(Snap()), Snap(), Works(cfg, IDLE, {}), script)
      ensures Marks(old(Arena()), Arena()) <= MayClash(cfg, script)
      ensures Core() == Ref.Callback(cfg, old(Core()), {}, script).core
    {
      hide Inv, Ran, Kept, Settled, Told, Foreseen, Marks, MayClash, Works, Ref.Callback, Ref.CoreOf;
      ghost var s := Snap();
      var rest := RunCallback(IDLE, script);
      RanKept(cfg, s, Snap(), IDLE, Works(cfg, IDLE, {}), script, rest);
      IdleMarks(cfg, s, Snap(), script);
    }

    /** The start of an iteration.  Each aura checks that it is inactive and without stacks before its OnReset
        runs.  The check panics exactly if the OnReset of an aura checked before has activated the aura and
        nothing has ended it since; so it does not if no callback activates a later aura. */
    method Reset(scripts: seq<seq<Command>>) returns (panicked: bool)
      requires Inv(cfg, Snap(), IDLE) && NobodyActive(Snap())
      modifies this
      ensures Inv(cfg, Snap(), IDLE) && Undisturbed(cfg, old(Snap()), Snap())
      ensures MinExpiresLow(cfg, active, expires, minExpires)
      ensures Backward(scripts) ==> !panicked
      ensures TellingChecks(cfg, scripts) ==> (panicked <==> Catches(cfg, scripts))
      ensures !panicked ==> ScriptsTold(cfg, scripts, |cfg.auras|, active)
      ensures panicked <==> CaughtActive(log, |old(log)|)
      ensures !panicked ==> ChecksSince(log, |old(log)|) == FirstAuras(|cfg.auras|)
      ensures panicked ==> exists i :: 0 <= i < |cfg.auras| && ChecksSince(log, |old(log)|) == FirstAuras(i + 1) && active[i]
      ensures Marks(old(Arena()), Arena()) <= ScriptsClash(cfg, scripts)
      ensures !panicked ==> Core() == Scripted(cfg, old(Core()), scripts, |cfg.auras|, false)
    {
      hide Inv, Undisturbed, Kept, Settled, CaughtActive, ChecksSince, Marks, MayClash, ScriptsClash, Backward, ScriptsTold,
           TellingChecks, Catches, Standing, Told, Foreseen, MinExpiresLow, Scripted, Ref.CoreOf, Ref.Callback;
      ghost var s0 := Snap();
      ghost var all := ScriptsClash(cfg, scripts);
      InvShape(cfg, s0, IDLE);
      lists := seq(KINDS, k => []);
      minExpires := NEVER_EXPIRES;
      CleanStart(cfg, s0, Snap());
      Ref.SameCore(s0, Snap());
      NoneScripted(cfg, Core(), scripts, false);
      ghost var from := |log|;
      NothingMarked(s0.bids);
      StandingBegins(cfg, scripts, s0, Snap(), all);
      var i := 0;
      while i < |cfg.auras|
        invariant 0 <= i <= |cfg.auras| && Shape(cfg, Snap())
        invariant Inv(cfg, Snap(), IDLE) && Standing(cfg, scripts, s0, Snap(), from, i, i, all)
        invariant MinExpiresLow(cfg, active, expires, minExpires)
        invariant Core() == Scripted(cfg, Ref.CoreOf(s0), scripts, i, false)
      {
        ghost var s1 := Snap();
        log := log + [Check(i)];
        StandingCheck(cfg, scripts, s0, s1, Snap(), from, i, all);
        if active[i] {
          return true;
        }
        assert stacks[i] == 0;
        ghost var s2 := Snap();
        RunScript(ScriptOf(scripts, i));
        StandingNext(cfg, scripts, s0, s2, Snap(), from, i, all);
        MinimumKept(cfg, s2, Snap(), IDLE);
        ScriptedNext(cfg, Ref.CoreOf(s0), scripts, i, s1, s2, Snap(), false);
        i := i + 1;
      }
      panicked := false;
      StandingEnds(cfg, scripts, s0, Snap(), from, all);
    }

    /** Moves the clock, then expires what is due. */
    method AdvanceTo(time: int, endings: seq<Command>)
      requires Inv(cfg, Snap(), IDLE) && MinExpiresLow(cfg, active, expires, minExpires) && now <= time < NEVER_EXPIRES
      modifies this
      ensures Inv(cfg, Snap(), IDLE) && MinExpiresLow(cfg, active, expires, minExpires)
      ensures Settled(old(Snap()), Snap())
      ensures now == time && forall a :: 0 <= a < |cfg.auras| && active[a] && !Permanent(cfg.auras[a]) ==> now < expires[a]
      ensures Marks(old(Arena()), Arena()) <= MayClash(cfg, endings)
      ensures forall a :: 0 <= a < |cfg.auras| && old(active)[a] && !active[a] ==>
                (!Permanent(cfg.auras[a]) && old(expires)[a] <= time) || a in CallbacksCost(cfg, endings)
      ensures forall a :: 0 <= a < |cfg.auras| && !old(active)[a] && active[a] ==> a in MayActivate(endings)
      ensures endings == [] ==> forall a :: 0 <= a < |cfg.auras| ==>
                && (active[a] <==> old(active)[a] && (Permanent(cfg.auras[a]) || time < old(expires)[a]))
                && (active[a] ==> expires[a] == old(expires)[a])
      ensures Ends(Due, cfg, old(Core()).(now := time), endings, Core())
    {
      hide Arbitrated, ListsExact, StacksOk, EnabledOk, LogOk, Marks, MayClash, CallbacksCost, MayActivate, Ends;
      now := time;
      var next := TryAdvance(endings);
    }

    constructor(cfg: Config, bids: seq<real>, start: int)
      requires Registered(cfg) && |bids| == |cfg.effects| && start < NEVER_EXPIRES
      ensures this.cfg == cfg && Inv(cfg, Snap(), IDLE) && NobodyActive(Snap())
      ensures log == [] && priority == bids && now == start && depth == 0 && spoiled == {} && crowded == {}
      ensures Core() == Ref.Start(cfg, bids, start)
      ensures MinExpiresLow(cfg, active, expires, minExpires)
    {
      this.cfg := cfg;
      active := seq(|cfg.auras|, i => false);
      expires := seq(|cfg.auras|, i => 0);
      stacks := seq(|cfg.auras|, i => 0);
      lists := seq(KINDS, k => []);
      index := seq(KINDS, k => seq(|cfg.auras|, i => NOT_LISTED));
      minExpires := NEVER_EXPIRES;
      priority := bids;
      enabled := seq(|cfg.effects|, i => false);
      winner := seq(|cfg.categories|, i => NO_EFFECT);
      net := seq(|cfg.effects|, i => 0);
      applied := seq(|cfg.effects|, i => 0.0);
      buffers := [];
      depth := 0;
      now := start;
      spoiled := {};
      crowded := {};
      log := [];
      new;
      NobodyBids(cfg, Arena());
    }

  }

  // ---------------------------------------------------------------- whole runs

  /** One stretch of a simulation: a call into the tracker, with the tapes of the callbacks it causes; time
      passing, and everything that may expire expiring, with the callbacks of the auras that end; and the end of
      an iteration with the start of the next, with each aura's callbacks. */
  datatype Stretch =
    | Call(command: Command)
    | Elapse(time: nat, endings: seq<Command>)
    | ExpireEverything(endings: seq<Command>)
    | NextIteration(endings: seq<Command>, done: seq<seq<Command>>, reset: seq<seq<Command>>)

  /** The categories in which commands of the stretch clash. */
  ghost function StretchClash(cfg: Config, stretch: Stretch): set<nat> {
    match stretch
    case Call(command) => MayClash(cfg, [command])
    case Elapse(_, endings) => MayClash(cfg, endings)
    case ExpireEverything(endings) => MayClash(cfg, endings)
    case NextIteration(endings, done, reset) => MayClash(cfg, endings) + ScriptsClash(cfg, done) + ScriptsClash(cfg, reset)
  }

  ghost function RunClash(cfg: Config, run: seq<Stretch>): set<nat> {
    if run == [] then {} else RunClash(cfg, run[..|run| - 1]) + StretchClash(cfg, run[|run| - 1])
  }

  lemma {:induction false} StretchClashes(cfg: Config, run: seq<Stretch>, i: nat)
    requires i < |run|
    ensures StretchClash(cfg, run[i]) <= RunClash(cfg, run)
    decreases |run|
  {
    hide StretchClash;
    if i != |run| - 1 {
      StretchClashes(cfg, run[..|run| - 1], i);
    }
  }

  /** At an iteration's end no callback activates an aura, and at the next one's start none activates a later one. */
  ghost predicate Peaceful(stretch: Stretch) {
    stretch.NextIteration? ==> Silent(stretch.done) && Backward(stretch.reset)
  }

  /** The scripts of the stretch tell whether it panics. */
  ghost predicate TellingStretch(cfg: Config, stretch: Stretch) {
    stretch.NextIteration? ==> TellingIteration(cfg, stretch.done, stretch.reset)
  }

  ghost predicate Panics(cfg: Config, stretch: Stretch) {
    stretch.NextIteration? && PanicsBetween(cfg, stretch.done, stretch.reset)
  }

  /** What a stretch without a panic makes of the reference: a call is what it asks for; time moves the clock and
      ends who is due; and at the end of an iteration every aura ends before the callbacks of the auras run. */
  ghost predicate StretchMakes(cfg: Config, c: Ref.Core, stretch: Stretch, c': Ref.Core) {
    match stretch
    case Call(command) => c' == Ref.Commanded(cfg, c, {}, command)
    case Elapse(time, endings) =>
      if c.now + time < NEVER_EXPIRES then Ends(Due, cfg, c.(now := c.now + time), endings, c') else c' == c
    case ExpireEverything(endings) => Ends(Mortal, cfg, c, endings, c')
    case NextIteration(endings, done, reset) => IterationMakes(cfg, c, endings, done, reset, c')
  }

  ghost predicate IterationMakes(cfg: Config, c: Ref.Core, endings: seq<Command>, done: seq<seq<Command>>, reset: seq<seq<Command>>, c': Ref.Core) {
    exists c1 :: IterationEnds(cfg, c, endings, done, c1) && c' == Scripted(cfg, c1, reset, |cfg.auras|, false)
  }

  /** And a run, one stretch after the other. */
  ghost predicate RunMakes(cfg: Config, c: Ref.Core, run: seq<Stretch>, c': Ref.Core)
    decreases |run|
  {
    if run == [] then c' == c
    else
      var init, last := run[..|run| - 1], run[|run| - 1];
      exists c1 :: RunMakes(cfg, c, init, c1) && StretchMakes(cfg, c1, last, c')
  }

  /** What a run makes of a state is determined. */
  lemma {:induction false} RunOneWay(cfg: Config, c: Ref.Core, run: seq<Stretch>, c1: Ref.Core, c2: Ref.Core)
    requires RunMakes(cfg, c, run, c1) && RunMakes(cfg, c, run, c2)
    ensures c1 == c2
    decreases |run|
  {
    hide StretchMakes;
    if run != [] {
      var init := run[..|run| - 1];
      var d1 :| RunMakes(cfg, c, init, d1) && StretchMakes(cfg, d1, run[|run| - 1], c1);
      var d2 :| RunMakes(cfg, c, init, d2) && StretchMakes(cfg, d2, run[|run| - 1], c2);
      RunOneWay(cfg, c, init, d1, d2);
      StretchOneWay(cfg, d1, run[|run| - 1], c1, c2);
    }
  }

  lemma StretchOneWay(cfg: Config, c: Ref.Core, stretch: Stretch, c1: Ref.Core, c2: Ref.Core)
    requires StretchMakes(cfg, c, stretch, c1) && StretchMakes(cfg, c, stretch, c2)
    ensures c1 == c2
  {
    hide Ends, IterationEnds, Scripted, Ref.Commanded;
    match stretch {
      case Call(_) =>
      case Elapse(time, endings) =>
        if c.now + time < NEVER_EXPIRES {
          EndsOneWay(Due, cfg, c.(now := c.now + time), endings, c1, c2);
        }
      case ExpireEverything(endings) =>
        EndsOneWay(Mortal, cfg, c, endings, c1, c2);
      case NextIteration(endings, done, reset) =>
        var d1 :| IterationEnds(cfg, c, endings, done, d1) && c1 == Scripted(cfg, d1, reset, |cfg.auras|, false);
        var d2 :| IterationEnds(cfg, c, endings, done, d2) && c2 == Scripted(cfg, d2, reset, |cfg.auras|, false);
        IterationEndsOneWay(cfg, c, endings, done, d1, d2);
    }
  }

  lemma NothingRun(cfg: Config, c: Ref.Core, run: seq<Stretch>)
    ensures RunMakes(cfg, c, run[..0], c)
  {
  }

  lemma RunGoesOn(cfg: Config, c: Ref.Core, run: seq<Stretch>, i: nat, c1: Ref.Core, c': Ref.Core)
    requires i < |run| && RunMakes(cfg, c, run[..i], c1) && StretchMakes(cfg, c1, run[i], c')
    ensures RunMakes(cfg, c, run[..i + 1], c')
  {
    hide StretchMakes;
    var more := run[..i + 1];
    assert more[..|more| - 1] == run[..i] && more[|more| - 1] == run[i];
  }

  ghost predicate Running(tracker: AuraTracker, cfg: Config)
    reads tracker
  {
    && tracker.cfg == cfg && Inv(cfg, tracker.Snap(), IDLE)
    && MinExpiresLow(cfg, tracker.active, tracker.expires, tracker.minExpires)
    && forall a: nat :: Owed(tracker.log, a) == 0
  }

  /** Any run, whatever its callbacks do, up to a panic if there is one, keeps the invariant, a low cached
      minimum, and OnGain and OnExpire in balance.  Every category in which no commands clash is decided, its
      active effect's bid and nothing else applied, with at most one aura in it if it is a single-aura one.  The
      run does not panic if between iterations no callback leaves an aura active before its check; and where the
      scripts tell, it panics exactly if they say so. */
  method Simulate(cfg: Config, bids: seq<real>, run: seq<Stretch>) returns (tracker: AuraTracker, panicked: bool)
    requires Registered(cfg) && |bids| == |cfg.effects|
    ensures fresh(tracker) && tracker.cfg == cfg && Inv(cfg, tracker.Snap(), IDLE)
    ensures !panicked ==> MinExpiresLow(cfg, tracker.active, tracker.expires, tracker.minExpires)
    ensures forall a :: 0 <= a < |cfg.auras| ==>
              Gains(tracker.log, a) - Expiries(tracker.log, a) == if tracker.active[a] then 1 else 0
    ensures tracker.spoiled + tracker.crowded <= RunClash(cfg, run)
    ensures forall c :: 0 <= c < |cfg.categories| && c !in RunClash(cfg, run) ==>
              && CategoryOk(cfg, tracker.Arena(), c, map[]) && (Single(cfg, c) ==> AtMostOneEnabled(cfg, tracker.Arena(), c))
    ensures (forall i :: 0 <= i < |run| ==> Peaceful(run[i])) ==> !panicked
    ensures (forall i :: 0 <= i < |run| ==> TellingStretch(cfg, run[i])) ==>
              (panicked <==> exists i :: 0 <= i < |run| && Panics(cfg, run[i]))
    ensures !panicked ==> RunMakes(cfg, Ref.Start(cfg, bids, 0), run, tracker.Core())
  {
    hide Inv, MinExpiresLow, Marks, RunClash, StretchClash, Peaceful, TellingStretch, Panics, CategoryOk, AtMostOneEnabled,
         RunMakes, StretchMakes, Ref.CoreOf, Ref.Start;
    tracker := new AuraTracker(cfg, bids, 0);
    panicked := false;
    ghost var start := tracker.Arena();
    ghost var first := Ref.Start(cfg, bids, 0);
    NothingMarked(start);
    NothingRun(cfg, first, run);
    var i := 0;
    while i < |run| && !panicked
      invariant 0 <= i <= |run| && fresh(tracker) && tracker.cfg == cfg && Inv(cfg, tracker.Snap(), IDLE)
      invariant forall a: nat :: Owed(tracker.log, a) == 0
      invariant !panicked ==> Running(tracker, cfg)
      invariant Marks(start, tracker.Arena()) <= RunClash(cfg, run)
      invariant panicked ==> 0 < i && !Peaceful(run[i - 1]) && (TellingStretch(cfg, run[i - 1]) ==> Panics(cfg, run[i - 1]))
      invariant !panicked ==> forall j :: 0 <= j < i && TellingStretch(cfg, run[j]) ==> !Panics(cfg, run[j])
      invariant !panicked ==> RunMakes(cfg, first, run[..i], tracker.Core())
      decreases |run| - i
    {
      ghost var before, core := tracker.Arena(), tracker.Core();
      panicked := RunStretch(tracker, run[i]);
      if !panicked {
        RunGoesOn(cfg, first, run, i, core, tracker.Core());
      }
      StretchClashes(cfg, run, i);
      MarksThen(start, before, tracker.Arena(), StretchClash(cfg, run[i]), RunClash(cfg, run));
      i := i + 1;
    }
    assert run[..|run|] == run;
    InvBalance(cfg, tracker.Snap());
    UnmarkedDecided(cfg, start, tracker.Snap(), RunClash(cfg, run));
  }

  method RunStretch(tracker: AuraTracker, stretch: Stretch) returns (panicked: bool)
    requires Running(tracker, tracker.cfg)
    modifies tracker
    ensures Inv(tracker.cfg, tracker.Snap(), IDLE) && forall a: nat :: Owed(tracker.log, a) == 0
    ensures !panicked ==> Running(tracker, tracker.cfg)
    ensures Marks(old(tracker.Arena()), tracker.Arena()) <= StretchClash(tracker.cfg, stretch)
    ensures Peaceful(stretch) ==> !panicked
    ensures TellingStretch(tracker.cfg, stretch) ==> (panicked <==> Panics(tracker.cfg, stretch))
    ensures !panicked ==> StretchMakes(tracker.cfg, old(tracker.Core()), stretch, tracker.Core())
  {
    hide Inv, Undisturbed, MinExpiresLow, Marks, MayClash, CallbacksCost, MayActivate, ScriptsClash, Silent, Backward, TellingIteration, PanicsBetween,
         IterationMakes, Ends, Ref.Commanded;
    panicked := false;
    ghost var s := tracker.Snap();
    NothingMarked(s.bids);
    match stretch {
      case Call(command) =>
        CallStretch(tracker, command);
      case Elapse(time, endings) =>
        if tracker.now + time < NEVER_EXPIRES {
          tracker.AdvanceTo(tracker.now + time, endings);
        }
      case ExpireEverything(endings) =>
        tracker.ExpireAll(endings);
        UndisturbedSettles(tracker.cfg, s, tracker.Snap());
      case NextIteration(endings, done, reset) =>
        panicked := IterationStretch(tracker, endings, done, reset);
    }
  }

  method CallStretch(tracker: AuraTracker, command: Command)
    requires Running(tracker, tracker.cfg)
    modifies tracker
    ensures Running(tracker, tracker.cfg)
    ensures Marks(old(tracker.Arena()), tracker.Arena()) <= MayClash(tracker.cfg, [command])
    ensures tracker.Core() == Ref.Commanded(tracker.cfg, old(tracker.Core()), {}, command)
  {
    hide Inv, Ran, Kept, MinExpiresLow, Marks, MayClash, Works, Foreseen, Ref.Commanded, Ref.CoreOf;
    ghost var s := tracker.Snap();
    tracker.Perform(command, IDLE);
    RanKept(tracker.cfg, s, tracker.Snap(), IDLE, Works(tracker.cfg, IDLE, {}), [command], []);
    MinimumKept(tracker.cfg, s, tracker.Snap(), IDLE);
    IdleMarks(tracker.cfg, s, tracker.Snap(), [command]);
  }

  /** The end of an iteration and the start of the next.  An aura that an OnDoneIteration has left active is
      caught when the next iteration starts. */
  method IterationStretch(tracker: AuraTracker, endings: seq<Command>, done: seq<seq<Command>>, reset: seq<seq<Command>>)
    returns (panicked: bool)
    requires Running(tracker, tracker.cfg)
    modifies tracker
    ensures Inv(tracker.cfg, tracker.Snap(), IDLE) && forall a: nat :: Owed(tracker.log, a) == 0
    ensures !panicked ==> Running(tracker, tracker.cfg)
    ensures Silent(done) && Backward(reset) ==> !panicked
    ensures TellingIteration(tracker.cfg, done, reset) ==> (panicked <==> PanicsBetween(tracker.cfg, done, reset))
    ensures Marks(old(tracker.Arena()), tracker.Arena())
            <= MayClash(tracker.cfg, endings) + ScriptsClash(tracker.cfg, done) + ScriptsClash(tracker.cfg, reset)
    ensures !panicked ==> IterationMakes(tracker.cfg, old(tracker.Core()), endings, done, reset, tracker.Core())
  {
    hide Inv, Undisturbed, MinExpiresLow, CaughtActive, ChecksSince, Marks, MayClash, ScriptsClash, Backward,
         TellingChecks, ScriptsTold, Catches, NoneLeft, NobodyActive, IterationEnds, Scripted, Ref.CoreOf;
    ghost var s := tracker.Snap();
    ghost var from;
    panicked, from := tracker.DoneIteration(endings, done);
    ghost var t := tracker.Snap();
    UndisturbedSettles(tracker.cfg, s, t);
    SilentIsBackward(done);
    if !panicked {
      LeftBetween(tracker.cfg, done, reset, t);
      AnybodyActive(t);
      if true in tracker.active {
        panicked := true;
      } else {
        panicked := tracker.Reset(reset);
        UndisturbedSettles(tracker.cfg, t, tracker.Snap());
        MarksThen(s.bids, t.bids, tracker.Arena(), ScriptsClash(tracker.cfg, reset),
                  MayClash(tracker.cfg, endings) + ScriptsClash(tracker.cfg, done) + ScriptsClash(tracker.cfg, reset));
      }
    }
  }
}

/** Facts about the tracker's state that its operations rest on. */
module AuraLemmas {
  import opened AuraState

  // ---------------------------------------------------------------- one list of the family

  function RemoveBySwappingToBack(list: seq<nat>, i: nat): (r: seq<nat>)
    requires i < |list|
    ensures |r| == |list| - 1
  {
    list[i := list[|list| - 1]][..|list| - 1]
  }

  /** Exactly the entry at i is gone, whatever moved into its place. */
  lemma SwapRemoveTakesOne(list: seq<nat>, i: nat)
    requires i < |list|
    ensures multiset(RemoveBySwappingToBack(list, i)) == multiset(list) - multiset{list[i]}
  {
    var r, init, last := RemoveBySwappingToBack(list, i), list[..|list| - 1], list[|list| - 1];
    assert list == init + [last];
    if i == |list| - 1 {
      assert r == init;
    } else {
      assert r == init[i := last];
    }
  }

  lemma AppendKeepsExact(list: seq<nat>, index: seq<int>, member: seq<bool>, a: nat)
    requires Exact(list, index, member) && a < |member| && !member[a]
    ensures Exact(list + [a], index[a := |list|], member[a := true])
  {
  }

  lemma SwapRemoveKeepsExact(list: seq<nat>, index: seq<int>, member: seq<bool>, a: nat)
    requires Exact(list, index, member) && a < |member| && member[a]
    ensures 0 <= index[a] < |list|
    ensures var r := RemoveBySwappingToBack(list, index[a]);
            var moved := if index[a] < |r| then index[r[index[a]] := index[a]] else index;
            (forall p :: 0 <= p < |r| ==> r[p] < |index|) && Exact(r, moved[a := NOT_LISTED], member[a := false])
  {
    var i := index[a];
    var r := RemoveBySwappingToBack(list, i);
    var last := list[|list| - 1];
    assert forall p :: 0 <= p < |r| ==> r[p] == if p == i then last else list[p];
  }

  /** An exact list holds each member once and nobody else. */
  lemma ExactListsOnce(list: seq<nat>, index: seq<int>, member: seq<bool>)
    requires Exact(list, index, member)
    ensures forall a: nat :: a in list <==> a < |member| && member[a]
    ensures forall p, q :: 0 <= p < q < |list| ==> list[p] != list[q]
  {
    forall a: nat | a < |member| && member[a] ensures a in list {
      assert list[index[a]] == a;
    }
  }

  // ---------------------------------------------------------------- the ledger of events

  ghost predicate Fits(log: seq<Event>, ev: Event) {
    && (ev.Gain? ==> !ActiveIn(log, ev.aura))
    && (ev.Fade? ==> ActiveIn(log, ev.aura))
    && (ev.Turn? ==> ev.called == ActiveIn(log, ev.aura))
  }

  lemma LogAppend(log: seq<Event>, ev: Event)
    ensures forall a: nat :: ActiveIn(log + [ev], a) ==
                             match ev { case Gain(b, _) => b == a || ActiveIn(log, a)
                                        case Fade(b) => b != a && ActiveIn(log, a)
                                        case _ => ActiveIn(log, a) }
    ensures forall a: nat :: StacksIn(log + [ev], a) ==
                             match ev { case Stack(b, n) => if b == a then n else StacksIn(log, a)
                                        case _ => StacksIn(log, a) }
    ensures forall a: nat :: Owed(log + [ev], a) == Owed(log, a) +
                             match ev { case Fade(b) => if b == a then 1 else 0
                                        case Expire(b) => if b == a then -1 else 0
                                        case _ => 0 }
    ensures forall level: nat :: TurnsAt(log + [ev], level) ==
                             TurnsAt(log, level) + if ev.Turn? && ev.level == level then [(ev.kind, ev.aura)] else []
  {
    assert (log + [ev])[..|log + [ev]| - 1] == log;
  }

  lemma LogAppendFits(log: seq<Event>, ev: Event)
    requires Alternates(log) && TurnsTruthful(log) && Fits(log, ev)
    ensures Alternates(log + [ev]) && TurnsTruthful(log + [ev])
  {
    var l := log + [ev];
    assert l[..|log|] == log;
    assert forall p :: 0 <= p < |log| ==> l[p] == log[p] && l[..p] == log[..p];
  }

  lemma LogGrowsByOne(log: seq<Event>, ev: Event, depth: nat)
    requires !ev.Check? && (ev.Turn? ==> depth <= ev.level)
    ensures LogGrows(log, log + [ev], depth)
  {
    assert (log + [ev])[..|log|] == log;
  }

  lemma LogGrowsOn(log: seq<Event>, more: seq<Event>, most: seq<Event>, depth: nat)
    requires LogGrows(log, more, depth) && LogGrows(more, most, depth)
    ensures LogGrows(log, most, depth)
  {
    assert most[..|log|] == most[..|more|][..|log|];
    forall p | |log| <= p < |most| ensures !most[p].Check? && (most[p].Turn? ==> depth <= most[p].level) {
      if p < |more| {
        assert most[p] == most[..|more|][p];
      }
    }
  }

  /** Turns of deeper levels do not show at a level. */
  lemma {:induction false} DeeperTurnsHidden(log: seq<Event>, more: seq<Event>, level: nat)
    requires |log| <= |more| && more[..|log|] == log
    requires forall p :: |log| <= p < |more| && more[p].Turn? ==> level < more[p].level
    ensures TurnsAt(more, level) == TurnsAt(log, level)
    decreases |more|
  {
    if |more| == |log| {
      assert more == log;
    } else {
      var init := more[..|more| - 1];
      assert init[..|log|] == log;
      DeeperTurnsHidden(log, init, level);
    }
  }

  lemma CallsAppend(log: seq<Event>, ev: Event, level: nat)
    ensures CallsAt(log + [ev], level) == CallsAt(log, level) + if ev.Turn? && ev.level == level && ev.called then 1 else 0
  {
    assert (log + [ev])[..|log|] == log;
  }

  lemma {:induction false} DeeperCallsHidden(log: seq<Event>, more: seq<Event>, level: nat)
    requires |log| <= |more| && more[..|log|] == log
    requires forall p :: |log| <= p < |more| && more[p].Turn? ==> level < more[p].level
    ensures CallsAt(more, level) == CallsAt(log, level)
    decreases |more|
  {
    if |more| == |log| {
      assert more == log;
    } else {
      var init := more[..|more| - 1];
      assert init[..|log|] == log;
      DeeperCallsHidden(log, init, level);
    }
  }

  ghost function Gains(log: seq<Event>, a: nat): nat {
    if log == [] then 0 else Gains(log[..|log| - 1], a) + if log[|log| - 1].Gain? && log[|log| - 1].aura == a then 1 else 0
  }

  ghost function Expiries(log: seq<Event>, a: nat): nat {
    if log == [] then 0 else Expiries(log[..|log| - 1], a) + if log[|log| - 1] == Expire(a) then 1 else 0
  }

  /** OnGain has run as often as OnExpire, once more while the aura is active, and once more for each
      fade still owed its OnExpire. */
  lemma {:induction false} GainsBalanceExpiries(log: seq<Event>, a: nat)
    requires Alternates(log)
    ensures Gains(log, a) - Expiries(log, a) == (if ActiveIn(log, a) then 1 else 0) + Owed(log, a)
  {
    if log != [] {
      var init := log[..|log| - 1];
      assert forall p :: 0 <= p < |init| ==> init[p] == log[p] && init[..p] == log[..p];
      GainsBalanceExpiries(init, a);
    }
  }

  /** From an instant on the aura has gained and not faded since. */
  ghost predicate GainedSince(log: seq<Event>, from: nat, a: nat) {
    exists q :: from <= q < |log| && log[q].Gain? && log[q].aura == a && forall p :: q < p < |log| ==> log[p] != Fade(a)
  }

  /** An aura inactive at an instant is active later exactly if it has gained since and not faded again. */
  lemma {:induction false} ActiveMeansGained(log: seq<Event>, from: nat, a: nat)
    requires from <= |log| && !ActiveIn(log[..from], a)
    ensures ActiveIn(log, a) <==> GainedSince(log, from, a)
    decreases |log|
  {
    if |log| == from {
      assert log[..from] == log;
    } else {
      var init, last := log[..|log| - 1], log[|log| - 1];
      assert init[..from] == log[..from];
      ActiveMeansGained(init, from, a);
      assert forall p :: 0 <= p < |init| ==> init[p] == log[p];
      if last.Gain? && last.aura == a {
        assert log[|log| - 1].Gain?;
      }
      if GainedSince(init, from, a) && last != Fade(a) {
        var q :| from <= q < |init| && init[q].Gain? && init[q].aura == a && forall p :: q < p < |init| ==> init[p] != Fade(a);
        assert log[q].Gain? && log[q].aura == a;
      }
      if GainedSince(log, from, a) && !(last.Gain? && last.aura == a) {
        var q :| from <= q < |log| && log[q].Gain? && log[q].aura == a && forall p :: q < p < |log| ==> log[p] != Fade(a);
        assert init[q].Gain? && init[q].aura == a;
      }
    }
  }

  /** Stacks that are there now and were not before have been given in between. */
  lemma {:induction false} StacksWereGiven(log: seq<Event>, more: seq<Event>, a: nat)
    requires |log| <= |more| && more[..|log|] == log && StacksIn(log, a) == 0 && StacksIn(more, a) > 0
    ensures exists p :: |log| <= p < |more| && more[p].Stack? && more[p].aura == a && more[p].n > 0
    decreases |more|
  {
    assert |more| == |log| ==> more == log;
    if |more| > |log| {
      var init, last := more[..|more| - 1], more[|more| - 1];
      if last.Stack? && last.aura == a {
        assert more[|more| - 1].n > 0;
      } else {
        assert init[..|log|] == log;
        StacksWereGiven(log, init, a);
      }
    }
  }

  /** An aura active before and not now has faded in between. */
  lemma {:induction false} FadeWasLogged(log: seq<Event>, more: seq<Event>, a: nat)
    requires |log| <= |more| && more[..|log|] == log && ActiveIn(log, a) && !ActiveIn(more, a)
    ensures exists p :: |log| <= p < |more| && more[p] == Fade(a)
    decreases |more|
  {
    assert |more| == |log| ==> more == log;
    if |more| > |log| {
      var init, last := more[..|more| - 1], more[|more| - 1];
      if last != Fade(a) {
        assert init[..|log|] == log;
        FadeWasLogged(log, init, a);
        var p :| |log| <= p < |init| && init[p] == Fade(a);
        assert more[p] == Fade(a);
      }
    }
  }

  // ---------------------------------------------------------------- frames

  lemma KeptTransitive(cfg: Config, s: State, t: State, u: State, ctx: Context)
    requires Kept(cfg, s, t, ctx) && Kept(cfg, t, u, ctx)
    ensures Kept(cfg, s, u, ctx)
  {
    TrackingKeptOn(cfg, s, t, u, ctx.busy);
    BidsKeptOn(cfg, s.bids, t.bids, u.bids, ctx);
  }

  lemma TrackingKeptOn(cfg: Config, s: State, t: State, u: State, busy: set<nat>)
    requires KeptTracking(cfg, s, t, busy) && KeptTracking(cfg, t, u, busy)
    ensures KeptTracking(cfg, s, u, busy)
  {
    hide LogGrows, MinExpiresLow;
    LogGrowsOn(s.log, t.log, u.log, s.depth);
    assert u.buffers[..s.depth] == t.buffers[..s.depth];
  }

  lemma BidsKeptOn(cfg: Config, b: Bids, b': Bids, b'': Bids, ctx: Context)
    requires KeptBids(cfg, b, b', ctx) && KeptBids(cfg, b', b'', ctx)
    ensures KeptBids(cfg, b, b'', ctx)
  {
    forall c | c in ctx.settling && c !in b''.spoiled ensures SameIn(cfg, b, b'', c) {
      assert SameIn(cfg, b, b', c) && SameIn(cfg, b', b'', c);
    }
  }

  /** What holds with more under way holds with less. */
  lemma KeptWeaken(cfg: Config, s: State, t: State, big: Context, small: Context)
    requires Kept(cfg, s, t, big) && small.busy <= big.busy && small.settling <= big.settling
    ensures Kept(cfg, s, t, small)
  {
    forall e | (0 <= e < |cfg.effects| && t.bids.enabled[e] && cfg.effects[e].category !in t.bids.crowded
                && Closed(cfg, small.busy, cfg.effects[e].category))
      ensures s.bids.enabled[e]
    {
      var f :| InCategory(cfg, f, cfg.effects[e].category) && cfg.effects[f].aura in small.busy;
      assert cfg.effects[f].aura in big.busy;
      assert Closed(cfg, big.busy, cfg.effects[e].category);
    }
  }

  lemma KeptItself(cfg: Config, s: State, ctx: Context)
    requires Shape(cfg, s)
    ensures Kept(cfg, s, s, ctx) && Settled(s, s)
  {
  }

  lemma KeptShape(cfg: Config, s: State, t: State, ctx: Context)
    requires Kept(cfg, s, t, ctx)
    ensures Shape(cfg, s) && Shape(cfg, t)
    ensures forall e :: 0 <= e < |cfg.effects| && cfg.effects[e].aura in ctx.busy ==> t.bids.enabled[e] == s.bids.enabled[e]
    ensures s.bids.spoiled <= t.bids.spoiled && s.bids.crowded <= t.bids.crowded
    ensures |s.log| <= |t.log| && forall p :: 0 <= p < |s.log| ==> t.log[p] == s.log[p]
  {
    assert forall p :: 0 <= p < |s.log| ==> t.log[p] == t.log[..|s.log|][p];
  }

  lemma ListedIffMember(list: seq<nat>, index: seq<int>, member: seq<bool>, a: nat)
    requires Exact(list, index, member) && a < |member|
    ensures |index| == |member|
    ensures index[a] != NOT_LISTED <==> member[a]
    ensures a in list <==> member[a]
    ensures member[a] ==> 0 <= index[a] < |list|
    ensures forall i :: 0 <= i < |list| ==> list[i] < |member|
    ensures member[a] ==> list[index[a]] == a
  {
    if member[a] {
      assert list[index[a]] == a;
    }
  }

  lemma MemberIff(cfg: Config, active: seq<bool>, a: nat, k: nat)
    requires Registered(cfg) && |active| == |cfg.auras| && a < |active| && k < KINDS
    ensures Members(cfg, active, k)[a] == (active[a] && Wants(cfg, a, k))
  {
  }

  lemma MembersFlip(cfg: Config, active: seq<bool>, a: nat, k: nat, on: bool)
    requires Registered(cfg) && |active| == |cfg.auras| && a < |active| && k < KINDS
    ensures Wants(cfg, a, k) ==> Members(cfg, active[a := on], k) == Members(cfg, active, k)[a := on]
    ensures !Wants(cfg, a, k) ==> Members(cfg, active[a := on], k) == Members(cfg, active, k)
  {
  }
}

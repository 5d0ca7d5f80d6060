/** Scans of the tracker's lists, and the checks between iterations. */
module AuraIterations {
  import opened AuraState
  import opened AuraLemmas
  import opened Callbacks
  import opened AuraReach
  import opened AuraSteps

  // ---------------------------------------------------------------- scans, iterations

  /** What whole operations leave of a state, the cached minimum aside. */
  ghost predicate Undisturbed(cfg: Config, s: State, t: State) {
    && Shape(cfg, s) && Shape(cfg, t)
    && t.now == s.now && t.depth == s.depth
    && |s.log| <= |t.log| && t.log[..|s.log|] == s.log
    && (forall a :: Overdue(t.active, t.expires, t.now, a) ==> Overdue(s.active, s.expires, s.now, a))
    && Settled(s, t)
  }

  lemma NothingDisturbed(cfg: Config, s: State)
    requires Inv(cfg, s, IDLE)
    ensures Shape(cfg, s) && Undisturbed(cfg, s, s)
  {
  }

  lemma UndisturbedStep(cfg: Config, s: State, t: State, u: State, ctx: Context)
    requires Undisturbed(cfg, s, t) && Kept(cfg, t, u, ctx) && Settled(t, u)
    ensures Undisturbed(cfg, s, u) && Shape(cfg, u)
  {
    hide KeptBids, MinExpiresLow;
    assert u.log[..|s.log|] == u.log[..|t.log|][..|s.log|];
  }

  /** The cached minimum concerns no other part of the state. */
  lemma MinExpiresFree(cfg: Config, s: State, t: State)
    requires Shape(cfg, t)
    ensures forall m: int :: Inv(cfg, t.(minExpires := m), IDLE) == Inv(cfg, t, IDLE)
    ensures forall m: int :: Undisturbed(cfg, s, t.(minExpires := m)) == Undisturbed(cfg, s, t)
  {
    hide Arbitrated, ListsExact, LogOk, StacksOk, EnabledOk;
  }

  ghost function OverdueSet(active: seq<bool>, expires: seq<int>, now: int): set<int>
    requires |active| == |expires|
  {
    set a | 0 <= a < |active| && Overdue(active, expires, now, a)
  }

  lemma OverdueFalls(cfg: Config, s0: State, s: State, t: State, a: nat)
    requires Undisturbed(cfg, s0, s) && Kept(cfg, s, t, IDLE) && Settled(s, t)
    requires Overdue(s.active, s.expires, s.now, a) && !Overdue(t.active, t.expires, t.now, a)
    ensures Undisturbed(cfg, s0, t) && Shape(cfg, t)
    ensures |OverdueSet(t.active, t.expires, t.now)| < |OverdueSet(s.active, s.expires, s.now)|
  {
    hide KeptBids, LogGrows;
    UndisturbedStep(cfg, s0, s, t, IDLE);
    var before, after := OverdueSet(s.active, s.expires, s.now), OverdueSet(t.active, t.expires, t.now);
    assert after <= before - {a};
    assert before - {a} == after + (before - {a} - after);
  }

  lemma Listed(cfg: Config, s: State, k: nat, i: nat)
    requires Inv(cfg, s, IDLE) && k < KINDS && i < |s.lists[k]|
    ensures s.lists[k][i] < |cfg.auras| && s.active[s.lists[k][i]] && Wants(cfg, s.lists[k][i], k)
  {
    hide Arbitrated;
    assert Exact(s.lists[k], s.index[k], Members(cfg, s.active, k));
  }

  /** The first i auras that may expire have been scanned: none is overdue, and the cached minimum is
      the earliest of their expiries. */
  ghost predicate Scanned(cfg: Config, s: State, i: nat)
    requires Shape(cfg, s)
  {
    && i <= |s.lists[0]|
    && (forall j :: 0 <= j < i ==> s.lists[0][j] < |s.expires| && s.now < s.expires[s.lists[0][j]] && s.minExpires <= s.expires[s.lists[0][j]])
    && (s.minExpires == NEVER_EXPIRES || exists j :: 0 <= j < i && s.expires[s.lists[0][j]] == s.minExpires)
  }

  lemma ScanStarts(cfg: Config, s0: State, s: State)
    requires Inv(cfg, s, IDLE) && Undisturbed(cfg, s0, s)
    ensures var t := s.(minExpires := NEVER_EXPIRES); Inv(cfg, t, IDLE) && Undisturbed(cfg, s0, t) && Scanned(cfg, t, 0)
  {
    MinExpiresFree(cfg, s0, s);
  }

  lemma ScanStep(cfg: Config, s0: State, s: State, i: nat)
    requires Inv(cfg, s, IDLE) && Undisturbed(cfg, s0, s) && i < |s.lists[0]| && Scanned(cfg, s, i)
    requires s.lists[0][i] < |s.expires| && s.now < s.expires[s.lists[0][i]]
    ensures var at := s.expires[s.lists[0][i]];
            var t := s.(minExpires := if at < s.minExpires then at else s.minExpires);
            Inv(cfg, t, IDLE) && Undisturbed(cfg, s0, t) && Scanned(cfg, t, i + 1)
  {
    hide Inv;
    MinExpiresFree(cfg, s0, s);
    var at := s.expires[s.lists[0][i]];
    var t := s.(minExpires := if at < s.minExpires then at else s.minExpires);
    assert t.minExpires == at ==> t.expires[t.lists[0][i]] == t.minExpires;
  }

  lemma ScanComplete(cfg: Config, s: State)
    requires Inv(cfg, s, IDLE) && Scanned(cfg, s, |s.lists[0]|)
    ensures forall a :: 0 <= a < |cfg.auras| && s.active[a] && !Permanent(cfg.auras[a]) ==> s.now < s.expires[a]
    ensures MinExpiresLow(cfg, s.active, s.expires, s.minExpires)
    ensures s.minExpires == NEVER_EXPIRES ||
            exists a :: 0 <= a < |cfg.auras| && s.active[a] && !Permanent(cfg.auras[a]) && s.expires[a] == s.minExpires
  {
    hide Arbitrated, LogOk, StacksOk, EnabledOk;
    ExactListsOnce(s.lists[0], s.index[0], Members(cfg, s.active, 0));
    forall a | 0 <= a < |cfg.auras| && s.active[a] && !Permanent(cfg.auras[a])
      ensures s.now < s.expires[a] && s.minExpires <= s.expires[a]
    {
      assert Members(cfg, s.active, 0)[a];
      assert a in s.lists[0];
    }
    if s.minExpires != NEVER_EXPIRES {
      var j :| 0 <= j < |s.lists[0]| && s.expires[s.lists[0][j]] == s.minExpires;
      Listed(cfg, s, 0, j);
    }
  }

  lemma NoneListed(cfg: Config, s: State)
    requires Inv(cfg, s, IDLE) && s.lists[0] == []
    ensures forall a :: 0 <= a < |cfg.auras| && s.active[a] ==> Permanent(cfg.auras[a])
  {
    hide Arbitrated;
    forall a | 0 <= a < |cfg.auras| && s.active[a] ensures Permanent(cfg.auras[a]) {
      MemberIff(cfg, s.active, a, 0);
      ListedIffMember(s.lists[0], s.index[0], Members(cfg, s.active, 0), a);
    }
  }

  ghost predicate NobodyActive(s: State) {
    forall a :: 0 <= a < |s.active| ==> !s.active[a]
  }

  /** Once nobody is active, nothing an active aura leaves behind is left. */
  lemma InactiveAtRest(cfg: Config, s: State)
    requires Inv(cfg, s, IDLE) && NobodyActive(s)
    ensures forall a :: 0 <= a < |cfg.auras| ==> s.stacks[a] == 0
    ensures forall k :: 0 <= k < KINDS ==> s.lists[k] == []
    ensures forall e :: 0 <= e < |cfg.effects| ==> !s.bids.enabled[e]
    ensures forall c :: 0 <= c < |cfg.categories| && c !in s.bids.spoiled ==> s.bids.winner[c] == NO_EFFECT
  {
    hide LogOk;
    forall k | 0 <= k < KINDS ensures s.lists[k] == [] {
      if s.lists[k] != [] {
        Listed(cfg, s, k, 0);
      }
    }
    forall c | 0 <= c < |cfg.categories| && c !in s.bids.spoiled ensures s.bids.winner[c] == NO_EFFECT {
      assert CategoryOk(cfg, s.bids, c, map[]);
    }
  }

  // ---------------------------------------------------------------- checks between iterations

  /** The auras checked from an instant on, in order. */
  ghost function ChecksSince(log: seq<Event>, from: nat): seq<nat> {
    if |log| <= from then []
    else
      var last := log[|log| - 1];
      ChecksSince(log[..|log| - 1], from) + if last.Check? then [last.aura] else []
  }

  /** Some aura was active at its check: it has gained since the instant, from callbacks that ran before the
      check, and has not faded again. */
  ghost predicate CaughtActive(log: seq<Event>, from: nat) {
    exists p :: from <= p < |log| && log[p].Check? && GainedSince(log[..p], from, log[p].aura)
  }

  function FirstAuras(n: nat): (r: seq<nat>)
    ensures |r| == n
  {
    seq(n, i => i)
  }

  lemma CheckStep(log: seq<Event>, from: nat, a: nat)
    requires from <= |log| && !ActiveIn(log[..from], a)
    ensures ChecksSince(log + [Check(a)], from) == ChecksSince(log, from) + [a]
    ensures CaughtActive(log + [Check(a)], from) <==> CaughtActive(log, from) || ActiveIn(log, a)
  {
    hide ActiveIn, GainedSince;
    var more := log + [Check(a)];
    assert more[..|more| - 1] == log;
    assert forall p :: 0 <= p <= |log| ==> more[..p] == log[..p];
    assert log[..|log|] == log;
    ActiveMeansGained(log, from, a);
    CaughtEarlier(log, more, from);
    if GainedSince(log, from, a) {
      assert more[|log|].Check?;
    }
  }

  lemma CaughtEarlier(log: seq<Event>, more: seq<Event>, from: nat)
    requires |more| == |log| + 1 && forall p :: 0 <= p < |log| ==> more[p] == log[p]
    requires forall p :: 0 <= p <= |log| ==> more[..p] == log[..p]
    ensures CaughtActive(more, from) <==>
              CaughtActive(log, from) || (from <= |log| && more[|log|].Check? && GainedSince(more[..|log|], from, more[|log|].aura))
  {
    hide GainedSince;
    if CaughtActive(log, from) {
      var p :| from <= p < |log| && log[p].Check? && GainedSince(log[..p], from, log[p].aura);
      assert more[p].Check?;
    }
    if CaughtActive(more, from) {
      var p :| from <= p < |more| && more[p].Check? && GainedSince(more[..p], from, more[p].aura);
      assert p < |log| ==> log[p].Check?;
    }
  }

  lemma {:induction false} ChecksStay(log: seq<Event>, more: seq<Event>, from: nat, depth: nat)
    requires from <= |log| && LogGrows(log, more, depth)
    ensures ChecksSince(more, from) == ChecksSince(log, from)
    ensures CaughtActive(more, from) <==> CaughtActive(log, from)
    decreases |more|
  {
    assert |more| == |log| ==> more == log;
    if |more| > |log| {
      var init := more[..|more| - 1];
      assert init[..|log|] == log;
      ChecksStay(log, init, from, depth);
      assert forall p :: 0 <= p < |init| ==> more[p] == init[p] && more[..p] == init[..p];
      if CaughtActive(init, from) {
        var p :| from <= p < |init| && init[p].Check? && GainedSince(init[..p], from, init[p].aura);
        assert more[p].Check?;
      }
      if CaughtActive(more, from) {
        var p :| from <= p < |more| && more[p].Check? && GainedSince(more[..p], from, more[p].aura);
        assert p < |init|;
        assert init[p].Check?;
      }
    }
  }

  /** What the first n scripts tell of who is active is so. */
  ghost predicate ScriptsTold(cfg: Config, scripts: seq<seq<Command>>, n: nat, active: seq<bool>) {
    && |active| == |cfg.auras|
    && forall a :: 0 <= a < |cfg.auras| && TellingScripts(cfg, scripts, n, a) ==> active[a] == LeftActive(scripts, n, a)
  }

  lemma NoScriptsYet(cfg: Config, scripts: seq<seq<Command>>, s: State)
    requires NobodyActive(s) && |s.active| == |cfg.auras|
    ensures ScriptsTold(cfg, scripts, 0, s.active)
  {
  }

  lemma ScriptToldNext(cfg: Config, scripts: seq<seq<Command>>, n: nat, s: State, t: State)
    requires ScriptsTold(cfg, scripts, n, s.active)
    requires Told(cfg, IDLE, s, t, ScriptOf(scripts, n)) && Foreseen(cfg, s, t, Works(cfg, IDLE, {}), ScriptOf(scripts, n))
    ensures ScriptsTold(cfg, scripts, n + 1, t.active)
  {
    hide Foreseen, TellingTape, ActiveAfter, MayActivate, WorkedOn;
    forall a | 0 <= a < |cfg.auras| && TellingScripts(cfg, scripts, n + 1, a)
      ensures t.active[a] == LeftActive(scripts, n + 1, a)
    {
      assert TellingScripts(cfg, scripts, n, a);
      if forall j :: 0 <= j < n + 1 ==> a !in MayActivate(ScriptOf(scripts, j)) {
        NeverLeftActive(scripts, n, a);
        NeverLeftActive(scripts, n + 1, a);
        StaysInactive(cfg, s, t, Works(cfg, IDLE, {}), ScriptOf(scripts, n), a);
      } else {
        assert TellingTape(ScriptOf(scripts, n), a) && Traceable(cfg, IDLE, a);
      }
    }
  }

  /** The auras checked so far were not left active before their check, as far as the scripts tell. */
  ghost predicate NoneCaught(cfg: Config, scripts: seq<seq<Command>>, n: nat) {
    TellingChecks(cfg, scripts) ==> forall a :: 0 <= a < n ==> !LeftActive(scripts, a, a)
  }

  lemma NoneCaughtYet(cfg: Config, scripts: seq<seq<Command>>)
    ensures NoneCaught(cfg, scripts, 0)
  {
  }

  lemma NoneCaughtAtAll(cfg: Config, scripts: seq<seq<Command>>)
    requires NoneCaught(cfg, scripts, |cfg.auras|)
    ensures TellingChecks(cfg, scripts) ==> !Catches(cfg, scripts)
  {
    hide LeftActive, TellingScripts;
  }

  lemma CheckTold(cfg: Config, scripts: seq<seq<Command>>, i: nat, active: seq<bool>)
    requires ScriptsTold(cfg, scripts, i, active) && NoneCaught(cfg, scripts, i) && i < |cfg.auras|
    ensures active[i] && TellingChecks(cfg, scripts) ==> Catches(cfg, scripts)
    ensures !active[i] ==> NoneCaught(cfg, scripts, i + 1)
  {
    hide LeftActive, TellingScripts;
  }

  /** What the scripts say of an iteration's end and the next one's start: who is left active by the first of
      them, and who is caught by the second. */
  ghost predicate TellingIteration(cfg: Config, done: seq<seq<Command>>, reset: seq<seq<Command>>) {
    TellingChecks(cfg, done) && TellingChecks(cfg, reset) && forall a :: 0 <= a < |cfg.auras| ==> TellingScripts(cfg, done, |cfg.auras|, a)
  }

  ghost predicate PanicsBetween(cfg: Config, done: seq<seq<Command>>, reset: seq<seq<Command>>) {
    Catches(cfg, done) || !NoneLeft(cfg, done) || Catches(cfg, reset)
  }

  ghost predicate NoneLeft(cfg: Config, done: seq<seq<Command>>) {
    forall a :: 0 <= a < |cfg.auras| ==> !LeftActive(done, |cfg.auras|, a)
  }

  lemma SilentIsBackward(scripts: seq<seq<Command>>)
    ensures Silent(scripts) ==> Backward(scripts)
  {
  }

  lemma AnybodyActive(s: State)
    ensures true in s.active <==> !NobodyActive(s)
  {
    if !NobodyActive(s) {
      var a :| 0 <= a < |s.active| && s.active[a];
      assert s.active[a] in s.active;
    }
  }

  lemma LeftBetween(cfg: Config, done: seq<seq<Command>>, reset: seq<seq<Command>>, s: State)
    requires ScriptsTold(cfg, done, |cfg.auras|, s.active)
    ensures TellingIteration(cfg, done, reset) ==> (NobodyActive(s) <==> NoneLeft(cfg, done))
    ensures Silent(done) ==> NobodyActive(s)
  {
    hide TellingScripts, Silent;
    if Silent(done) {
      SilentLeavesNone(cfg, done, |cfg.auras|);
      forall a | 0 <= a < |s.active| ensures !s.active[a] {
        assert TellingScripts(cfg, done, |cfg.auras|, a);
      }
    }
    if TellingIteration(cfg, done, reset) {
      if NobodyActive(s) {
        forall a | 0 <= a < |cfg.auras| ensures !LeftActive(done, |cfg.auras|, a) {
          assert !s.active[a] && TellingScripts(cfg, done, |cfg.auras|, a);
        }
      } else {
        var a :| 0 <= a < |s.active| && s.active[a];
        assert TellingScripts(cfg, done, |cfg.auras|, a);
      }
    }
  }

  /** Checks have been taken of the first i auras since an instant at which nobody was active; none was caught. */
  ghost predicate Checked(cfg: Config, s0: State, s: State, from: nat, i: nat) {
    && Undisturbed(cfg, s0, s)
    && |s0.log| <= from <= |s.log|
    && (forall a :: 0 <= a < |cfg.auras| ==> !ActiveIn(s.log[..from], a))
    && ChecksSince(s.log, from) == FirstAuras(i)
    && !CaughtActive(s.log, from)
  }

  lemma ChecksBegin(cfg: Config, s0: State, s: State)
    requires Inv(cfg, s, IDLE) && Undisturbed(cfg, s0, s) && NobodyActive(s)
    ensures Checked(cfg, s0, s, |s.log|, 0)
  {
    hide Arbitrated, ListsExact, StacksOk, EnabledOk;
    assert s.log[..|s.log|] == s.log;
  }

  /** The next aura's check: a panic exactly if it is active, and then exactly because it was caught. */
  lemma NextCheck(cfg: Config, s0: State, s: State, t: State, from: nat, i: nat)
    requires Inv(cfg, s, IDLE) && Checked(cfg, s0, s, from, i) && i < |cfg.auras| && t == s.(log := s.log + [Check(i)])
    ensures Inv(cfg, t, IDLE) && Shape(cfg, t) && Undisturbed(cfg, s0, t) && from <= |t.log|
    ensures ChecksSince(t.log, from) == FirstAuras(i + 1)
    ensures CaughtActive(t.log, from) <==> t.active[i]
    ensures !t.active[i] ==> t.stacks[i] == 0 && Checked(cfg, s0, t, from, i + 1)
  {
    hide Arbitrated, ListsExact, EnabledOk, CaughtActive, ChecksSince;
    LogStep(cfg, s, Check(i), IDLE);
    CheckStep(s.log, from, i);
    assert t.log[..from] == s.log[..from];
    assert t.log[..|s0.log|] == s.log[..|s0.log|];
    assert FirstAuras(i) + [i] == FirstAuras(i + 1);
  }

  lemma ChecksGoOn(cfg: Config, s0: State, s: State, t: State, from: nat, i: nat)
    requires Checked(cfg, s0, s, from, i) && Kept(cfg, s, t, IDLE) && Settled(s, t)
    ensures Checked(cfg, s0, t, from, i)
  {
    hide KeptBids, CaughtActive, ChecksSince;
    UndisturbedStep(cfg, s0, s, t, IDLE);
    ChecksStay(s.log, t.log, from, s.depth);
    assert t.log[..from] == t.log[..|s.log|][..from] == s.log[..from];
  }

  /** Between the checks of two auras: i have been checked, and the callbacks of n have run. */
  ghost predicate Standing(cfg: Config, scripts: seq<seq<Command>>, s0: State, s: State, from: nat, i: nat, n: nat, all: set<nat>) {
    && Checked(cfg, s0, s, from, i) && ScriptsTold(cfg, scripts, n, s.active) && NoneCaught(cfg, scripts, i)
    && Marks(s0.bids, s.bids) <= all
  }

  lemma StandingBegins(cfg: Config, scripts: seq<seq<Command>>, s0: State, s: State, all: set<nat>)
    requires Inv(cfg, s, IDLE) && Undisturbed(cfg, s0, s) && NobodyActive(s) && Marks(s0.bids, s.bids) <= all
    ensures Standing(cfg, scripts, s0, s, |s.log|, 0, 0, all)
  {
    hide Checked, Marks, LeftActive, TellingScripts, Undisturbed, Tracking, Arbitrated;
    ChecksBegin(cfg, s0, s);
    InvShape(cfg, s, IDLE);
    NoScriptsYet(cfg, scripts, s);
    NoneCaughtYet(cfg, scripts);
  }

  /** The next aura is checked. */
  lemma StandingCheck(cfg: Config, scripts: seq<seq<Command>>, s0: State, s: State, t: State, from: nat, i: nat, all: set<nat>)
    requires Inv(cfg, s, IDLE) && Standing(cfg, scripts, s0, s, from, i, i, all) && i < |cfg.auras| && t == s.(log := s.log + [Check(i)])
    ensures Inv(cfg, t, IDLE) && Shape(cfg, t) && Undisturbed(cfg, s0, t) && |s0.log| <= from <= |t.log|
    ensures ChecksSince(t.log, from) == FirstAuras(i + 1)
    ensures CaughtActive(t.log, from) <==> t.active[i]
    ensures Marks(s0.bids, t.bids) <= all
    ensures t.active[i] ==> !Backward(scripts) && (TellingChecks(cfg, scripts) ==> Catches(cfg, scripts))
    ensures !t.active[i] ==> t.stacks[i] == 0 && Standing(cfg, scripts, s0, t, from, i + 1, i, all)
  {
    hide Inv, Checked, Undisturbed, CaughtActive, ChecksSince, ScriptsTold, NoneCaught, TellingChecks, Catches, Marks, Backward;
    ChecksReach(cfg, s0, s, from, i);
    NextCheck(cfg, s0, s, t, from, i);
    CheckTold(cfg, scripts, i, s.active);
    if Backward(scripts) {
      BackwardCatchesNone(cfg, scripts);
    }
  }

  lemma StandingChecked(cfg: Config, scripts: seq<seq<Command>>, s0: State, s: State, from: nat, i: nat, all: set<nat>)
    requires Standing(cfg, scripts, s0, s, from, i + 1, i, all)
    ensures Checked(cfg, s0, s, from, i + 1)
  {
  }

  /** Its callback runs. */
  lemma StandingNext(cfg: Config, scripts: seq<seq<Command>>, s0: State, s: State, t: State, from: nat, i: nat, all: set<nat>)
    requires Standing(cfg, scripts, s0, s, from, i + 1, i, all)
    requires Kept(cfg, s, t, IDLE) && Settled(s, t) && Told(cfg, IDLE, s, t, ScriptOf(scripts, i))
    requires Foreseen(cfg, s, t, Works(cfg, IDLE, {}), ScriptOf(scripts, i))
    requires Marks(s.bids, t.bids) <= MayClash(cfg, ScriptOf(scripts, i)) && ScriptsClash(cfg, scripts) <= all
    ensures Standing(cfg, scripts, s0, t, from, i + 1, i + 1, all)
  {
    hide Kept, Settled, Told, Foreseen, Checked, ScriptsTold, NoneCaught, Marks, MayClash, ScriptsClash, Works;
    ChecksGoOn(cfg, s0, s, t, from, i + 1);
    ScriptToldNext(cfg, scripts, i, s, t);
    ScriptClashes(cfg, scripts, i);
    MarksThen(s0.bids, s.bids, t.bids, MayClash(cfg, ScriptOf(scripts, i)), all);
  }

  /** All auras have been checked and their callbacks have run. */
  lemma StandingEnds(cfg: Config, scripts: seq<seq<Command>>, s0: State, s: State, from: nat, all: set<nat>)
    requires Standing(cfg, scripts, s0, s, from, |cfg.auras|, |cfg.auras|, all)
    ensures Undisturbed(cfg, s0, s) && |s0.log| <= from <= |s.log| && ChecksSince(s.log, from) == FirstAuras(|cfg.auras|)
    ensures !CaughtActive(s.log, from) && (TellingChecks(cfg, scripts) ==> !Catches(cfg, scripts))
    ensures ScriptsTold(cfg, scripts, |cfg.auras|, s.active) && Marks(s0.bids, s.bids) <= all
  {
    hide Checked, Undisturbed, CaughtActive, ChecksSince, ScriptsTold, NoneCaught, TellingChecks, Catches, Marks;
    ChecksReach(cfg, s0, s, from, |cfg.auras|);
    NoneCaughtAtAll(cfg, scripts);
  }

  lemma InactiveExpiry(cfg: Config, s0: State, s: State, t: State, from: nat, i: nat, a: nat)
    requires Inv(cfg, s, IDLE) && Checked(cfg, s0, s, from, i) && a < |cfg.auras| && !s.active[a] && t == s.(expires := s.expires[a := 0])
    ensures Inv(cfg, t, IDLE) && Checked(cfg, s0, t, from, i)
    ensures forall scripts, n, all :: Standing(cfg, scripts, s0, s, from, i, n, all) ==> Standing(cfg, scripts, s0, t, from, i, n, all)
  {
    hide Arbitrated, ListsExact, CaughtActive, ChecksSince, ScriptsTold, NoneCaught, Marks;
  }

  lemma CleanStart(cfg: Config, s: State, t: State)
    requires Inv(cfg, s, IDLE) && NobodyActive(s) && |t.lists| == KINDS
    requires t == s.(lists := t.lists, minExpires := NEVER_EXPIRES)
    requires forall k :: 0 <= k < KINDS ==> t.lists[k] == []
    ensures Inv(cfg, t, IDLE) && Shape(cfg, t) && Undisturbed(cfg, s, t) && NobodyActive(t)
    ensures MinExpiresLow(cfg, t.active, t.expires, t.minExpires) && t.lists == s.lists
  {
    hide Arbitrated, ListsExact, LogOk;
    InactiveAtRest(cfg, s);
    assert t.lists == s.lists;
    MinExpiresFree(cfg, s, s);
    NothingDisturbed(cfg, s);
  }

  lemma MinimumKept(cfg: Config, s: State, t: State, ctx: Context)
    requires Kept(cfg, s, t, ctx) && MinExpiresLow(cfg, s.active, s.expires, s.minExpires)
    ensures Shape(cfg, t) && MinExpiresLow(cfg, t.active, t.expires, t.minExpires)
  {
  }

  lemma ChecksReach(cfg: Config, s0: State, s: State, from: nat, i: nat)
    requires Checked(cfg, s0, s, from, i)
    ensures Undisturbed(cfg, s0, s) && |s0.log| <= from <= |s.log| && ChecksSince(s.log, from) == FirstAuras(i) && !CaughtActive(s.log, from)
  {
  }

  lemma UndisturbedSettles(cfg: Config, s: State, t: State)
    requires Undisturbed(cfg, s, t)
    ensures Settled(s, t) && t.now == s.now
  {
  }

  /** Between operations OnGain has run as often as OnExpire, once more for an active aura. */
  lemma InvBalance(cfg: Config, s: State)
    requires Inv(cfg, s, IDLE) && forall a: nat :: Owed(s.log, a) == 0
    ensures Shape(cfg, s)
    ensures forall a :: 0 <= a < |cfg.auras| ==> Gains(s.log, a) - Expiries(s.log, a) == if s.active[a] then 1 else 0
  {
    hide Arbitrated, ListsExact, StacksOk, EnabledOk;
    forall a | 0 <= a < |cfg.auras| ensures Gains(s.log, a) - Expiries(s.log, a) == if s.active[a] then 1 else 0 {
      GainsBalanceExpiries(s.log, a);
    }
  }

  /** With nobody bidding every category is decided. */
  lemma NobodyBids(cfg: Config, b: Bids)
    requires BidsShape(cfg, b) && b.spoiled == {} && b.crowded == {}
    requires forall e :: 0 <= e < |cfg.effects| ==> !b.enabled[e] && b.net[e] == 0 && b.applied[e] == 0.0
    requires forall c :: 0 <= c < |cfg.categories| ==> b.winner[c] == NO_EFFECT
    ensures Arbitrated(cfg, b, IDLE)
  {
    forall c | 0 <= c < |cfg.categories| ensures CategoryOk(cfg, b, c, map[]) {
    }
  }
}

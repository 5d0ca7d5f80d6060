/** What the tracker's invariant says to a reader. */
module AuraFacts {
  import opened AuraState
  import opened AuraLemmas
  import opened AuraSteps
  import opened AuraReach
  import opened AuraIterations
  import opened Callbacks
  import opened Auras
  import AuraEndings
  import AuraReference

  /** Whatever is under way, every callback list holds exactly the active auras that set its callback, once each,
      and an aura's stored position is its true one; an inactive aura is in no list, and at rest has no stacks. */
  lemma ListsHoldTheActive(cfg: Config, s: State, busy: set<nat>, k: nat)
    requires Tracking(cfg, s, busy) && k < KINDS
    ensures forall a :: 0 <= a < |cfg.auras| ==> (a in s.lists[k] <==> s.active[a] && Wants(cfg, a, k))
    ensures forall p, q :: 0 <= p < q < |s.lists[k]| ==> s.lists[k][p] != s.lists[k][q]
    ensures |s.index[k]| == |cfg.auras|
    ensures forall p :: 0 <= p < |s.lists[k]| ==> s.lists[k][p] < |cfg.auras| && s.index[k][s.lists[k][p]] == p
    ensures forall a :: 0 <= a < |cfg.auras| && !s.active[a] ==> s.index[k][a] == NOT_LISTED && (a !in busy ==> s.stacks[a] == 0)
  {
    ExactListsOnce(s.lists[k], s.index[k], Members(cfg, s.active, k));
    forall a | 0 <= a < |cfg.auras| ensures a in s.lists[k] <==> s.active[a] && Wants(cfg, a, k) {
      MemberIff(cfg, s.active, a, k);
    }
    forall a | 0 <= a < |cfg.auras| && !s.active[a] ensures s.index[k][a] == NOT_LISTED {
      MemberIff(cfg, s.active, a, k);
    }
  }

  /** Between operations a category that is not spoiled has an active effect iff one of its effects is enabled,
      which means: iff an aura with an effect in it is active; the active effect's aura is active, and nobody
      bids above it. */
  lemma CategoryDecided(cfg: Config, s: State, c: nat)
    requires Inv(cfg, s, IDLE) && c < |cfg.categories| && c !in s.bids.spoiled
    ensures s.bids.winner[c] == NO_EFFECT <==> (forall e :: InCategory(cfg, e, c) ==> !s.active[cfg.effects[e].aura])
    ensures s.bids.winner[c] != NO_EFFECT ==>
              && InCategory(cfg, s.bids.winner[c], c) && s.active[cfg.effects[s.bids.winner[c]].aura]
              && forall e :: InCategory(cfg, e, c) && s.active[cfg.effects[e].aura] ==> s.bids.priority[e] <= s.bids.priority[s.bids.winner[c]]
  {
    assert CategoryOk(cfg, s.bids, c, map[]);
  }

  ghost function AppliedBy(effects: seq<nat>, applied: seq<real>): real
    requires forall i :: 0 <= i < |effects| ==> effects[i] < |applied|
  {
    if effects == [] then 0.0 else AppliedBy(effects[..|effects| - 1], applied) + applied[effects[|effects| - 1]]
  }

  lemma {:induction false} OnlyOneApplies(effects: seq<nat>, applied: seq<real>, w: int)
    requires forall i :: 0 <= i < |effects| ==> effects[i] < |applied| && (effects[i] != w ==> applied[effects[i]] == 0.0)
    requires forall i, j :: 0 <= i < j < |effects| ==> effects[i] != effects[j]
    ensures AppliedBy(effects, applied) == if 0 <= w && (w as nat) in effects then applied[w] else 0.0
  {
    if effects != [] {
      var init, last := effects[..|effects| - 1], effects[|effects| - 1];
      OnlyOneApplies(init, applied, w);
      assert effects == init + [last];
      if last == w {
        assert forall i :: 0 <= i < |init| ==> init[i] != last;
      }
    }
  }

  /** What the OnGain and OnExpire callbacks of a category that is not spoiled have applied in all is the bid of
      its active effect, and nothing if it has none. */
  lemma AppliedIsTheWinningBid(cfg: Config, s: State, c: nat)
    requires Inv(cfg, s, IDLE) && c < |cfg.categories| && c !in s.bids.spoiled
    ensures forall i :: 0 <= i < |cfg.categories[c].effects| ==> cfg.categories[c].effects[i] < |s.bids.applied|
    ensures s.bids.winner[c] != NO_EFFECT ==> InCategory(cfg, s.bids.winner[c], c)
    ensures AppliedBy(cfg.categories[c].effects, s.bids.applied) ==
            if s.bids.winner[c] == NO_EFFECT then 0.0 else s.bids.priority[s.bids.winner[c]]
  {
    assert CategoryOk(cfg, s.bids, c, map[]);
    assert forall i :: 0 <= i < |cfg.categories[c].effects| ==> InCategory(cfg, cfg.categories[c].effects[i], c);
    OnlyOneApplies(cfg.categories[c].effects, s.bids.applied, s.bids.winner[c]);
  }

  /** In a single-aura category whose effects never yield ties, at most one aura is active, unless the category
      is spoiled or crowded. */
  lemma SingleAuraAlone(cfg: Config, s: State, c: nat, e: nat, f: nat)
    requires Inv(cfg, s, IDLE) && Single(cfg, c) && c !in s.bids.spoiled && c !in s.bids.crowded
    requires InCategory(cfg, e, c) && InCategory(cfg, f, c)
    requires s.active[cfg.effects[e].aura] && s.active[cfg.effects[f].aura]
    ensures e == f
  {
    assert AtMostOneEnabled(cfg, s.bids, c);
  }

  /** Everything the three facts above say of a category. */
  ghost predicate InOrder(cfg: Config, s: State, c: nat)
    requires Shape(cfg, s) && Registered(cfg) && c < |cfg.categories|
  {
    var w := s.bids.winner[c];
    && (w == NO_EFFECT <==> forall e :: InCategory(cfg, e, c) ==> !s.active[cfg.effects[e].aura])
    && (w != NO_EFFECT ==>
          && InCategory(cfg, w, c) && s.active[cfg.effects[w].aura]
          && forall e :: InCategory(cfg, e, c) && s.active[cfg.effects[e].aura] ==> s.bids.priority[e] <= s.bids.priority[w])
    && (forall i :: 0 <= i < |cfg.categories[c].effects| ==> cfg.categories[c].effects[i] < |s.bids.applied|)
    && AppliedBy(cfg.categories[c].effects, s.bids.applied) == (if w == NO_EFFECT then 0.0 else s.bids.priority[w])
    && (Single(cfg, c) ==>
          forall e, f :: InCategory(cfg, e, c) && InCategory(cfg, f, c) && s.active[cfg.effects[e].aura] && s.active[cfg.effects[f].aura] ==> e == f)
  }

  lemma UnmarkedInOrder(cfg: Config, s: State, c: nat)
    requires Inv(cfg, s, IDLE) && c < |cfg.categories| && c !in s.bids.spoiled && c !in s.bids.crowded
    ensures Registered(cfg) && Shape(cfg, s) && InOrder(cfg, s, c)
  {
    CategoryDecided(cfg, s, c);
    AppliedIsTheWinningBid(cfg, s, c);
    InvShape(cfg, s, IDLE);
    hide Inv, AppliedBy;
    if Single(cfg, c) {
      forall e, f | (InCategory(cfg, e, c) && InCategory(cfg, f, c)
                     && s.active[cfg.effects[e].aura] && s.active[cfg.effects[f].aura])
        ensures e == f
      {
        SingleAuraAlone(cfg, s, c, e, f);
      }
    }
  }

  /** After any run, every category in which no commands of the run clash is in order: which categories those are
      can be read off the run before it starts. */
  method RunInOrder(cfg: Config, bids: seq<real>, run: seq<Stretch>) returns (tracker: AuraTracker, panicked: bool)
    requires Registered(cfg) && |bids| == |cfg.effects|
    ensures fresh(tracker) && tracker.cfg == cfg && Shape(cfg, tracker.Snap())
    ensures forall c :: 0 <= c < |cfg.categories| && c !in RunClash(cfg, run) ==> InOrder(cfg, tracker.Snap(), c)
  {
    hide Inv, InOrder, RunClash, CategoryOk, AtMostOneEnabled;
    tracker, panicked := Simulate(cfg, bids, run);
    InvShape(cfg, tracker.Snap(), IDLE);
    forall c | 0 <= c < |cfg.categories| && c !in RunClash(cfg, run) ensures InOrder(cfg, tracker.Snap(), c) {
      assert c !in tracker.spoiled + tracker.crowded;
      UnmarkedInOrder(cfg, tracker.Snap(), c);
    }
  }

  /** An expiry set directly keeps the cached minimum low exactly when it is not set below it; set
      below, the cheap check skips an aura that is already due. */
  lemma DirectExpiryKeepsMinimum(cfg: Config, s: State, a: nat, at: int)
    requires Inv(cfg, s, IDLE) && MinExpiresLow(cfg, s.active, s.expires, s.minExpires)
    requires a < |cfg.auras| && s.active[a] && !Permanent(cfg.auras[a])
    ensures MinExpiresLow(cfg, s.active, s.expires[a := at], s.minExpires) <==> s.minExpires <= at
    ensures at < s.minExpires ==> Overdue(s.active, s.expires[a := at], at, a)
  {
    var expires := s.expires[a := at];
    assert expires[a] == at;
  }

  // ---------------------------------------------------------------- callbacks that do not clash

  /** Commands none of which is given while another is at work clash nowhere, whatever they act on. */
  lemma {:induction false} UnnestedNeverClash(cfg: Config, tape: seq<Command>)
    requires forall i :: 0 <= i < |tape| ==> MayTouch(cfg, tape[i].during) == {} && MayClash(cfg, tape[i].after) == {}
    ensures MayClash(cfg, tape) == {}
    decreases |tape|
  {
    if tape != [] {
      ClashesTouch(cfg, tape[0].during);
      UnnestedNeverClash(cfg, tape[1..]);
    }
  }

  /** An event between operations whose callbacks activate, end and rebid auras of any category, the callbacks of
      those commands acting on no category while the commands are at work: every category that was decided, with
      one aura if it is a single-aura one, still is. */
  method EventDecides(tracker: AuraTracker, k: nat, tape: seq<Command>)
    requires Inv(tracker.cfg, tracker.Snap(), IDLE) && 1 <= k < KINDS
    requires forall i :: 0 <= i < |tape| ==> MayTouch(tracker.cfg, tape[i].during) == {} && MayClash(tracker.cfg, tape[i].after) == {}
    modifies tracker
    ensures Inv(tracker.cfg, tracker.Snap(), IDLE) && BidsShape(tracker.cfg, tracker.Arena())
    ensures tracker.spoiled == old(tracker.spoiled) && tracker.crowded == old(tracker.crowded)
    ensures forall c :: 0 <= c < |tracker.cfg.categories| && c !in old(tracker.spoiled) ==>
              CategoryOk(tracker.cfg, tracker.Arena(), c, map[])
    ensures forall c :: 0 <= c < |tracker.cfg.categories| && c !in old(tracker.spoiled) && c !in old(tracker.crowded) && Single(tracker.cfg, c) ==>
              AtMostOneEnabled(tracker.cfg, tracker.Arena(), c)
  {
    hide Ran, Kept, Tracking, CategoryOk, AtMostOneEnabled, MayTouch, MayClash;
    ghost var s := tracker.Snap();
    UnnestedNeverClash(tracker.cfg, tape);
    var rest := tracker.Fire(k, IDLE, tape);
    RanShape(tracker.cfg, s, tracker.Snap(), IDLE, Works(tracker.cfg, IDLE, {}), tape, rest);
    NothingWorkedOn(tracker.cfg);
  }

  lemma NothingWorkedOn(cfg: Config)
    ensures WorkedOn(cfg, IDLE) == {}
  {
  }

  // ---------------------------------------------------------------- who may activate whom between iterations

  function Simple(spell: nat): AuraConfig {
    AuraConfig(10, 0, spell, seq(KINDS, k => false), [])
  }

  /** Two auras that bid in no category. */
  const PAIR := Config([Simple(0), Simple(1)], [], [])

  function Activation(a: nat): Command {
    Command(Activate(a), [], [])
  }

  lemma PairRegistered()
    ensures Registered(PAIR) && |PAIR.auras| == 2 && PAIR.auras[0].effects == [] && PAIR.auras[1].effects == []
  {
    assert PAIR.auras == [Simple(0), Simple(1)];
  }

  lemma ActivationTells(a: nat, b: nat)
    ensures TellingTape([Activation(a)], b) && MayActivate([Activation(a)]) == {a}
    ensures forall was: bool :: ActiveAfter([Activation(a)], b, was) == (b == a || was)
  {
    assert [Activation(a)][1..] == [];
    assert forall was: bool :: ActiveAfter([Activation(a)][1..], b, was) == was;
    AloneBrings(PAIR, Activation(a));
    NothingFromNothing();
  }

  /** The OnReset of the first aura activates the second: the second's check panics. */
  method ForwardReset() returns (tracker: AuraTracker, panicked: bool)
    ensures fresh(tracker) && tracker.cfg == PAIR && panicked
  {
    hide Inv, TellingTape, ActiveAfter, MayActivate, Undisturbed, CaughtActive, ChecksSince, ScriptsTold, MayClash, ScriptsClash, Marks,
         AuraEndings.Scripted, AuraReference.CoreOf;
    PairRegistered();
    tracker := new AuraTracker(PAIR, [], 0);
    var scripts := [[Activation(1)], []];
    ForwardCaught();
    panicked := tracker.Reset(scripts);
  }

  lemma ForwardCaught()
    ensures TellingChecks(PAIR, [[Activation(1)], []]) && Catches(PAIR, [[Activation(1)], []])
  {
    hide TellingTape, ActiveAfter, MayActivate;
    PairRegistered();
    ActivationTells(1, 1);
    assert LeftActive([[Activation(1)], []], 0, 1) == false;
    assert LeftActive([[Activation(1)], []], 1, 1);
  }

  /** The OnReset of each aura activates the aura itself, which has been checked already: no panic, and both
      start the iteration active. */
  method OwnReset() returns (tracker: AuraTracker, panicked: bool)
    ensures fresh(tracker) && tracker.cfg == PAIR && !panicked && tracker.active == [true, true]
  {
    hide Inv, TellingTape, ActiveAfter, MayActivate, Undisturbed, CaughtActive, ChecksSince, MayClash, ScriptsClash, Marks,
         AuraEndings.Scripted, AuraReference.CoreOf;
    PairRegistered();
    tracker := new AuraTracker(PAIR, [], 0);
    var scripts := [[Activation(0)], [Activation(1)]];
    OwnTold();
    panicked := tracker.Reset(scripts);
    assert tracker.active[0] && tracker.active[1];
  }

  lemma OwnTold()
    ensures Backward([[Activation(0)], [Activation(1)]])
    ensures forall a :: 0 <= a < 2 ==> TellingScripts(PAIR, [[Activation(0)], [Activation(1)]], 2, a) && LeftActive([[Activation(0)], [Activation(1)]], 2, a)
  {
    hide TellingTape, ActiveAfter, MayActivate;
    PairRegistered();
    var scripts := [[Activation(0)], [Activation(1)]];
    forall a: nat | a < 2 ensures TellingScripts(PAIR, scripts, 2, a) && LeftActive(scripts, 2, a) {
      OwnLeft(a);
    }
    ActivationTells(0, 0);
    ActivationTells(1, 1);
  }

  lemma OwnLeft(a: nat)
    requires a < 2
    ensures TellingScripts(PAIR, [[Activation(0)], [Activation(1)]], 2, a) && LeftActive([[Activation(0)], [Activation(1)]], 2, a)
  {
    hide TellingTape, ActiveAfter, MayActivate;
    PairRegistered();
    var scripts := [[Activation(0)], [Activation(1)]];
    ActivationTells(0, a);
    ActivationTells(1, a);
    assert LeftActive(scripts, 1, a) == ActiveAfter([Activation(0)], a, false);
    assert LeftActive(scripts, 2, a) == ActiveAfter([Activation(1)], a, LeftActive(scripts, 1, a));
  }

  // ---------------------------------------------------------------- equal bids

  /** Two auras that bid for one category, with given durations. */
  function TwoBidders(held: int, next: int, single: bool, same: bool, meek: bool): Config {
    Config([AuraConfig(held, 0, 1, seq(KINDS, k => false), [0]), AuraConfig(next, 0, if same then 1 else 2, seq(KINDS, k => false), [1])],
           [EffectConfig(0, 0, false), EffectConfig(1, 0, meek)],
           [CategoryConfig(single, [0, 1])])
  }

  lemma TwoBiddersRegistered(cfg: Config, held: int, next: int, single: bool, same: bool, meek: bool)
    requires 0 < held <= NEVER_EXPIRES && 0 < next <= NEVER_EXPIRES && cfg == TwoBidders(held, next, single, same, meek)
    ensures Registered(cfg) && |cfg.auras| == |cfg.effects| == 2 && |cfg.categories| == 1
    ensures cfg.auras[0].effects == [0] && cfg.auras[1].effects == [1] && cfg.auras[0].duration == held && cfg.auras[1].duration == next
    ensures cfg.auras[0].spell == cfg.auras[1].spell <==> same
    ensures cfg.effects[0] == EffectConfig(0, 0, false) && cfg.effects[1] == EffectConfig(1, 0, meek) && cfg.categories[0].singleAura == single
  {
    PairOfBidders(cfg);
  }

  lemma PairOfBidders(cfg: Config)
    requires |cfg.auras| == |cfg.effects| == 2 && |cfg.categories| == 1 && cfg.categories[0].effects == [0, 1]
    requires forall a :: 0 <= a < 2 ==>
               cfg.auras[a].effects == [a] && |cfg.auras[a].hears| == KINDS && 0 < cfg.auras[a].duration <= NEVER_EXPIRES
    requires forall e :: 0 <= e < 2 ==> cfg.effects[e].aura == e && cfg.effects[e].category == 0
    ensures Registered(cfg)
  {
    assert forall e :: 0 <= e < 2 ==> cfg.categories[0].effects[e] == e && cfg.auras[e].effects[0] == e;
  }

  /** The first of them alone, at the start. */
  ghost predicate Holds(cfg: Config, s: State, held: int) {
    && Inv(cfg, s, IDLE) && Shape(cfg, s) && |cfg.auras| == |cfg.effects| == 2 && |cfg.categories| == 1
    && s.active == [true, false] && s.expires[0] == (if held == NEVER_EXPIRES then NEVER_EXPIRES else held) && s.now == 0
    && s.bids.enabled == [true, false] && s.bids.winner == [0] && s.bids.priority == [1.0, 1.0]
    && s.bids.spoiled == {} && s.bids.crowded == {}
  }

  method FirstHolds(held: int, next: int, single: bool, same: bool, meek: bool) returns (tracker: AuraTracker)
    requires 0 < held <= NEVER_EXPIRES && 0 < next <= NEVER_EXPIRES
    ensures fresh(tracker) && tracker.cfg == TwoBidders(held, next, single, same, meek) && Holds(tracker.cfg, tracker.Snap(), held)
  {
    hide Tracking, Arbitrated, Ran, Registered, NobodyActive, PlainTape, Calm;
    var cfg := TwoBidders(held, next, single, same, meek);
    TwoBiddersRegistered(cfg, held, next, single, same, meek);
    hide TwoBidders;
    tracker := new AuraTracker(cfg, [1.0, 1.0], 0);
    NothingFromNothing();
    InvShape(cfg, tracker.Snap(), IDLE);
    InactiveAtRest(cfg, tracker.Snap());
    ghost var s := tracker.Snap();
    assert !tracker.Blocks(0) && tracker.Takes(0);
    hide AuraTracker.Blocks, AuraTracker.Takes;
    var landed := tracker.Activate(0, IDLE, [], []);
    InvShape(cfg, tracker.Snap(), IDLE);
    FirstAlone(cfg, s, tracker.Snap());
  }

  lemma FirstAlone(cfg: Config, s: State, t: State)
    requires Inv(cfg, t, IDLE) && Shape(cfg, s) && Shape(cfg, t) && Calm(cfg, s.bids, t.bids, IDLE, {0})
    requires |cfg.auras| == |cfg.effects| == 2 && |cfg.categories| == 1 && cfg.effects[0].aura == 0 && cfg.effects[1].aura == 1
    requires t.active[0] && forall e :: 0 <= e < 2 ==> !s.bids.enabled[e]
    requires s.bids.spoiled == {} && s.bids.crowded == {}
    ensures t.active == [true, false] && t.bids.enabled == [true, false] && t.bids.spoiled == {} && t.bids.crowded == {}
    ensures t.bids.priority == s.bids.priority
  {
    hide ListsExact, LogOk, StacksOk;
  }

  /** An aura holds a category and another activates at the same instant with an equal bid.  If only one aura may
      stand the newcomer is kept out exactly if the holder lasts longer, and otherwise ends it; if both may, the
      newcomer takes the category exactly if it does not yield and is the same spell or lasts no less. */
  method TiedRun(held: int, next: int, single: bool, same: bool, meek: bool) returns (tracker: AuraTracker, landed: bool)
    requires 0 < held <= NEVER_EXPIRES && 0 < next <= NEVER_EXPIRES
    ensures fresh(tracker) && tracker.cfg == TwoBidders(held, next, single, same, meek)
    ensures |tracker.active| == 2 && |tracker.winner| == 1
    ensures landed == tracker.active[1] == !(single && next < held)
    ensures tracker.winner[0] == if landed && !meek && (same || held <= next) then 1 else 0
    ensures tracker.active[0] <==> !(single && tracker.winner[0] == 1)
  {
    hide Tracking, Arbitrated, Ran, Registered, PlainTape, Calm, HoldsAfter;
    tracker := FirstHolds(held, next, single, same, meek);
    var cfg := tracker.cfg;
    TwoBiddersRegistered(cfg, held, next, single, same, meek);
    NothingFromNothing();
    ghost var s := tracker.Snap();
    tracker.TiesInFields(1);
    ghost var takes := tracker.Takes(1);
    hide AuraTracker.Blocks, AuraTracker.Takes;
    landed := tracker.Activate(1, IDLE, [], []);
    InvShape(cfg, tracker.Snap(), IDLE);
    CalmIsOrderly(cfg, s, tracker.Snap());
    TieDecided(tracker, s, takes, landed);
  }

  /** What holds between operations while no callback has upset the category. */
  ghost predicate Orderly(cfg: Config, t: State) {
    && Shape(cfg, t) && |cfg.auras| == |cfg.effects| == 2 && |cfg.categories| == 1
    && t.bids.enabled[0] == t.active[0]
    && CategoryOk(cfg, t.bids, 0, map[]) && (Single(cfg, 0) ==> AtMostOneEnabled(cfg, t.bids, 0))
  }

  lemma CalmIsOrderly(cfg: Config, s: State, t: State)
    requires Inv(cfg, t, IDLE) && Calm(cfg, s.bids, t.bids, IDLE, {1}) && s.bids.spoiled == {} && s.bids.crowded == {}
    requires |cfg.auras| == |cfg.effects| == 2 && |cfg.categories| == 1 && cfg.effects[0].aura == 0
    ensures Orderly(cfg, t)
  {
    hide ListsExact, LogOk, StacksOk, CategoryOk, AtMostOneEnabled;
  }

  lemma TieDecided(tracker: AuraTracker, s: State, takes: bool, landed: bool)
    requires Orderly(tracker.cfg, tracker.Snap()) && Shape(tracker.cfg, s) && Registered(tracker.cfg) && s.active[0]
    requires var cfg := tracker.cfg;
             && cfg.effects[0] == EffectConfig(0, 0, false) && cfg.effects[1].aura == 1 && cfg.effects[1].category == 0
             && s.bids.enabled[0] && s.bids.winner == [0]
             && Ran(cfg, s, tracker.Snap(), IDLE, Works(cfg, IDLE, {}), [Command(Activate(1), [], [])], [])
             && (takes ==> !cfg.effects[1].yieldsTies)
             && (if landed then tracker.enabled[1] && HoldsAfter(tracker.cfg, 1, takes, s.bids, tracker.Arena()) else tracker.Arena() == s.bids)
    ensures tracker.winner[0] == if landed && takes then 1 else 0
    ensures tracker.active[0] <==> !(tracker.cfg.categories[0].singleAura && tracker.winner[0] == 1)
  {
    var cfg, t := tracker.cfg, tracker.Snap();
    assert InCategory(cfg, 0, 0) && InCategory(cfg, 1, 0);
    if landed && takes && !cfg.categories[0].singleAura {
      hide Orderly, HoldsAfter;
      StaysBeside(cfg, s, t);
    }
    hide Ran, Registered;
  }

  /** Nobody is displaced in a category that admits several auras. */
  lemma StaysBeside(cfg: Config, s: State, t: State)
    requires Ran(cfg, s, t, IDLE, Works(cfg, IDLE, {}), [Command(Activate(1), [], [])], [])
    requires |cfg.categories| == 1 && !cfg.categories[0].singleAura && |cfg.auras| == 2 && s.active[0]
    ensures t.active[0]
  {
    var command := Command(Activate(1), [], []);
    AloneBrings(cfg, command);
    NothingFromNothing();
    assert forall a, h :: !Callbacks.Rivals(cfg, a, h);
    assert Displaced(cfg, MayActivate([command])) == {};
    hide Kept, Settled, Displaced, MayActivate, MayEnd;
    StaysActive(cfg, s, t, Works(cfg, IDLE, {}), [command], 0);
  }

  /** A permanent aura keeps a newcomer of ten seconds with an equal bid out of a category that admits one aura;
      one of five seconds gives way to it and ends. */
  method PermanentStays() returns (tracker: AuraTracker, landed: bool)
    ensures !landed && |tracker.active| == 2 && tracker.active[0] && !tracker.active[1] && tracker.winner == [0]
  {
    tracker, landed := TiedRun(NEVER_EXPIRES, 10_000_000_000, true, false, false);
  }

  method ShorterGivesWay() returns (tracker: AuraTracker, landed: bool)
    ensures landed && |tracker.active| == 2 && !tracker.active[0] && tracker.active[1] && tracker.winner == [1]
  {
    tracker, landed := TiedRun(5_000_000_000, 10_000_000_000, true, false, false);
  }

  // ---------------------------------------------------------------- events and expiries

  /** An event that one aura listens to runs its callback, up to the first Return: every aura that the callback
      tells of is as it says. */
  method LoneListener(tracker: AuraTracker, k: nat, a: nat, tape: seq<Command>) returns (rest: seq<Command>)
    requires Inv(tracker.cfg, tracker.Snap(), IDLE) && 1 <= k < KINDS && |tracker.lists| == KINDS && tracker.lists[k] == [a]
    modifies tracker
    ensures Inv(tracker.cfg, tracker.Snap(), IDLE) && |tracker.active| == |old(tracker.active)| == |tracker.cfg.auras|
    ensures rest == PastCallback(tape)
    ensures forall b: nat :: Traceable(tracker.cfg, IDLE, b) && TellingTape(tape, b) ==>
              tracker.active[b] == ActiveAfter(tape, b, old(tracker.active)[b])
  {
    hide Inv, Ran, TellingTape, ActiveAfter, MayCost, PastCallback;
    ghost var s := tracker.Snap();
    rest := tracker.Fire(k, IDLE, tape);
    var n := 1;
    assert PastCallbacks(tape, 1) == PastCallback(PastCallbacks(tape, 0)) == PastCallback(tape);
    assert forall b: nat, was: bool :: ActiveThrough(tape, 1, b, was) == ActiveAfter(tape, b, was) by {
      assert forall b: nat, was: bool :: ActiveThrough(tape, 0, b, was) == was;
    }
  }

  /** Two auras of ten and of thirty seconds that bid in no category, the first of which alone listens to events of
      kind 1. */
  ghost predicate TenAndThirty(cfg: Config) {
    && Registered(cfg) && |cfg.auras| == 2 && cfg.auras[0].effects == [] && cfg.auras[1].effects == []
    && cfg.auras[0].duration == 10_000_000_000 && cfg.auras[1].duration == 30_000_000_000
    && cfg.auras[0].hears[1] && !cfg.auras[1].hears[1]
  }

  lemma ListensAlone(cfg: Config, s: State)
    requires TenAndThirty(cfg) && Inv(cfg, s, IDLE) && Shape(cfg, s) && s.active == [true, false]
    ensures s.lists[1] == [0]
  {
    hide Arbitrated, LogOk, StacksOk, EnabledOk;
    var list, index, members := s.lists[1], s.index[1], Members(cfg, s.active, 1);
    assert Exact(list, index, members) && members[0] && !members[1];
    assert forall p :: 0 <= p < |list| ==> list[p] == 0;
    assert 0 <= index[0] < |list| && index[list[0]] == 0 && index[list[|list| - 1]] == |list| - 1;
  }

  /** Nobody but the first aura active. */
  method FirstUp(cfg: Config) returns (tracker: AuraTracker)
    requires TenAndThirty(cfg) && |cfg.effects| == 0
    ensures fresh(tracker) && tracker.cfg == cfg && Inv(cfg, tracker.Snap(), IDLE) && Shape(cfg, tracker.Snap())
    ensures tracker.active == [true, false] && tracker.expires == [10_000_000_000, 0] && tracker.now == 0
    ensures MinExpiresLow(cfg, tracker.active, tracker.expires, tracker.minExpires)
  {
    hide Tracking, Arbitrated, Ran, PlainTape, Calm, AuraReference.Activated, Kept, Foreseen, Registered, MinExpiresLow, NobodyActive;
    tracker := new AuraTracker(cfg, [], 0);
    InvShape(cfg, tracker.Snap(), IDLE);
    ghost var s := tracker.Snap();
    AuraReference.QuietlyActivated(cfg, tracker.Core(), {}, 0);
    var landed := tracker.Activate(0, IDLE, [], []);
    RanKept(cfg, s, tracker.Snap(), IDLE, Works(cfg, IDLE, {}), [Activation(0)], []);
    MinimumKept(cfg, s, tracker.Snap(), IDLE);
    InvShape(cfg, tracker.Snap(), IDLE);
  }

  /** Its callback activates the second when an event fires. */
  method EventActivates(cfg: Config) returns (tracker: AuraTracker)
    requires TenAndThirty(cfg) && |cfg.effects| == 0
    ensures fresh(tracker) && tracker.cfg == cfg && tracker.active == [true, true]
  {
    hide Tracking, Arbitrated, Ran, TellingTape, ActiveAfter, MayActivate, PastCallback;
    tracker := FirstUp(cfg);
    ListensAlone(cfg, tracker.Snap());
    ActivationTells(1, 0);
    ActivationTells(1, 1);
    var rest := LoneListener(tracker, 1, 0, [Activation(1)]);
  }

  /** Both auras start at once; ten seconds later the first has ended and the second stays. */
  method FirstExpires(cfg: Config) returns (tracker: AuraTracker)
    requires TenAndThirty(cfg) && |cfg.effects| == 0
    ensures fresh(tracker) && tracker.cfg == cfg && tracker.active == [false, true] && |tracker.expires| == 2 && tracker.expires[1] == 30_000_000_000
  {
    hide Tracking, Arbitrated, Ran, PlainTape, Calm, AuraReference.Activated, Kept, Foreseen, CallbacksCost, MayActivate, AuraEndings.Ends,
         Registered, MinExpiresLow;
    tracker := FirstUp(cfg);
    ghost var s := tracker.Snap();
    AuraReference.QuietlyActivated(cfg, tracker.Core(), {}, 1);
    var landed := tracker.Activate(1, IDLE, [], []);
    RanKept(cfg, s, tracker.Snap(), IDLE, Works(cfg, IDLE, {}), [Activation(1)], []);
    MinimumKept(cfg, s, tracker.Snap(), IDLE);
    InvShape(cfg, tracker.Snap(), IDLE);
    tracker.AdvanceTo(10_000_000_000, []);
    InvShape(cfg, tracker.Snap(), IDLE);
  }

  function Lasting(duration: int, listens: bool): AuraConfig {
    AuraConfig(duration, 0, 0, seq(KINDS, k => listens && k == 1), [])
  }

  lemma TenAndThirtyExist() returns (cfg: Config)
    ensures TenAndThirty(cfg) && |cfg.effects| == 0
  {
    cfg := Config([Lasting(10_000_000_000, true), Lasting(30_000_000_000, false)], [], []);
  }
}

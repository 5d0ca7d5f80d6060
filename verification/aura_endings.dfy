/** Auras that end between operations: which of them, in what order, and what that costs. */
module AuraEndings {
  import opened AuraState
  import opened AuraLemmas
  import opened Callbacks
  import opened AuraReach
  import opened AuraIterations
  import opened AuraReference

  // ---------------------------------------------------------------- one after the other

  /** Which aura a scan ends next: the first one due among those that may expire, the first one that may expire, or
      the first one active at all. */
  datatype Pick = Due | Mortal | Anybody

  ghost predicate Picks(pick: Pick, c: Core, a: nat) {
    var mortals := At(c.lists, 0, []);
    match pick
    case Due => exists i :: 0 <= i < |mortals| && mortals[i] == a && FirstDue(c, mortals, i)
    case Mortal => mortals != [] && mortals[0] == a
    case Anybody => At(c.active, a, false) && forall b: nat :: b < a ==> !At(c.active, b, false)
  }

  ghost predicate FirstDue(c: Core, mortals: seq<nat>, i: nat)
    requires i < |mortals|
  {
    && At(c.expires, mortals[i], 0) <= c.now
    && forall j :: 0 <= j < i ==> c.now < At(c.expires, mortals[j], 0)
  }

  /** At most one. */
  lemma PicksOne(pick: Pick, c: Core, a: nat, b: nat)
    requires Picks(pick, c, a) && Picks(pick, c, b)
    ensures a == b
  {
    if pick.Due? {
      var mortals := At(c.lists, 0, []);
      var i :| 0 <= i < |mortals| && mortals[i] == a && FirstDue(c, mortals, i);
      var j :| 0 <= j < |mortals| && mortals[j] == b && FirstDue(c, mortals, j);
      assert i == j;
    }
  }

  /** An aura's end: its callbacks read the tapes of the first command on the list that ends it, which is taken off
      the list; without such a command it ends without callbacks. */
  function AuraEnds(cfg: Config, c: Core, a: nat, endings: seq<Command>): Outcome {
    var i := NextEnding(endings, a);
    if i < |endings|
    then Outcome(Deactivated(cfg, c, {}, a, endings[i].during, endings[i].after), endings[..i] + endings[i + 1..])
    else Outcome(Deactivated(cfg, c, {}, a, [], []), endings)
  }

  function EndsInTurn(cfg: Config, c: Core, endings: seq<Command>, ended: seq<nat>): Outcome {
    if ended == [] then Outcome(c, endings)
    else
      var o := EndsInTurn(cfg, c, endings, ended[..|ended| - 1]);
      AuraEnds(cfg, o.core, ended[|ended| - 1], o.rest)
  }

  ghost predicate Picked(pick: Pick, cfg: Config, c: Core, endings: seq<Command>, ended: seq<nat>) {
    forall i :: 0 <= i < |ended| ==> Picks(pick, EndsInTurn(cfg, c, endings, ended[..i]).core, ended[i])
  }

  /** One aura after the other, each the one picked in the state the ends before it have left, until none is. */
  ghost predicate Ends(pick: Pick, cfg: Config, c: Core, endings: seq<Command>, c': Core) {
    exists ended: seq<nat> :: EndsWith(pick, cfg, c, endings, ended, c')
  }

  ghost predicate EndsWith(pick: Pick, cfg: Config, c: Core, endings: seq<Command>, ended: seq<nat>, c': Core) {
    && Picked(pick, cfg, c, endings, ended)
    && c' == EndsInTurn(cfg, c, endings, ended).core
    && forall a: nat :: !Picks(pick, c', a)
  }

  lemma NobodyEnded(pick: Pick, cfg: Config, c: Core, endings: seq<Command>)
    ensures Picked(pick, cfg, c, endings, []) && EndsInTurn(cfg, c, endings, []) == Outcome(c, endings)
  {
  }

  lemma EndsNext(pick: Pick, cfg: Config, c: Core, endings: seq<Command>, ended: seq<nat>, a: nat)
    requires Picked(pick, cfg, c, endings, ended) && Picks(pick, EndsInTurn(cfg, c, endings, ended).core, a)
    ensures Picked(pick, cfg, c, endings, ended + [a])
    ensures var o := EndsInTurn(cfg, c, endings, ended);
            EndsInTurn(cfg, c, endings, ended + [a]) == AuraEnds(cfg, o.core, a, o.rest)
  {
    hide Picks, AuraEnds;
    var more := ended + [a];
    assert more[..|ended|] == ended;
    assert forall i :: 0 <= i < |ended| ==> more[..i] == ended[..i];
  }

  /** Who is picked, and so what is left, is determined. */
  lemma EndsOneWay(pick: Pick, cfg: Config, c: Core, endings: seq<Command>, c1: Core, c2: Core)
    requires Ends(pick, cfg, c, endings, c1) && Ends(pick, cfg, c, endings, c2)
    ensures c1 == c2
  {
    hide Picks, EndsInTurn;
    var ended1 :| EndsWith(pick, cfg, c, endings, ended1, c1);
    var ended2 :| EndsWith(pick, cfg, c, endings, ended2, c2);
    var shorter := if |ended1| <= |ended2| then |ended1| else |ended2|;
    SamePicks(pick, cfg, c, endings, ended1, ended2, shorter);
    assert ended1[..|ended1|] == ended1 && ended2[..|ended2|] == ended2;
    if |ended1| < |ended2| {
      assert false;
    }
    if |ended2| < |ended1| {
      assert false;
    }
  }

  lemma {:induction false} SamePicks(pick: Pick, cfg: Config, c: Core, endings: seq<Command>, ended1: seq<nat>, ended2: seq<nat>, n: nat)
    requires Picked(pick, cfg, c, endings, ended1) && Picked(pick, cfg, c, endings, ended2) && n <= |ended1| && n <= |ended2|
    ensures ended1[..n] == ended2[..n]
  {
    hide Picks, EndsInTurn;
    if n > 0 {
      SamePicks(pick, cfg, c, endings, ended1, ended2, n - 1);
      PicksOne(pick, EndsInTurn(cfg, c, endings, ended1[..n - 1]).core, ended1[n - 1], ended2[n - 1]);
      assert ended1[..n] == ended1[..n - 1] + [ended1[n - 1]];
      assert ended2[..n] == ended2[..n - 1] + [ended2[n - 1]];
    }
  }

  // ---------------------------------------------------------------- iterations

  /** The callbacks of the first n auras, each preceded at an iteration's end by its expiry being cleared. */
  function Scripted(cfg: Config, c: Core, scripts: seq<seq<Command>>, n: nat, clearing: bool): Core {
    if n == 0 then c
    else
      var c1 := Scripted(cfg, c, scripts, n - 1, clearing);
      Callback(cfg, if clearing then c1.(expires := Put(c1.expires, n - 1, 0)) else c1, {}, ScriptOf(scripts, n - 1)).core
  }

  /** Every aura ends, and then each aura's OnDoneIteration runs. */
  ghost predicate IterationEnds(cfg: Config, c: Core, endings: seq<Command>, scripts: seq<seq<Command>>, c': Core) {
    exists c1 :: Ends(Anybody, cfg, c, endings, c1) && c' == Scripted(cfg, c1, scripts, |cfg.auras|, true)
  }

  lemma IterationEndsOneWay(cfg: Config, c: Core, endings: seq<Command>, scripts: seq<seq<Command>>, c1: Core, c2: Core)
    requires IterationEnds(cfg, c, endings, scripts, c1) && IterationEnds(cfg, c, endings, scripts, c2)
    ensures c1 == c2
  {
    hide Ends, Scripted;
    var d1 :| Ends(Anybody, cfg, c, endings, d1) && c1 == Scripted(cfg, d1, scripts, |cfg.auras|, true);
    var d2 :| Ends(Anybody, cfg, c, endings, d2) && c2 == Scripted(cfg, d2, scripts, |cfg.auras|, true);
    EndsOneWay(Anybody, cfg, c, endings, d1, d2);
  }

  lemma NoneScripted(cfg: Config, c: Core, scripts: seq<seq<Command>>, clearing: bool)
    ensures Scripted(cfg, c, scripts, 0, clearing) == c
  {
  }

  /** One more aura's callback. */
  lemma ScriptedNext(cfg: Config, c: Core, scripts: seq<seq<Command>>, i: nat, s: State, s1: State, t: State, clearing: bool)
    requires CoreOf(s) == Scripted(cfg, c, scripts, i, clearing) && i < |s.expires|
    requires s1 == (if clearing then s.(expires := s.expires[i := 0], log := s1.log) else s.(log := s1.log))
    requires CoreOf(t) == Callback(cfg, CoreOf(s1), {}, ScriptOf(scripts, i)).core
    ensures CoreOf(t) == Scripted(cfg, c, scripts, i + 1, clearing)
  {
    hide Callback;
  }

  // ---------------------------------------------------------------- who is lost, and who is not

  /** Whoever was active and is not is among the given auras, or a callback may have ended it; whoever is active and
      was not, a callback may have activated. */
  ghost predicate Spared(cfg: Config, s: State, t: State, gone: set<nat>, endings: seq<Command>) {
    Lost(s, t) <= gone + CallbacksCost(cfg, endings) && Gained(s, t) <= MayActivate(endings)
  }

  lemma SparedStill(cfg: Config, s: State, t: State, gone: set<nat>, endings: seq<Command>)
    requires t.active == s.active
    ensures Spared(cfg, s, t, gone, endings)
  {
  }

  /** One more aura, which is among those given, has ended. */
  lemma SparedOn(cfg: Config, s: State, t: State, u: State, gone: set<nat>, a: nat, endings: seq<Command>, before: seq<Command>)
    requires Spared(cfg, s, t, gone, endings) && Spared(cfg, t, u, {a}, before) && BringsLess(cfg, before, endings) && a in gone
    ensures Spared(cfg, s, u, gone, endings)
  {
    DifferencesAdd(s, t, u);
    hide Lost, Gained, CallbacksCost, MayActivate, MayEnd, MayTouch, MayClash;
  }

  /** The aura has ended, and its callbacks have run. */
  lemma AuraEnded(cfg: Config, s: State, t: State, a: nat, endings: seq<Command>, i: nat)
    requires i < |endings| && endings[i].op == Deactivate(a)
    requires Ran(cfg, s, t, IDLE, Works(cfg, IDLE, {}), [Command(Deactivate(a), endings[i].during, endings[i].after)], [])
    ensures Marks(s.bids, t.bids) <= MayClash(cfg, endings) && Kept(cfg, s, t, IDLE) && Settled(s, t)
    ensures BringsLess(cfg, endings[..i] + endings[i + 1..], endings)
    ensures Spared(cfg, s, t, {a}, endings)
  {
    hide Marks, Lost, Gained, Kept, Settled, Foreseen, MayActivate, MayEnd, MayTouch, MayClash, CallbacksCost;
    assert endings[i] == Command(Deactivate(a), endings[i].during, endings[i].after);
    IdleMarks(cfg, s, t, [endings[i]]);
    EndingBringsLess(cfg, endings, i);
    OneSpared(cfg, s, t, a, endings[i]);
  }

  lemma OneSpared(cfg: Config, s: State, t: State, a: nat, command: Command)
    requires command.op == Deactivate(a) && Foreseen(cfg, s, t, Works(cfg, IDLE, {}), [command])
    ensures Spared(cfg, s, t, {a}, [command])
  {
    hide Lost, Gained, Marks, MayActivate, MayEnd, MayTouch, MayClash, Displaced, MayMark, CallbacksCost;
    AloneBrings(cfg, command);
    DisplacedTogether(cfg, MayActivate(command.during), MayActivate(command.after));
    AloneCosts(cfg, command);
    assert MayActivate([command]) == MayActivate(command.during) + MayActivate(command.after);
    assert MayCost(cfg, [command]) <= {a} + CallbacksCost(cfg, [command]);
  }

  /** So it is without callbacks. */
  lemma AuraEndedQuietly(cfg: Config, s: State, t: State, a: nat)
    requires Ran(cfg, s, t, IDLE, Works(cfg, IDLE, {}), [Command(Deactivate(a), [], [])], [])
    ensures Marks(s.bids, t.bids) == {} && Gained(s, t) == {} && Lost(s, t) <= {a} && Kept(cfg, s, t, IDLE) && Settled(s, t)
  {
    hide Marks, Gained, Lost, Kept, Settled, ActsOn, Displaced;
    NothingFromNothing();
    var command := Command(Deactivate(a), [], []);
    AloneBrings(cfg, command);
    IdleMarks(cfg, s, t, [command]);
    NoNewcomers(cfg);
    assert MayCost(cfg, [command]) == {a};
  }

  /** After one more aura of the list has ended: what is left of the list, and what has been marked, stay within it. */
  lemma StillFewer(cfg: Config, b: Bids, b': Bids, b'': Bids, endings: seq<Command>, before: seq<Command>, rest: seq<Command>)
    requires Marks(b, b') <= MayClash(cfg, endings) && BringsLess(cfg, before, endings)
    requires Marks(b', b'') <= MayClash(cfg, before) && BringsLess(cfg, rest, before)
    ensures Marks(b, b'') <= MayClash(cfg, endings) && BringsLess(cfg, rest, endings)
  {
    BringsLessOn(cfg, endings, before, rest);
    hide Marks, MayActivate, MayEnd, CallbacksCost, MayTouch, MayClash;
    MarksThen(b, b', b'', MayClash(cfg, before), MayClash(cfg, endings));
  }

  /** Whoever is active was, and is to end when it was to. */
  ghost predicate AsBefore(s: State, t: State) {
    && |s.active| == |s.expires| == |t.active| == |t.expires|
    && forall b :: 0 <= b < |t.active| && t.active[b] ==> s.active[b] && t.expires[b] == s.expires[b]
  }

  /** A scan that has ended some auras so far, all of them among those given. */
  ghost predicate Ending(pick: Pick, cfg: Config, s: State, t: State, gone: set<nat>,
                         endings: seq<Command>, rest: seq<Command>, ended: seq<nat>) {
    && Spared(cfg, s, t, gone, endings)
    && Marks(s.bids, t.bids) <= MayClash(cfg, endings) && BringsLess(cfg, rest, endings)
    && Picked(pick, cfg, CoreOf(s), endings, ended)
    && Outcome(CoreOf(t), rest) == EndsInTurn(cfg, CoreOf(s), endings, ended)
    && (endings == [] ==> rest == [] && AsBefore(s, t))
  }

  lemma EndingBegins(pick: Pick, cfg: Config, s: State, gone: set<nat>, endings: seq<Command>)
    requires Shape(cfg, s)
    ensures Ending(pick, cfg, s, s, gone, endings, endings, [])
  {
    hide Marks, BringsLess, MayClash;
    SparedStill(cfg, s, s, gone, endings);
    NothingMarked(s.bids);
    BringsLessItself(cfg, endings);
    NobodyEnded(pick, cfg, CoreOf(s), endings);
  }

  /** The cached minimum concerns nobody. */
  lemma EndingStill(pick: Pick, cfg: Config, s: State, t: State, m: int, gone: set<nat>,
                    endings: seq<Command>, rest: seq<Command>, ended: seq<nat>)
    requires Ending(pick, cfg, s, t, gone, endings, rest, ended)
    ensures Ending(pick, cfg, s, t.(minExpires := m), gone, endings, rest, ended)
  {
    hide Picked, EndsInTurn, BringsLess, MayClash;
    SameCore(t, t.(minExpires := m));
  }

  /** What the end of one aura has come to. */
  ghost predicate OneEnd(cfg: Config, s: State, t: State, a: nat, before: seq<Command>, rest: seq<Command>) {
    && Spared(cfg, s, t, {a}, before)
    && Marks(s.bids, t.bids) <= MayClash(cfg, before) && BringsLess(cfg, rest, before)
    && Outcome(CoreOf(t), rest) == AuraEnds(cfg, CoreOf(s), a, before)
    && (|rest| < |before| || (rest == before && a < |s.active| == |s.expires|
                              && t.active == s.active[a := false] && t.expires == s.expires[a := 0]))
  }

  lemma EndingOn(pick: Pick, cfg: Config, s: State, t: State, u: State, gone: set<nat>, endings: seq<Command>,
                 before: seq<Command>, rest: seq<Command>, ended: seq<nat>, a: nat)
    requires Ending(pick, cfg, s, t, gone, endings, before, ended) && a in gone && Picks(pick, CoreOf(t), a)
    requires OneEnd(cfg, t, u, a, before, rest)
    ensures Ending(pick, cfg, s, u, gone, endings, rest, ended + [a])
  {
    hide Spared, Picks, Picked, EndsInTurn, AuraEnds, BringsLess, Marks, MayClash, CoreOf;
    SparedOn(cfg, s, t, u, gone, a, endings, before);
    StillFewer(cfg, s.bids, t.bids, u.bids, endings, before, rest);
    EndsNext(pick, cfg, CoreOf(s), endings, ended, a);
    assert EndsInTurn(cfg, CoreOf(s), endings, ended) == Outcome(CoreOf(t), before);
  }

  /** The scan is over once nobody is picked. */
  lemma EndingEnds(pick: Pick, cfg: Config, s: State, t: State, gone: set<nat>, endings: seq<Command>, rest: seq<Command>, ended: seq<nat>)
    requires Ending(pick, cfg, s, t, gone, endings, rest, ended) && forall a: nat :: !Picks(pick, CoreOf(t), a)
    ensures Ends(pick, cfg, CoreOf(s), endings, CoreOf(t)) && Marks(s.bids, t.bids) <= MayClash(cfg, endings)
    ensures Spared(cfg, s, t, gone, endings) && (endings == [] ==> AsBefore(s, t))
  {
    hide Spared, Picks, Picked, BringsLess, Marks, MayClash, CoreOf, AsBefore;
    assert EndsWith(pick, cfg, CoreOf(s), endings, ended, CoreOf(t)) by { hide EndsInTurn; }
  }

  // ---------------------------------------------------------------- who was due

  /** The auras that are due, those that may expire at all, and all there are. */
  ghost function DueIn(cfg: Config, s: State): set<nat> {
    set a: nat | a < |cfg.auras| && a < |s.active| && s.active[a] && !Permanent(cfg.auras[a]) && a < |s.expires| && s.expires[a] <= s.now
  }

  ghost function Mortals(cfg: Config): set<nat> {
    set a: nat | a < |cfg.auras| && !Permanent(cfg.auras[a])
  }

  ghost function Everyone(cfg: Config): set<nat> {
    set a: nat {:trigger cfg.auras[a]} | a < |cfg.auras|
  }

  /** Whoever was lost was among those given, or a callback may have ended it; without callbacks those given, and
      nobody else, are gone, if none of them is left. */
  lemma WhoIsLost(cfg: Config, s: State, t: State, gone: set<nat>, endings: seq<Command>)
    requires Shape(cfg, s) && Shape(cfg, t) && Spared(cfg, s, t, gone, endings) && (endings == [] ==> AsBefore(s, t))
    ensures forall a :: 0 <= a < |cfg.auras| && s.active[a] && !t.active[a] ==> a in gone || a in CallbacksCost(cfg, endings)
    ensures forall a :: 0 <= a < |cfg.auras| && !s.active[a] && t.active[a] ==> a in MayActivate(endings)
    ensures endings == [] ==> forall a :: 0 <= a < |cfg.auras| && (a in gone ==> !t.active[a]) ==>
              (t.active[a] <==> s.active[a] && a !in gone) && (t.active[a] ==> t.expires[a] == s.expires[a])
  {
    assert endings == [] ==> CallbacksCost(cfg, endings) == {};
    hide CallbacksCost, MayActivate;
    forall a | 0 <= a < |cfg.auras| && s.active[a] && !t.active[a] ensures a in gone || a in CallbacksCost(cfg, endings) {
      assert a in Lost(s, t);
    }
    forall a | 0 <= a < |cfg.auras| && !s.active[a] && t.active[a] ensures a in MayActivate(endings) {
      assert a in Gained(s, t);
    }
  }

  lemma OnlyDueLost(cfg: Config, s: State, t: State)
    requires Shape(cfg, s) && Shape(cfg, t) && t.now == s.now
    requires forall a :: 0 <= a < |cfg.auras| && t.active[a] && !Permanent(cfg.auras[a]) ==> t.now < t.expires[a]
    ensures forall a :: 0 <= a < |cfg.auras| && s.active[a] ==>
              (a in DueIn(cfg, s) <==> !Permanent(cfg.auras[a]) && s.expires[a] <= s.now)
  {
  }

  /** The first aura on the list that is due is picked, and was due before the scan. */
  lemma FirstDueIsPicked(cfg: Config, s0: State, s: State, i: nat)
    requires Inv(cfg, s, IDLE) && Shape(cfg, s) && Undisturbed(cfg, s0, s) && Scanned(cfg, s, i) && i < |s.lists[0]|
    requires s.lists[0][i] < |s.expires| && s.expires[s.lists[0][i]] <= s.now
    ensures Picks(Due, CoreOf(s), s.lists[0][i]) && s.lists[0][i] in DueIn(cfg, s0)
    ensures Overdue(s.active, s.expires, s.now, s.lists[0][i])
  {
    Listed(cfg, s, 0, i);
    hide Inv;
    var c := CoreOf(s);
    assert At(c.lists, 0, []) == s.lists[0] && FirstDue(c, s.lists[0], i);
    assert Overdue(s.active, s.expires, s.now, s.lists[0][i]);
  }

  lemma NobodyDue(cfg: Config, s: State)
    requires Inv(cfg, s, IDLE) && Shape(cfg, s) && Scanned(cfg, s, |s.lists[0]|)
    ensures forall a: nat :: !Picks(Due, CoreOf(s), a)
  {
    hide Inv;
  }

  /** Before the cached minimum nothing is picked. */
  lemma NothingDueYet(cfg: Config, s: State, endings: seq<Command>)
    requires Inv(cfg, s, IDLE) && Shape(cfg, s) && MinExpiresLow(cfg, s.active, s.expires, s.minExpires) && s.now < s.minExpires
    ensures Ends(Due, cfg, CoreOf(s), endings, CoreOf(s))
  {
    forall i | 0 <= i < |s.lists[0]| ensures s.lists[0][i] < |s.expires| && s.now < s.expires[s.lists[0][i]] {
      Listed(cfg, s, 0, i);
    }
    hide Inv;
    assert forall a: nat :: !Picks(Due, CoreOf(s), a);
    hide Picks;
    EndingBegins(Due, cfg, s, {}, endings);
    EndingEnds(Due, cfg, s, s, {}, endings, endings, []);
  }

  lemma FirstListedIsPicked(cfg: Config, s: State)
    requires Inv(cfg, s, IDLE) && Shape(cfg, s) && s.lists[0] != []
    ensures Picks(Mortal, CoreOf(s), s.lists[0][0]) && s.lists[0][0] in Mortals(cfg)
  {
    Listed(cfg, s, 0, 0);
    hide Inv;
  }

  lemma FirstActiveIsPicked(s: State, a: nat)
    requires a < |s.active| && s.active[a] && forall b :: 0 <= b < a ==> !s.active[b]
    ensures Picks(Anybody, CoreOf(s), a)
  {
  }

  lemma NobodyPicked(pick: Pick, cfg: Config, s: State)
    requires Shape(cfg, s)
    requires (pick.Mortal? && s.lists[0] == []) || (pick.Anybody? && NobodyActive(s))
    ensures forall a: nat :: !Picks(pick, CoreOf(s), a)
  {
  }

  /** Without a command for it on the list the aura ends quietly. */
  lemma QuietEnd(cfg: Config, s: State, t: State, a: nat, endings: seq<Command>)
    requires Shape(cfg, s) && a < |cfg.auras| && s.active[a] && NextEnding(endings, a) == |endings|
    requires CoreOf(t) == Deactivated(cfg, CoreOf(s), {}, a, [], [])
    requires Marks(s.bids, t.bids) == {} && Gained(s, t) == {} && Lost(s, t) <= {a}
    ensures OneEnd(cfg, s, t, a, endings, endings)
  {
    hide Marks, Gained, Lost, MayClash, MayActivate, CallbacksCost, BringsLess;
    BringsLessItself(cfg, endings);
    QuietlyDeactivated(cfg, CoreOf(s), {}, a);
    hide Deactivated;
  }
}

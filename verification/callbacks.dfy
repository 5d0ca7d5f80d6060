/** What callbacks do: the commands they give the tracker, and what such commands may bring about,
    whatever state they meet. */
module Callbacks {
  import opened AuraState

  datatype Op =
    | Return
    | Activate(aura: nat)
    | Deactivate(aura: nat)
    | Refresh(aura: nat)
    | SetStacks(aura: nat, n: int)
    | UpdateExpires(aura: nat, at: int)
    | SetPriority(effect: nat, bid: real)
    | Fire(kind: nat)

  /** A command a callback gives the tracker, or the callback's end, together with the commands of the
      callbacks it causes: `during` is read by those that run while the command is at work on the categories
      it acts on, `after` by all others (OnGain, OnExpire, OnStacksChange, the turns of an event). */
  datatype Command = Command(op: Op, during: seq<Command>, after: seq<Command>)

  /** How many commands a tape holds, nested ones included, and as many ends of their tapes. */
  ghost function Weight(tape: seq<Command>): nat {
    if tape == [] then 0 else 2 + Weight(tape[0].during) + Weight(tape[0].after) + Weight(tape[1..])
  }

  /** The auras that some command, at any depth, activates. */
  ghost function MayActivate(tape: seq<Command>): set<nat> {
    if tape == [] then {}
    else
      (if tape[0].op.Activate? then {tape[0].op.aura} else {})
      + MayActivate(tape[0].during) + MayActivate(tape[0].after) + MayActivate(tape[1..])
  }

  /** The auras that some command, at any depth, ends, directly or with their stacks. */
  ghost function MayEnd(tape: seq<Command>): set<nat> {
    if tape == [] then {}
    else
      (if tape[0].op.Deactivate? || tape[0].op.SetStacks? then {tape[0].op.aura} else {})
      + MayEnd(tape[0].during) + MayEnd(tape[0].after) + MayEnd(tape[1..])
  }

  /** What follows a callback on its tape: the callback reads up to the first Return. */
  function PastCallback(tape: seq<Command>): (rest: seq<Command>)
    ensures Weight(rest) < Weight(tape) || (tape == rest == [])
  {
    if tape == [] then [] else if tape[0].op.Return? then tape[1..] else PastCallback(tape[1..])
  }

  /** What follows n of them. */
  function PastCallbacks(tape: seq<Command>, n: nat): seq<Command> {
    if n == 0 then tape else PastCallback(PastCallbacks(tape, n - 1))
  }

  // ---------------------------------------------------------------- categories

  /** The categories in which an aura bids. */
  ghost function BidsIn(cfg: Config, a: nat): set<nat> {
    set e | 0 <= e < |cfg.effects| && cfg.effects[e].aura == a :: cfg.effects[e].category
  }

  /** Whether the activation of aura a may end aura h: they bid in the same single-aura category. */
  ghost predicate Rivals(cfg: Config, a: nat, h: nat) {
    exists e, f :: && 0 <= e < |cfg.effects| && 0 <= f < |cfg.effects|
                   && cfg.effects[e].aura == a && cfg.effects[f].aura == h
                   && cfg.effects[e].category == cfg.effects[f].category < |cfg.categories|
                   && cfg.categories[cfg.effects[e].category].singleAura
  }

  /** The auras that the activation of one of some auras may end. */
  ghost function Displaced(cfg: Config, newcomers: set<nat>): set<nat> {
    set f | 0 <= f < |cfg.effects| && (exists a :: a in newcomers && Rivals(cfg, a, cfg.effects[f].aura)) :: cfg.effects[f].aura
  }

  lemma DisplacedMore(cfg: Config, few: set<nat>, many: set<nat>)
    requires few <= many
    ensures Displaced(cfg, few) <= Displaced(cfg, many)
  {
  }

  lemma DisplacedTogether(cfg: Config, some: set<nat>, others: set<nat>)
    ensures Displaced(cfg, some + others) == Displaced(cfg, some) + Displaced(cfg, others)
  {
  }

  lemma NoNewcomers(cfg: Config)
    ensures Displaced(cfg, {}) == {}
  {
  }

  lemma DisplacedBids(cfg: Config, newcomers: set<nat>, h: nat)
    requires Registered(cfg) && h in Displaced(cfg, newcomers)
    ensures h < |cfg.auras| && cfg.auras[h].effects != []
  {
  }

  /** The auras that some command, at any depth, may end: directly, with their stacks, or by activating an aura
      that bids against them for a category that admits one aura only. */
  ghost function MayCost(cfg: Config, tape: seq<Command>): set<nat> {
    MayEnd(tape) + Displaced(cfg, MayActivate(tape))
  }

  lemma CostsLess(cfg: Config, less: seq<Command>, tape: seq<Command>)
    requires MayActivate(less) <= MayActivate(tape) && MayEnd(less) <= MayEnd(tape)
    ensures MayCost(cfg, less) <= MayCost(cfg, tape)
  {
    hide Displaced, MayActivate, MayEnd;
    DisplacedMore(cfg, MayActivate(less), MayActivate(tape));
  }

  /** Nobody displaces an aura that bids in no category. */
  lemma OnlyEnded(cfg: Config, tape: seq<Command>, a: nat)
    requires Registered(cfg) && a < |cfg.auras| && cfg.auras[a].effects == []
    ensures a in MayCost(cfg, tape) <==> a in MayEnd(tape)
  {
    hide Displaced, MayActivate, MayEnd;
    if a in Displaced(cfg, MayActivate(tape)) {
      DisplacedBids(cfg, MayActivate(tape), a);
    }
  }

  /** The categories an activation may change: those in which the aura bids, and those in which an aura bids
      that it may end. */
  ghost function Claims(cfg: Config, a: nat): set<nat> {
    BidsIn(cfg, a) + set g | 0 <= g < |cfg.effects| && Rivals(cfg, a, cfg.effects[g].aura) :: cfg.effects[g].category
  }

  /** The categories a command acts on. */
  ghost function ActsOn(cfg: Config, op: Op): set<nat> {
    match op
    case Activate(a) => Claims(cfg, a)
    case Deactivate(a) => BidsIn(cfg, a)
    case SetStacks(a, _) => BidsIn(cfg, a)
    case SetPriority(e, _) => if e < |cfg.effects| then {cfg.effects[e].category} else {}
    case _ => {}
  }

  /** The categories that some command, at any depth, acts on. */
  ghost function MayTouch(cfg: Config, tape: seq<Command>): set<nat> {
    if tape == [] then {}
    else ActsOn(cfg, tape[0].op) + MayTouch(cfg, tape[0].during) + MayTouch(cfg, tape[0].after) + MayTouch(cfg, tape[1..])
  }

  /** The categories that some command acts on while a command that caused it is at work on them. */
  ghost function MayClash(cfg: Config, tape: seq<Command>): set<nat> {
    if tape == [] then {}
    else
      ActsOn(cfg, tape[0].op) * MayTouch(cfg, tape[0].during)
      + MayClash(cfg, tape[0].during) + MayClash(cfg, tape[0].after) + MayClash(cfg, tape[1..])
  }

  /** No command acts on an aura that bids, or on a bid. */
  ghost predicate PlainTape(cfg: Config, tape: seq<Command>) {
    MayTouch(cfg, tape) == {}
  }

  // ---------------------------------------------------------------- parts of a tape

  ghost predicate Suffix(rest: seq<Command>, tape: seq<Command>) {
    |rest| <= |tape| && rest == tape[|tape| - |rest|..]
  }

  lemma SuffixOn(tape: seq<Command>, rest: seq<Command>, last: seq<Command>)
    requires Suffix(rest, tape) && Suffix(last, rest)
    ensures Suffix(last, tape)
  {
  }

  /** What a tape may bring about its first command or the others may. */
  lemma FirstThenRest(cfg: Config, tape: seq<Command>)
    requires tape != []
    ensures Weight(tape) == 2 + Weight(tape[0].during) + Weight(tape[0].after) + Weight(tape[1..])
    ensures MayActivate(tape) == MayActivate([tape[0]]) + MayActivate(tape[1..])
    ensures MayEnd(tape) == MayEnd([tape[0]]) + MayEnd(tape[1..])
    ensures MayTouch(cfg, tape) == MayTouch(cfg, [tape[0]]) + MayTouch(cfg, tape[1..])
    ensures MayClash(cfg, tape) == MayClash(cfg, [tape[0]]) + MayClash(cfg, tape[1..])
  {
    hide ActsOn;
    assert [tape[0]][1..] == [];
  }

  /** Everything a tape may bring about, it may bring about with more commands before it. */
  lemma {:induction false} SuffixBringsLess(cfg: Config, tape: seq<Command>, rest: seq<Command>)
    requires Suffix(rest, tape)
    ensures Weight(rest) <= Weight(tape) && (|rest| < |tape| ==> Weight(rest) < Weight(tape))
    ensures MayActivate(rest) <= MayActivate(tape) && MayEnd(rest) <= MayEnd(tape)
    ensures MayTouch(cfg, rest) <= MayTouch(cfg, tape) && MayClash(cfg, rest) <= MayClash(cfg, tape)
    decreases |tape|
  {
    hide Weight, MayActivate, MayEnd, MayTouch, MayClash, Suffix;
    if |rest| < |tape| {
      SuffixOfTail(tape, rest);
      SuffixBringsLess(cfg, tape[1..], rest);
      FirstThenRest(cfg, tape);
    } else {
      SuffixWhole(tape, rest);
    }
  }

  lemma SuffixWhole(tape: seq<Command>, rest: seq<Command>)
    requires Suffix(rest, tape) && |rest| >= |tape|
    ensures rest == tape
  {
  }

  lemma SuffixOfTail(tape: seq<Command>, rest: seq<Command>)
    requires Suffix(rest, tape) && |rest| < |tape|
    ensures Suffix(rest, tape[1..])
  {
  }

  /** So it may with more commands after it. */
  lemma FirstBringsLess(cfg: Config, tape: seq<Command>)
    requires tape != []
    ensures Weight(tape[0].during) + Weight(tape[0].after) + 2 <= Weight(tape)
    ensures MayActivate([tape[0]]) <= MayActivate(tape) && MayEnd([tape[0]]) <= MayEnd(tape)
    ensures MayTouch(cfg, [tape[0]]) <= MayTouch(cfg, tape) && MayClash(cfg, [tape[0]]) <= MayClash(cfg, tape)
  {
    hide Weight, MayActivate, MayEnd, MayTouch, MayClash;
    FirstThenRest(cfg, tape);
  }

  /** The auras that the callbacks of the commands may end, the commands themselves aside. */
  ghost function CallbacksCost(cfg: Config, tape: seq<Command>): set<nat> {
    if tape == [] then {}
    else MayCost(cfg, tape[0].during) + MayCost(cfg, tape[0].after) + CallbacksCost(cfg, tape[1..])
  }

  lemma CostFirstThenRest(cfg: Config, tape: seq<Command>)
    requires tape != []
    ensures CallbacksCost(cfg, tape) == CallbacksCost(cfg, [tape[0]]) + CallbacksCost(cfg, tape[1..])
  {
    hide MayCost;
    assert [tape[0]][1..] == [];
  }

  lemma AloneCosts(cfg: Config, command: Command)
    ensures CallbacksCost(cfg, [command]) == MayCost(cfg, command.during) + MayCost(cfg, command.after)
  {
    hide MayCost;
    assert [command][1..] == [];
  }

  /** Everything the commands on one tape may bring about, those on the other may. */
  ghost predicate BringsLess(cfg: Config, less: seq<Command>, tape: seq<Command>) {
    && MayActivate(less) <= MayActivate(tape) && MayEnd(less) <= MayEnd(tape) && CallbacksCost(cfg, less) <= CallbacksCost(cfg, tape)
    && MayTouch(cfg, less) <= MayTouch(cfg, tape) && MayClash(cfg, less) <= MayClash(cfg, tape)
  }

  lemma AloneBrings(cfg: Config, command: Command)
    ensures MayActivate([command]) ==
            (if command.op.Activate? then {command.op.aura} else {}) + MayActivate(command.during) + MayActivate(command.after)
    ensures MayEnd([command]) ==
            (if command.op.Deactivate? || command.op.SetStacks? then {command.op.aura} else {}) + MayEnd(command.during) + MayEnd(command.after)
    ensures MayTouch(cfg, [command]) == ActsOn(cfg, command.op) + MayTouch(cfg, command.during) + MayTouch(cfg, command.after)
    ensures MayClash(cfg, [command]) ==
            ActsOn(cfg, command.op) * MayTouch(cfg, command.during) + MayClash(cfg, command.during) + MayClash(cfg, command.after)
  {
    hide ActsOn;
    assert [command][1..] == [];
  }

  /** A clash in a category takes commands that act on it. */
  lemma {:induction false} ClashesTouch(cfg: Config, tape: seq<Command>)
    ensures MayClash(cfg, tape) <= MayTouch(cfg, tape)
    decreases tape
  {
    hide ActsOn;
    if tape != [] {
      ClashesTouch(cfg, tape[0].during);
      ClashesTouch(cfg, tape[0].after);
      ClashesTouch(cfg, tape[1..]);
    }
  }

  /** An aura that bids in no category claims none, and only such an aura is acted on by a plain command. */
  lemma ClaimsNone(cfg: Config, a: nat)
    requires Registered(cfg) && a < |cfg.auras|
    ensures BidsIn(cfg, a) == {} <==> cfg.auras[a].effects == []
    ensures BidsIn(cfg, a) <= Claims(cfg, a)
    ensures cfg.auras[a].effects == [] ==> Claims(cfg, a) == {}
  {
    if cfg.auras[a].effects != [] {
      var e := cfg.auras[a].effects[0];
      assert Owns(cfg, a, e);
      assert cfg.effects[e].category in BidsIn(cfg, a);
    }
  }

  // ---------------------------------------------------------------- the callbacks of each aura

  /** The first command on a list that deactivates the aura a; the list's length if there is none. */
  function NextEnding(endings: seq<Command>, a: nat): (i: nat)
    ensures i <= |endings| && (i < |endings| ==> endings[i].op == Deactivate(a))
    ensures forall j :: 0 <= j < i ==> endings[j].op != Deactivate(a)
  {
    if endings == [] || endings[0].op == Deactivate(a) then 0 else 1 + NextEnding(endings[1..], a)
  }

  lemma BringsLessOn(cfg: Config, tape: seq<Command>, less: seq<Command>, least: seq<Command>)
    requires BringsLess(cfg, less, tape) && BringsLess(cfg, least, less)
    ensures BringsLess(cfg, least, tape)
  {
    hide MayActivate, MayEnd, CallbacksCost, MayTouch, MayClash;
  }

  lemma BringsLessItself(cfg: Config, tape: seq<Command>)
    ensures BringsLess(cfg, tape, tape)
  {
    hide MayActivate, MayEnd, CallbacksCost, MayTouch, MayClash;
  }

  lemma PartBringsLess(cfg: Config, tape: seq<Command>)
    requires tape != []
    ensures BringsLess(cfg, [tape[0]], tape) && BringsLess(cfg, tape[1..], tape)
  {
    hide MayActivate, MayEnd, CallbacksCost, MayTouch, MayClash;
    FirstThenRest(cfg, tape);
    CostFirstThenRest(cfg, tape);
  }

  lemma FirstAndLess(cfg: Config, less: seq<Command>, tape: seq<Command>)
    requires less != [] && tape != [] && less[0] == tape[0] && BringsLess(cfg, less[1..], tape[1..])
    ensures BringsLess(cfg, less, tape)
  {
    hide MayActivate, MayEnd, CallbacksCost, MayTouch, MayClash;
    FirstThenRest(cfg, less);
    FirstThenRest(cfg, tape);
    CostFirstThenRest(cfg, less);
    CostFirstThenRest(cfg, tape);
  }

  lemma {:induction false} EndingBringsLess(cfg: Config, endings: seq<Command>, i: nat)
    requires i < |endings|
    ensures BringsLess(cfg, [endings[i]], endings)
    ensures BringsLess(cfg, endings[..i] + endings[i + 1..], endings)
    decreases i
  {
    hide BringsLess;
    PartBringsLess(cfg, endings);
    var tail, others := endings[1..], endings[..i] + endings[i + 1..];
    if i == 0 {
      assert others == tail;
    } else {
      EndingBringsLess(cfg, tail, i - 1);
      BringsLessOn(cfg, endings, tail, [endings[i]]);
      assert others[1..] == tail[..i - 1] + tail[i..];
      FirstAndLess(cfg, others, endings);
    }
  }

  /** The callback of the i-th aura; none if there is no script for it. */
  function ScriptOf(scripts: seq<seq<Command>>, i: nat): seq<Command> {
    if i < |scripts| then scripts[i] else []
  }

  /** The categories in which the callbacks clash. */
  ghost function ScriptsClash(cfg: Config, scripts: seq<seq<Command>>): set<nat> {
    if scripts == [] then {} else ScriptsClash(cfg, scripts[..|scripts| - 1]) + MayClash(cfg, scripts[|scripts| - 1])
  }

  lemma {:induction false} ScriptClashes(cfg: Config, scripts: seq<seq<Command>>, i: nat)
    ensures MayClash(cfg, ScriptOf(scripts, i)) <= ScriptsClash(cfg, scripts)
    decreases |scripts|
  {
    hide MayClash;
    NothingFromNothing();
    if scripts != [] && i != |scripts| - 1 {
      ScriptClashes(cfg, scripts[..|scripts| - 1], i);
    }
  }

  // ---------------------------------------------------------------- scripts that tell who is active

  /** Whether the command alone tells whether aura a, which bids in no category, is active after it. */
  ghost predicate Telling(command: Command, a: nat) {
    if command.op == Activate(a) then a !in MayEnd(command.after)
    else if command.op == Deactivate(a) then a !in MayActivate(command.after)
    else a !in MayActivate([command]) && a !in MayEnd([command])
  }

  ghost predicate TellingTape(tape: seq<Command>, a: nat) {
    forall i :: 0 <= i < |tape| ==> Telling(tape[i], a)
  }

  /** Whether aura a is active after a callback: the last command that names it tells. */
  ghost function ActiveAfter(tape: seq<Command>, a: nat, was: bool): bool {
    if tape == [] || tape[0].op.Return? then was
    else ActiveAfter(tape[1..], a, if tape[0].op == Activate(a) then true else if tape[0].op == Deactivate(a) then false else was)
  }

  /** Whether aura a is active after n callbacks that read the tape one after the other. */
  ghost function ActiveThrough(tape: seq<Command>, n: nat, a: nat, was: bool): bool {
    if n == 0 then was else ActiveAfter(PastCallbacks(tape, n - 1), a, ActiveThrough(tape, n - 1, a, was))
  }

  /** A tape that tells goes on telling. */
  lemma {:induction false} TellingPast(tape: seq<Command>, n: nat, a: nat)
    requires TellingTape(tape, a)
    ensures TellingTape(PastCallbacks(tape, n), a)
  {
    hide Telling;
    if n > 0 {
      TellingPast(tape, n - 1, a);
      TellingOn(PastCallbacks(tape, n - 1), a);
    }
  }

  lemma {:induction false} TellingOn(tape: seq<Command>, a: nat)
    requires TellingTape(tape, a)
    ensures TellingTape(PastCallback(tape), a)
  {
    hide Telling;
    if tape != [] && !tape[0].op.Return? {
      TellingOn(tape[1..], a);
    }
  }

  /** Whether aura a, inactive before, is active once the first n auras' callbacks have run. */
  ghost function LeftActive(scripts: seq<seq<Command>>, n: nat, a: nat): bool {
    if n == 0 then false else ActiveAfter(ScriptOf(scripts, n - 1), a, LeftActive(scripts, n - 1, a))
  }

  /** Whether the first n scripts tell whether aura a is active after them: they never activate it, or it bids
      in no category and each of their commands tells. */
  ghost predicate TellingScripts(cfg: Config, scripts: seq<seq<Command>>, n: nat, a: nat)
    requires a < |cfg.auras|
  {
    || (forall j :: 0 <= j < n ==> a !in MayActivate(ScriptOf(scripts, j)))
    || (cfg.auras[a].effects == [] && forall j :: 0 <= j < n ==> TellingTape(ScriptOf(scripts, j), a))
  }

  /** The scripts tell of each aura whether an earlier aura's callback has left it active. */
  ghost predicate TellingChecks(cfg: Config, scripts: seq<seq<Command>>) {
    forall a :: 0 <= a < |cfg.auras| ==> TellingScripts(cfg, scripts, a, a)
  }

  /** Some aura has been left active by the callbacks of the auras before it. */
  ghost predicate Catches(cfg: Config, scripts: seq<seq<Command>>) {
    exists a :: 0 <= a < |cfg.auras| && LeftActive(scripts, a, a)
  }

  /** Each aura's callback activates, directly or through the callbacks it causes, no aura after it. */
  ghost predicate Backward(scripts: seq<seq<Command>>) {
    forall i, a :: 0 <= i < |scripts| && a in MayActivate(scripts[i]) ==> a <= i
  }

  /** No callback activates anything. */
  ghost predicate Silent(scripts: seq<seq<Command>>) {
    forall i :: 0 <= i < |scripts| ==> MayActivate(scripts[i]) == {}
  }

  lemma {:induction false} NeverActivated(tape: seq<Command>, a: nat)
    requires a !in MayActivate(tape)
    ensures !ActiveAfter(tape, a, false)
    decreases |tape|
  {
    if tape != [] {
      NeverActivated(tape[1..], a);
    }
  }

  lemma {:induction false} NeverLeftActive(scripts: seq<seq<Command>>, n: nat, a: nat)
    requires forall j :: 0 <= j < n ==> a !in MayActivate(ScriptOf(scripts, j))
    ensures !LeftActive(scripts, n, a)
  {
    if n > 0 {
      NeverLeftActive(scripts, n - 1, a);
      NeverActivated(ScriptOf(scripts, n - 1), a);
    }
  }

  /** Callbacks that activate no later aura tell of every aura that it is not left active. */
  lemma BackwardCatchesNone(cfg: Config, scripts: seq<seq<Command>>)
    requires Backward(scripts)
    ensures TellingChecks(cfg, scripts) && !Catches(cfg, scripts)
  {
    hide LeftActive, MayActivate;
    NothingFromNothing();
    forall a: nat | a < |cfg.auras|
      ensures TellingScripts(cfg, scripts, a, a) && !LeftActive(scripts, a, a)
    {
      forall j | 0 <= j < a ensures a !in MayActivate(ScriptOf(scripts, j)) {
        assert j < |scripts| ==> ScriptOf(scripts, j) == scripts[j];
      }
      NeverLeftActive(scripts, a, a);
    }
  }

  /** Callbacks that activate nothing leave nobody active, and tell so. */
  lemma SilentLeavesNone(cfg: Config, scripts: seq<seq<Command>>, n: nat)
    requires Silent(scripts)
    ensures forall a :: 0 <= a < |cfg.auras| ==> TellingScripts(cfg, scripts, n, a) && !LeftActive(scripts, n, a)
  {
    hide LeftActive, MayActivate;
    NothingFromNothing();
    forall a: nat | a < |cfg.auras|
      ensures TellingScripts(cfg, scripts, n, a) && !LeftActive(scripts, n, a)
    {
      assert forall j :: 0 <= j < n ==> MayActivate(ScriptOf(scripts, j)) == {};
      NeverLeftActive(scripts, n, a);
    }
  }

  lemma NothingFromNothing()
    ensures Weight([]) == 0 && MayActivate([]) == {} && MayEnd([]) == {}
    ensures forall cfg :: MayTouch(cfg, []) == {} && MayClash(cfg, []) == {} && PlainTape(cfg, [])
  {
  }
}

# Verified core of the combat simulator

This project models the stateful core of a discrete-event combat simulator, `sim/core`, and proves what that
core promises over whole runs. Times are whole nanoseconds, float amounts are reals, collections the simulator
changes in place are fields that methods reassign. Check it with `dafny verify dfyconfig.toml`.

| file | models |
|---|---|
| `common.dfy` | an optional value and numbers as the simulator writes them |
| `auras.dfy`, `callbacks.dfy`, `aura_lemmas.dfy`, `aura_reach.dfy`, `aura_steps.dfy`, `aura_iterations.dfy`, `aura_endings.dfy`, `aura_tracker.dfy`, `aura_facts.dfy` | the aura tracker: fifteen callback lists with back-indices, lazy minimum expiry and re-entrant event dispatch, under arbitrary callbacks |
| `aura_reference.dfy` | the same as a function, without positions, cached minimum, buffers and early exits, which the tracker refines |
| `arbitration.dfy`, `aura_conflicts.dfy` | the arbitration of exclusive effects, and exactly when callbacks upset it |
| `dots.dfy` | the damage-over-time schedule, its rounding and rank exclusion |
| `groups.dfy` | expansion of action groups by a worklist that grows while it is walked, and the binding of references to copies |
| `values.dfy`, `value_readings.dfy`, `value_facts.dfy` | the condition compiler: coercion, constant folding, orphaned nodes, filling of placeholders |
| `sequences.dfy` | the strict-sequence controller that hooks the spell queue's callback, with the plain sequences that wrap it too |
| `ranged.dfy` | the ranged swing timer with its windup |
| `mana.dfy`, `energy.dfy` | lazily credited regen against its integral, and closed-form waiting times against the tick loops |
| `splitmix.dfy` | the random number generator |
| `item_swap.dfy` | the gear-swap ledger |
| `tmi.dfy` | the sliding window of the damage-smoothness metric |
| `cooldowns.dfy` | the major-cooldown list with its cached minimum |

How the pieces are modelled:

- Callbacks the tracker cannot see, those of exclusive effects included, are tapes of commands: a method that
  runs callbacks reads the commands they will issue, in the order they are issued, and returns the rest; each
  command brings the tapes of the callbacks it causes in turn, those that run while it is at work on categories
  apart from the others. A contract for all tapes holds whatever terminating callbacks do with the commands
  modelled, and what a tape may activate, end or act on is a function of the tape (`callbacks.dfy`). The ledger
  of events (`log`) is what the properties about order are stated over.
- Every operation of the tracker is also proved to do, for all tapes, what `aura_reference.dfy` says: who is active and
  until when, stacks, the order of every list, bids, active effects and what their callbacks applied. The reference
  looks for an aura in its lists instead of storing positions, walks the list an event found instead of a buffer,
  caches nothing and says who is kept out and who takes a category in the words of the bids. What happens between
  operations is a relation (`AuraEndings.Ends`: auras end one after the other, each the one picked in the state the
  ends before it have left) that is proved to determine the outcome; `Simulate` carries both over whole runs
  (`RunMakes`, `RunOneWay`).
- The invariant `AuraState.Inv` has two parts. `Tracking` (lists, positions, stacks, the ledger of events) holds
  whatever callbacks do. `Arbitrated` (one decided winner per category, its bid applied exactly) holds of every
  category that is not spoiled, and at most one bidder stands in a single-aura category that is not crowded
  either. A category is spoiled once a callback has bid, withdrawn or changed a bid in it while it was between
  two active effects, or has bid above the challenger that was taking it over; it is crowded once an effect has
  bid in it while another aura under way did. Which categories those can be is read off the tapes: a category is
  marked only if a command acts on it while another that caused it is at work on it (`Callbacks.MayClash`), or
  while an operation already under way is. So callbacks that act only on auras that do not bid, as those of the
  totem auras (`sim/core/buffs/drivers.go:288-299`), mark nothing, and neither does an event callback that
  activates a bidding aura, as the Enrage trigger (`sim/warrior/talents_fury.go:130-141`, `EventDecides`);
  `Simulate` carries the condition over whole runs. Not every clash leaves its category undecided:
  `ContestedTakeOver`, `RebidTakeOver` and `ContestedHandover` give the exact conditions for what an OnExpire does
  to its category.
- Between iterations each aura's OnDoneIteration and OnReset has a script of its own. `Backward` scripts, in which
  no aura's callback activates a later one, never reach the panic; where the scripts tell (`TellingChecks`: every
  command that names an aura without exclusive effects says itself what becomes of it, and no other aura is
  activated), the panic is reached exactly if `Catches` finds an aura left active before its check.
- `AuraState.Kept` is what an operation leaves alone while others are under way, so re-entrant calls compose.
- A compiled condition is compared with `ValueFacts.Meaning`, a definition that reads the condition directly and
  knows neither wrappers, folding nor node construction; what a value is worth as another type and when two compare is
  said apart from the getters (`value_readings.dfy`). A literal under And, Or or Not reads as yes exactly when
  its text is not empty, which is what the constant constructor stores, so "0" reads as yes there although a
  wrapped zero reads as no; `WrappedFill` and `FillingUnderNot` state exactly when that shows.
- The regen integrals are defined by the rate in force at each instant, apart from how and when it is credited;
  `Mana.RegenIsSum` ties the closed form to a sum over nanoseconds.
- Properties that do not hold everywhere are stated with the exact condition, and with an input that fails:
  `ContestedTakeOver` and `RebidTakeOver` (`NestedActivation`), `ContestedHandover` (`DisplacedActivation`),
  `DoneIteration` and `Reset` of the tracker (a callback that activates an aura still to be checked,
  `ForwardReset`), `DirectExpiryKeepsMinimum` (an expiry set below the cached minimum is missed), `PullAndShoot`
  (a swing without a time winds up before it may, `EarlyShot`), `StartChannel` (`LateChannel`) and `SetEnabled`
  (regen since the last tick is credited at the state of the credit, `LeavesPlay`), `WaitForMana` (durations are
  truncated to nanoseconds, `ShortWait`), `MultiplyEnergyRegenSpeed` and `NeverIsNever` (a tick time of zero reads
  as no tick, `TickAtZero`), `FillingUnderNot` and `FillingRejected`, `CopyOnto` and `RestoreTo` (a dot started
  beside another rank, `CopiedBeside`, `RestoredBeside`), `Fire` of a hook beneath another controller,
  `ExecutePlain` (`NestedPlains`), `Reset` of the rotation (`LeftOver`, `StaleHook`), `StaleMinimumMisses`, and
  `Reset` of swapped armor (`HelmetLeft`).
- The comment on the rotation's hook says that any callback that manages the queue action gets the last word
  (`sim/core/apl_actions_sequences.go:289-293`); `CastIsBack` shows that this word is the cast only when no
  wrapper stands beneath a plain one. The code is followed.

## Model

| member | source | states |
|---|---|---|
| AuraLemmas.SwapRemoveTakesOne | sim/core/aura.go:1007-1011 | swap-with-last removal takes out exactly the entry at the index, as a multiset, whatever entry moves into its place |
| AuraLemmas.SwapRemoveKeepsExact | sim/core/aura.go:861-876 | after the removal the list holds exactly the remaining members once each, and every stored index, the moved entry's included, is the true position |
| AuraLemmas.GainsBalanceExpiries | sim/core/aura.go:708-1005 | along any ledger of events OnGain has run as often as OnExpire, once more for an active aura and once more for each fade still owed its OnExpire |
| AuraLemmas.DeeperTurnsHidden | sim/core/aura.go:1013-1029 | the turns of nested events never show among the turns of an outer one |
| Auras.AuraTracker.Enlist | sim/core/aura.go:740-815 | an aura that becomes active is appended to every list whose callback it sets and to no other; all fifteen lists stay exact |
| Auras.AuraTracker.Delist | sim/core/aura.go:861-990 | an aura that becomes inactive leaves every list it stood in, nothing else does, and all fifteen lists stay exact |
| AuraSteps.ExpiryStep | sim/core/aura.go:182-192 | a refresh, or an expiry moved later, keeps the whole invariant, makes nothing overdue that was not, and keeps the cached minimum low if it was |
| Auras.AuraTracker.SetStacks | sim/core/aura.go:201-227 | whatever the callbacks do: the new number, at most the maximum, is recorded; an active aura set to zero fades, unless a callback gives it stacks again; SetStacks and Deactivate, which call each other, terminate with the invariant kept |
| Auras.AuraTracker.Activate | sim/core/aura.go:708-828 | whatever the callbacks do: an aura that does not land is inactive with none of its effects enabled; one that lands has its gain recorded with a full duration from now; an active one is only refreshed; no category is spoiled or crowded but those in which the commands of its callbacks clash, and those it or they act on while an outer operation works on them |
| Auras.AuraTracker.Bid | sim/core/aura.go:726-739 | the effects bid in turn: in the end all are enabled or, once one is blocked, none |
| Auras.AuraTracker.Land | sim/core/aura.go:741-828 | the aura joins its lists, its gain and expiry are recorded before OnGain runs, and nobody else's state changes |
| Auras.AuraTracker.Deactivate | sim/core/aura.go:831-1005 | an inactive aura is left alone; an active one records its fade first, has run its OnExpire on return and is not overdue, and stays inactive if that OnExpire activates it nowhere; it terminates under callbacks that re-enter it; it marks categories only as Activate does |
| Auras.AuraTracker.Fade | sim/core/aura.go:831-1000 | all of an ending but the OnExpire: the fade is recorded, the stacks are gone, every effect has withdrawn with the callbacks of its handover, and nothing else has changed but by those callbacks |
| Auras.AuraTracker.EffectsDeactivate | sim/core/aura.go:997-1000 | the first n effects of the aura withdraw, each with the callbacks of the handover it causes; nothing else changes but by those callbacks |
| Auras.AuraTracker.Fire | sim/core/aura.go:1013-1042 | at its own nesting depth the event takes one turn for each aura in the list when it fired, in list order, and a turn calls its aura iff it is active at that moment; the n auras called have read exactly n callbacks off the tape, and every aura the tape tells of is as those callbacks leave it; somebody is called if anybody is listed, everybody if no command may end a listed aura; the auras, bids and lists are those of a walk over the list found; depth and outer buffers are restored; no category is spoiled or crowded in which the callbacks' commands do not clash, unless an outer operation works on it and one of them acts on it |
| Auras.AuraTracker.TakeTurn | sim/core/aura.go:1034-1038 | the aura's callback has run, up to its Return and no further, iff the aura was active when its turn came; otherwise nothing has been read and nobody's active flag has changed |
| AuraFacts.LoneListener | sim/core/aura.go:1032-1041 | with one listener the event reads one callback, and every aura that the tape tells of is as that callback says |
| AuraFacts.EventActivates | sim/core/aura.go:1032-1041 | the callback of a listener that activates a second aura leaves both active |
| Auras.AuraTracker.Perform | sim/core/aura.go:182-244 | any command of a callback does to auras, stacks, lists and bids what the reference does, keeps the invariant and what operations under way rely on, activates and ends no aura and marks no category but those its tapes account for, and where it tells who is active it is obeyed |
| Auras.AuraTracker.RunCallback | sim/core/aura.go:1032-1183 | any finite script of commands issued by a callback, nested to any depth, keeps the invariant, restores the dispatch depth and settles every fade it began; it is read up to its first Return and no further; where the script tells which auras are active after it, they are |
| AuraReach.CommandForeseen | sim/core/aura.go:182-1005 | what a command's operation and the callbacks of its two tapes have activated, ended and marked together is what the command accounts for; an aura that bids in categories may end by being displaced too |
| AuraReach.RanSpares | sim/core/exclusive_effect.go:81-222 | a category in which no commands of a tape clash is neither spoiled nor crowded by them, unless an operation under way works on it and a command acts on it |
| AuraReach.CommandObeyed | sim/core/aura.go:708-1005 | an aura without exclusive effects that a telling command activates is active after it, one it deactivates is not, and any other keeps its state |
| Auras.AuraTracker.Advance | sim/core/aura.go:665-676 | an aura lost was due, or a command of an ending's callbacks may end it, and one gained such a command may activate; without callbacks exactly the due auras end, and whoever stays keeps its expiry; the auras end one by one, each the first one due on the list as the ends before have left it, with its own callbacks; afterwards no tracked aura is due, the cached minimum is exact, and it terminates although callbacks change the list it walks; only categories in which the expiring auras' commands clash are spoiled or crowded |
| Auras.AuraTracker.TryAdvance | sim/core/aura.go:657-663 | the early exit on the cached minimum leaves the same state a full scan would: exactly the same auras end, in the same order, and nobody else |
| Auras.AuraTracker.ExpireAll | sim/core/aura.go:678-685 | only permanent auras remain active, and a permanent one is lost only if a command of an ending's callbacks may end it: without callbacks exactly the permanent ones stay, with their expiries; it terminates although callbacks may activate auras |
| Auras.AuraTracker.DeactivateAll | sim/core/aura.go:687-697 | every aura, permanent ones too, is inactive at the end of the restart loop |
| Auras.AuraTracker.DoneIteration | sim/core/aura.go:687-704 | the panic on an active aura is not reached if no OnDoneIteration activates a later aura; it is reached iff the scripts say so where they tell which auras they leave active, and in any case iff an aura gained before its own check and has not ended since; the panic on leftover stacks never is |
| Auras.AuraTracker.Reset | sim/core/aura.go:629-655 | the panic on an active aura is not reached if no OnReset activates a later aura, as when each activates its own; it is reached iff the scripts say so where they tell, and in any case iff an aura gained before its own check and has not ended since; the panic on leftover stacks never is; the cached minimum stays low |
| Callbacks.BackwardCatchesNone | sim/core/aura.go:138-173 | callbacks that, through whatever they cause, activate no aura after their own leave no aura active before its check |
| AuraFacts.ForwardReset | sim/core/aura.go:138-159 | an OnReset of the first aura that activates the second reaches the panic |
| AuraFacts.OwnReset | sim/core/aura_helpers.go:450-465 | OnResets that activate their own auras do not, and both auras start the iteration active |
| Auras.IterationStretch | sim/core/aura.go:629-704 | the end of an iteration and the start of the next do not panic if no OnDoneIteration activates an aura and no OnReset a later one; where the scripts tell they panic iff one of them leaves an aura active before its check, or the first leave one active at all |
| AuraIterations.NextCheck | sim/core/aura.go:138-173 | an aura is active at its check iff it has gained since everything was deactivated and not faded again; otherwise it has no stacks |
| Auras.AuraTracker.AdvanceTo | sim/core/aura.go:657-676 | moving the clock and advancing keeps the invariant and leaves nothing due; an aura is lost only if its expiry is not after the new time or a callback's command may end it, and without callbacks exactly those due by then are |
| AuraFacts.FirstExpires | sim/core/aura.go:657-676 | auras of ten and thirty seconds gained together: ten seconds later the first has ended and the second stays, to end at thirty |
| Auras.AuraTracker.EndNext | sim/core/aura.go:665-697 | an ending reads the tapes of the first command on the list that is for its aura, which leaves the list; without one it ends quietly, touching nobody else |
| AuraEndings.WhoIsLost | sim/core/aura.go:665-685 | what a scan has lost is what it picked or what callbacks may cost; without callbacks exactly what it picked |
| AuraEndings.EndsOneWay | sim/core/aura.go:665-697 | the order in which a scan ends auras, and so the state it leaves, is determined by the state and the callbacks |
| AuraEndings.SamePicks | sim/core/aura.go:665-697 | two scans of one state agree on every aura they both end |
| AuraReference.ExactStruck | sim/core/aura.go:861-876 | removal at the stored position leaves the list that looking for the aura and putting the last entry in its place leaves |
| AuraReference.TopIsFirst | sim/core/exclusive_effect.go:71-79 | the first highest bidder is enabled, outbid by nobody, and before anybody who bids as much |
| AuraReference.QuietlyDeactivated | sim/core/aura.go:831-1005 | an aura that ends without callbacks leaves its lists, its stacks and its expiry, and touches no other aura |
| AuraReference.QuietEffects | sim/core/exclusive_effect.go:181-190 | effects that withdraw without callbacks touch no aura |
| Auras.RunOneWay | sim/core/aura.go:629-1183 | what a run makes of the auras, their stacks, lists and bids is determined: any two trackers that go through it without a panic end alike |
| Auras.Simulate | sim/core/aura.go:629-1183 | the tracker, with its positions, cached minimum, buffers and early exits, makes of any run what a reference without them makes of it; any run of calls, time steps, mass expiries and iterations, up to a panic, keeps the invariant and a low cached minimum, and gains minus expiries is 1 for each active aura and 0 for the others; only categories in which the run's commands clash are spoiled or crowded, every other one is decided; it does not panic if every iteration is peaceful, and where the scripts tell it panics iff one of them says so |
| AuraFacts.ListsHoldTheActive | sim/core/aura.go:708-1011 | at any moment, whatever is under way, each callback list holds exactly the active auras with that callback, once each; stored indices are true positions; inactive auras have index -1 everywhere and, at rest, no stacks |
| AuraFacts.DirectExpiryKeepsMinimum | sim/core/aura.go:242-244 | setting an expiry directly keeps the cached minimum low iff it is not set below it; below it, the early exit skips a due aura |
| Auras.AuraTracker.HighestPrioActiveEffect | sim/core/exclusive_effect.go:71-79 | the result is the first of the enabled effects with the greatest priority, and none iff none is enabled |
| Auras.AuraTracker.EffectOnExpire | sim/core/exclusive_effect.go:86-88 | the bid that was applied is taken back exactly, with nothing of the category applied while the rest of the callback runs |
| Auras.AuraTracker.EffectOnGain | sim/core/exclusive_effect.go:89-92 | the new active effect's bid is applied exactly once, and the category is decided before the rest of the callback runs |
| Auras.AuraTracker.SetActive | sim/core/exclusive_effect.go:81-93 | handing the category over, with whatever both callbacks do in between, leaves it decided for the new effect with exactly its bid applied, unless a callback bid in the category meanwhile |
| Auras.AuraTracker.EffectActivate | sim/core/exclusive_effect.go:148-169 | an effect is kept out iff the active effect outbids it or outlasts it on a tie, and then nothing changes; otherwise it is enabled and the category again has a highest bidder, whatever the callbacks do, unless it is spoiled |
| Auras.AuraTracker.TiesInFields | sim/core/exclusive_effect.go:153-179 | on an equal bid the active effect of a single-aura category keeps the newcomer out iff its aura is active and its remaining time, endless if permanent, exceeds the newcomer's full duration; it keeps a category iff the newcomer yields ties, or is another spell that it outlasts so |
| Auras.AuraTracker.BidsAsStated | sim/core/exclusive_effect.go:148-179 | who is kept out and who takes a category, on equal and unequal bids, is what the reference says |
| AuraFacts.TiedRun | sim/core/exclusive_effect.go:148-179 | two auras of any durations that bid the same at one instant: the second lands, takes the category and ends the first exactly as stated, for single-aura and shared categories, same and other spells, yielding and not |
| AuraFacts.PermanentStays | sim/core/exclusive_effect.go:153 | a permanent holder keeps out a newcomer of ten seconds with the same bid |
| AuraFacts.ShorterGivesWay | sim/core/exclusive_effect.go:161-168 | a holder of five seconds gives way to it and ends |
| Auras.AuraTracker.TakeOver | sim/core/exclusive_effect.go:155-168 | ending the displaced aura, with whatever its callbacks do, leaves the category decided for the challenger unless one of them bid above it |
| Auras.AuraTracker.EffectDeactivate | sim/core/exclusive_effect.go:181-190 | the effect withdraws and its category's active effect is again a highest bidder, or none if nobody is left, whatever the handover's callbacks do, unless it is spoiled |
| Auras.AuraTracker.SetPriority | sim/core/exclusive_effect.go:192-222 | the bid changes and every category that is not spoiled keeps a highest bidder and an exact ledger, whatever the callbacks of the handover do |
| Auras.AuraTracker.MoveBid | sim/core/exclusive_effect.go:203-221 | in all four cases of a new bid each OnExpire takes back the bid its OnGain applied, and the category is decided afterwards unless it is spoiled |
| Arbitration.NewBidDecides | sim/core/exclusive_effect.go:198-221 | comparing the first highest bidder with the active effect is enough to keep the category decided |
| Arbitration.ChallengeCloses | sim/core/exclusive_effect.go:163-168 | once the holder has withdrawn, the challenger is a highest bidder and, in a single-aura category nobody crowded, the only one |
| AuraConflicts.ContestedTakeOver | sim/core/exclusive_effect.go:163-168 | a holder's OnExpire that activates an aura leaves the category decided iff the aura does not land or bids no higher than the challenger; one that bids only there lands iff it bids at least as high, and then two auras stand |
| AuraConflicts.RebidTakeOver | sim/core/exclusive_effect.go:163-168 | a holder's OnExpire that changes a bid leaves the category decided iff the challenger's new bid is no lower than those left, or another's new bid no higher than the challenger's |
| AuraConflicts.ContestedHandover | sim/core/exclusive_effect.go:81-93 | an effect's OnExpire that, while its category is handed over, activates an aura bidding in it leaves the category decided iff the aura is blocked or bids no higher than the effect that follows, and OnGain and OnExpire in balance iff it is blocked or does not take the category from the expiring effect |
| AuraConflicts.DisplacedActivation | sim/core/exclusive_effect.go:81-93 | the only holder ends and its effect's OnExpire activates another: the category is left without an active effect although one is enabled |
| AuraConflicts.ContestedActivation | sim/core/aura.go:726-828 | the same for a whole activation from rest |
| AuraConflicts.NestedActivation | sim/core/exclusive_effect.go:148-169 | bids 1, 2 and 3: the third, activated while the second takes over from the first, stands beside it and outbids the active effect |
| AuraFacts.CategoryDecided | sim/core/exclusive_effect.go:56-93 | a category that is not spoiled has an active effect iff an aura with an effect in it is active, and no active aura bids above it; RunInOrder says which categories a run leaves unspoiled |
| AuraFacts.AppliedIsTheWinningBid | sim/core/exclusive_effect.go:81-93 | what all OnGain and OnExpire callbacks of a category that is not spoiled have applied in sum is the active effect's priority, and nothing without one; RunInOrder says which categories a run leaves unspoiled |
| AuraFacts.SingleAuraAlone | sim/core/exclusive_effect.go:148-179 | a single-aura category without tie-yielding effects has at most one active aura, unless it is spoiled or crowded; RunInOrder says which categories a run leaves unmarked |
| AuraFacts.RunInOrder | sim/core/exclusive_effect.go:56-222 | after any run, all three hold of every category in which no commands of the run clash, which can be read off the run before it starts |
| AuraFacts.UnnestedNeverClash | sim/core/exclusive_effect.go:81-222 | commands none of which is given while another is at work clash in no category |
| AuraFacts.EventDecides | sim/warrior/talents_fury.go:130-141 | an event whose callbacks activate, end or rebid auras of any category, acting on none while one of those commands is at work, leaves every category decided that was |
| Dots.RoundedIsNearest | sim/core/dot.go:194-196 | the tick count is a nearest whole number, even at a half |
| Dots.NearestIsRounded | sim/core/dot.go:194-196 | nothing else is: nearest with halves to even determines the tick count |
| Dots.HastedDurationIsClose | sim/core/dot.go:162-177 | the hasted duration is within half a tick period of the base duration |
| Dots.FittedTicks | sim/core/dot.go:285-314 | the ticks fitted into an extension never exceed the cap, equal it when there is room, and are positive iff what is left reaches within half a period of the next tick |
| Dots.Dot.FreshInFields | sim/core/dot.go:145-213 | in the fields: the period is the hasted length iff haste affects the dot; the ticks are nearest to the base duration at that length if haste adds ticks, at the base length otherwise; the base duration is count times length times multiplier, cut to a whole number, plus the flat part |
| Dots.Dot.RecomputeAuraDuration | sim/core/dot.go:162-172 | period, tick count and duration are those in the fields, and those a fresh application is predicted to get |
| Dots.Dot.Deactivate | sim/core/dot.go:418-424 | ending at the instant the next tick is due fires that tick, otherwise none; a dot ended at its expiry has fired exactly what it was granted |
| Dots.Dot.Apply | sim/core/dot.go:93-105 | the dot ticks at the hasted length iff haste affects it, as often as fits the base duration best, and runs that long on schedule, whatever ran before |
| Dots.HastedApplication | sim/core/dot.go:145-172 | six ticks of three seconds hasted to 2.4: eight ticks in 19.2 seconds if haste adds ticks, six in 14.4 if it cuts the duration, six in eighteen if it does not affect the dot |
| Dots.Dot.PeriodicTick | sim/core/dot.go:330-367 | a tick keeps the schedule equation, with one tick fewer left |
| Dots.Dot.AddTick | sim/core/dot.go:230-237 | a running dot gets one tick and one period more and stays on schedule; an inactive one is left alone |
| Dots.Dot.DurationExtend | sim/core/dot.go:285-314 | the next tick moves to the hasted length iff haste affects the dot, otherwise to the base length; the dot stays on schedule, keeps the ticks that fit best and never more than a fresh application has |
| Dots.Dot.CopyDotAndApply | sim/core/dot.go:241-268 | the copy ends and ticks when the original does, on schedule |
| Dots.Dot.RestoreState | sim/core/dot.go:581-599 | a saved schedule comes back shifted to the present |
| Dots.MoveDot | sim/core/dot.go:568-599 | save and restore round trip: the time to the next tick and to the end are the same, and the dot is on schedule |
| Dots.RunOut | sim/core/dot.go:330-453 | a dot applied with n ticks and given a more, run to its end in any order of tick and expiry at the last instant, fires exactly n + a |
| Dots.RankGroup.HigherRankActive | sim/core/dot.go:123-133 | the early exit on the highest rank answers as the full scan |
| Dots.RankGroup.Apply | sim/core/dot.go:95-121 | a rank lands iff no higher one is up; it then is the only one active; otherwise no dot changes; no higher rank is ever ended |
| Dots.RankGroup.CopyOnto | sim/core/dot.go:241-268 | a copy, which ends no other rank, keeps at most one rank up iff no other was up |
| Dots.RankGroup.RestoreTo | sim/core/dot.go:581-599 | a restored dot, which ends no other rank, keeps the group valid iff no other rank was up and the saved dot was on schedule |
| Dots.RankGroup.Join | sim/core/dot.go:542-555 | joining keeps the group valid and its highest rank an upper bound |
| Dots.KeepRanks | sim/core/dot.go:93-314 | any fight over two units keeps at most one rank up on each and every rank on schedule, if dots are spread or restored only where no other rank is up |
| Dots.CopiedBeside | sim/core/dot.go:241-268 | a lower rank copied while the higher one is up: both are up |
| Dots.RestoredBeside | sim/core/dot.go:581-599 | a lower rank restored while the higher one is up: both are up |
| Groups.Expansion.Parse | sim/core/apl.go:231-264 | the next copy in the worklist is parsed; the termination weight falls by the copy itself |
| Groups.Expansion.MatchListed | sim/core/apl.go:269-286 | the first reference of the lists to the group uses this copy and each further one, and nobody else, has a copy appended; the termination weight does not grow |
| Groups.Expansion.MatchOwn | sim/core/apl.go:288-300 | each reference inside the group to an existing group has one copy appended |
| Groups.Expansion.Expand | sim/core/apl.go:231-301 | for acyclic references the loop terminates although it appends to the list it walks, and every reference to an existing group has been matched with a copy of its own |
| Groups.Expansion.Finalize | sim/core/apl_action_group_reference.go:73-153 | a reference is bound iff its group exists, to a copy marked as its own; nothing bound is ever rebound |
| Groups.Expansion.FinalizeAll | sim/core/apl.go:303-325 | after finalization every reference to an existing group is bound to a copy of it and no two references share one |
| Groups.CopyAvailable | sim/core/apl_action_group_reference.go:81-93 | a finalized reference always finds a copy nobody else has: there are at least as many copies as references |
| Groups.ReferencedLater | sim/core/apl.go:288-300 | in a complete expansion a group's last copy precedes the last copy of any group it references |
| Groups.CompleteOnlyIfAcyclic | sim/core/apl.go:231-301 | with distinct names the expansion can be complete only if the references are acyclic, the converse of Expand |
| Values.CompiledReadable | sim/core/apl_values_operators.go:95-190 | whatever compiles can be read as its type: no getter in it panics in any state |
| ValueFacts.CompiledMeans | sim/core/apl_values_operators.go:861-1034 | a condition compiles to a value iff it resolves, and the value has the condition's type and reads in every state what the condition means by a definition that knows neither folding nor wrappers and has its own conversions and comparisons |
| ValueFacts.FoldingPreserves | sim/core/apl_values_operators.go:940-1034 | with and without constant folding the same conditions compile, to values of one type that read the same in every state |
| ValueFacts.GatheredMeans | sim/core/apl_values_operators.go:940-1014 | And and Or, folded or not, mean the conjunction or disjunction of the operands that resolve |
| ValueFacts.RelatedMeans | sim/core/apl_values_operators.go:274-400 | coercing both operands to their common type keeps the meaning of a comparison, which is that of the numbers, durations and texts themselves |
| ValueReadings.ComparedHolds | sim/core/apl_values_operators.go:328-398 | each operator is the arithmetic relation on whole numbers, numbers and durations and the order by first difference on texts; yes/no values only compare for equality |
| ValueReadings.LessIsPrecedes | sim/core/apl_values_operators.go:381-394 | a text is less iff the two agree up to where it ends or goes on with the smaller character |
| ValueReadings.OnePrecedes | sim/core/apl_values_operators.go:381-394 | of two different texts exactly one precedes the other, and none precedes itself |
| ValueReadings.ConvertedAs | sim/core/apl_values_operators.go:87-210 | a wrapper may stand exactly where a value has a reading of the type, and reads it: floats and seconds cut towards zero, numbers as seconds, zero and empty as no |
| ValueReadings.SecondsAreCut | sim/core/apl_values_operators.go:123-124 | a duration read as a whole number is its whole seconds, cut towards zero by the quotient of whole numbers |
| ValueReadings.RetypedIsWrapped | sim/core/apl_values_operators.go:22-67 | a parsed constant retyped to a number or a duration reads as a wrapper around it would, but as a yes/no value it always reads as yes and as text as it was written |
| ValueFacts.NegatedMeans | sim/core/apl_values_operators.go:1016-1034 | Not of a constant flipped in place means what the unfolded Not means |
| ValueFacts.CompilationAccounts | sim/core/apl.go:893-905 | every node constructed is in the live tree, among the orphans or among those given up, exactly once, for any compilation in any order |
| ValueFacts.EveryNodeOnce | sim/core/apl.go:893-905 | from an empty start the constructed nodes are partitioned between the three |
| ValueFacts.NothingGivenUp | sim/core/apl_values_operators.go:220-242 | nodes are given up iff a constant is retyped or a comparison does not resolve; otherwise live tree and orphans hold every node |
| ValueFacts.WrappedFill | sim/core/apl_values_operators.go:106-120 | a wrapper reads a filled constant as the constant reads itself iff it is not a zero: a retyped constant keeps the yes/no reading of its text |
| ValueFacts.FilledCompiledMeans | sim/core/apl_action_group_reference.go:230-336 | a tree compiled with holes and filled afterwards means what the condition means filled |
| ValueFacts.FillingIsInlining | sim/core/apl_action_group_reference.go:230-336 | filling after parsing and inlining at parse time give values of one type that read the same in every state |
| ValueFacts.FillingUnderNot | sim/core/apl_action_group_reference.go:318-330 | directly under Not, filling and inlining agree iff the fill is not a zero |
| ValueFacts.FillingRejected | sim/core/apl_action_group_reference.go:265-276 | a comparison that inlining rejects is kept by filling and never holds |
| Sequences.CastIsBack | sim/core/apl_actions_sequences.go:74-84 | what stays installed when a callback has run is the cast itself iff no wrapper stands beneath a plain one: a plain sequence within a plain one, or around a strict hook, leaves a stale wrapper |
| Sequences.TopIsOutermost | sim/core/apl_actions_sequences.go:294-310 | hooks of several sequences on one action are nested in stack order, so the controller on top owns the outermost |
| Sequences.OnlyOutermostLeaves | sim/core/apl.go:723-728 | of the sequences that wrap one callback only the outermost can finish when it fires, and only from the top of the stack |
| Sequences.Rotation.UnhookTop | sim/core/apl_actions_sequences.go:311-318 | taken off by the controller on top, the hook leaves every other action and hook well wrapped |
| Sequences.Rotation.Hook | sim/core/apl_actions_sequences.go:294-310 | the queued spell's callback becomes this sequence's wrapper around whatever callback was there; hooking it again changes nothing; a hook left on another action is put back |
| Sequences.Rotation.RelinquishTop | sim/core/apl_actions_sequences.go:196-201 | the sequence on top gives up control at its first step, unhooked and off the stack, and everything else stays well wrapped |
| Sequences.Rotation.AdvanceTop | sim/core/apl_actions_sequences.go:202-207 | the controller on top is exactly one step on, or off the stack after its last, with its index in bounds and every hook still in place |
| Sequences.Rotation.Ask | sim/core/apl_actions_sequences.go:213-271 | the answer of the sequence on top for every combination of what it finds, with every other sequence untouched |
| Sequences.Rotation.GetNextAction | sim/core/apl.go:617-632 | the highest controller that does not give up control decides: those above it are gone and unhooked at their first step, those beneath are untouched, the answer and its own new position are the ones of its verdict; the priority list decides iff all give up |
| Sequences.Rotation.ExecutePlain | sim/core/apl_actions_sequences.go:64-92 | a plain sequence that wraps the queued callback keeps the rotation valid iff it found the cast itself there |
| Sequences.Rotation.Run | sim/core/apl_actions_sequences.go:294-310 | running a callback with strict and plain wrappers in any nesting casts once, moves every strict sequence on once and unhooks it, moves every plain one on as often as it wraps, and leaves what the nesting says; it fails iff one that is to leave is not on top |
| Sequences.Rotation.Fire | sim/core/apl_actions_sequences.go:303-309 | in a valid state firing the queued action leaves the cast as its callback and every sequence that wrapped it exactly one step on; it fails iff one at its last step is beneath another controller |
| Sequences.Rotation.HoldAndFire | sim/core/apl_actions_sequences.go:245-257 | however often the rotation is asked while a step is queued, firing advances exactly once and leaves the cast as the callback; it fails iff a sequence beneath hooked the same action and is at its last step |
| Sequences.Rotation.Begin | sim/core/apl_actions_sequences.go:192-195 | a sequence takes control at whatever step it is, and the rotation is valid if it alone was not at rest |
| Sequences.Rotation.Reset | sim/core/apl.go:482-495 | sequences of the priority list and the groups are at their first step and unhooked, those of the prepull as they were; each callback is the one its last reset hook replaced; the rotation is valid iff every prepull sequence was at its first step and unhooked and each innermost hook is reset last |
| Sequences.LeftOver | sim/core/apl.go:482-495 | a prepull sequence in control when the iteration ends is not reset: the next prepull begins with its second step |
| Sequences.StaleHook | sim/core/apl_actions_sequences.go:169-173 | two sequences that hook one action, the outer reset last: the inner one's wrapper stays on the action though nobody hooks it |
| Sequences.NestedPlains | sim/core/apl_actions_sequences.go:74-84 | two nested plain sequences leave the inner one's wrapper on the fired queue action |
| Ranged.RangedAttack.Swing | sim/core/attack.go:400-474 | blocked, it waits without a windup; ready, it winds up for the current haste; wound up, it releases no earlier than the ready time in force; the history stays safe |
| Ranged.RangedAttack.DropWindup | sim/core/attack.go:926-934 | a running windup ends without a shot and the history records it |
| Ranged.RangedAttack.StartMoving | sim/core/movement.go:32-36 | moving drops a running windup; nothing releases while moving |
| Ranged.RangedAttack.StopMoving | sim/core/attack.go:945-957 | a shot that came due while moving waits a reaction time, any other keeps its time |
| Ranged.RangedAttack.Disable | sim/core/attack.go:915-923 | going out of range drops a running windup and turns the attack off |
| Ranged.RangedAttack.Enable | sim/core/attack.go:883-897 | coming into range reschedules without starting a windup early |
| Ranged.RangedAttack.StartPull | sim/core/attack.go:784-792 | the pull keeps the machine's invariant iff a swing without a time might start now: its ready time no more than a windup away, and no pause or reaction running |
| Ranged.RangedAttack.PullAndShoot | sim/core/attack.go:784-792 | the shot that waited is wound up at once, and the history is safe iff it might have started when it did; if it only was not ready, it is released before its ready time |
| Ranged.EarlyShot | sim/core/attack.go:784-792 | moving, restarting the timer and stopping before the pull: a shot ready at 3000 is released at 500 |
| Ranged.Fight | sim/core/attack.go:400-792 | any fight takes the course that the attack's transitions as a function say, and keeps the history safe up to a pull at which what waited may not start, and there is none if the pull comes before anything but time and haste changes |
| Ranged.RangedAttack.StopUntil | sim/core/attack.go:1131-1139 | the windup is dropped and the swing timer restarts a full swing after the given time |
| Ranged.RangedAttack.DelayUntil | sim/core/attack.go:1176-1184 | a longer pause drops the windup and holds the next start back; a shorter one changes nothing |
| Ranged.RangedAttack.ResumeAt | sim/core/attack.go:1186-1195 | a pause only ever ends earlier, and never in the past |
| Ranged.RangedAttack.Rescale | sim/core/attack.go:1048-1068 | a running windup keeps its length, a waiting one its ready time at least, an overdue one its start; no release becomes early |
| Ranged.RangedAttack.RunToWindup | sim/core/attack.go:355-378 | left alone and standing, the windup starts exactly at the latest of now, the ready time less the windup, the end of a pause and the end of a reaction |
| Ranged.RangedAttack.PauseThenWindup | sim/core/attack.go:1176-1184 | a pause moves the start of a waiting windup to its own end if that is later, and not at all otherwise |
| Ranged.RangedAttack.RunToRelease | sim/core/attack.go:364-474 | from any state that is on, standing and scheduled the next release comes exactly when predicted |
| Ranged.RangedAttack.Volley | sim/core/attack.go:400-474 | uninterrupted releases at one haste are exactly max(swing, windup) apart, so one swing apart when the swing is at least the windup |
| Ranged.Extended | sim/core/attack.go:400-474 | the history stays safe under each event that may follow the last one |
| Mana.RegenIsSum | sim/core/mana.go:214-237 | regen over a stretch is the sum, nanosecond by nanosecond, of the rate in force |
| Mana.RegenJoins | sim/core/mana.go:214-237 | crediting a stretch in two parts credits what one credit would |
| Mana.ManaBar.Wait | sim/core/mana.go:214-237 | letting time pass keeps credited plus outstanding regen equal to the integral |
| Mana.ManaBar.CreditManaRegen | sim/core/mana.go:216-237 | all regen since the last tick is credited, each part at its rate and capped at the maximum; credited regen equals the integral |
| Mana.ManaBar.RunTask | sim/core/mana.go:239-249 | a tick credits exactly the outstanding regen and the next is one tick duration later |
| Mana.ManaBar.UpdateManaRegenRates | sim/core/mana.go:201-207 | a rate change credits what is outstanding at the old rates first, up to the maximum, and keeps the conservation law |
| Mana.ManaBar.SpendCost | sim/core/mana.go:397-407 | paying keeps the conservation law although regen is credited only when the last window is over |
| Mana.ManaBar.StartChannel | sim/core/dot.go:404-416 | claiming a payment keeps the conservation law iff the channel is not paid for, a paid one ended just now, no regen since the last tick came at the full rate, or the rates are the same, all as they were before the call |
| Mana.LateChannel | sim/core/dot.go:404-416 | a channel that claims its payment after the window is over: half a point regenerated is never credited |
| Mana.RunBar | sim/core/mana.go:164-249 | any run leaves mana, ticks, rates, rule and channel as the bar's transitions as a function say, and keeps the books; if channels claim the payment just made and the unit enters or leaves play just after a credit, all regen up to the last tick is credited at the rate in force, and nothing else |
| Mana.LeavesPlay | sim/core/mana.go:214-236 | a unit that leaves play half a tick after the last: half a point regenerated is never credited |
| Mana.ManaBar.EndChannel | sim/core/dot.go:428-434 | ending a channel keeps the conservation law |
| Mana.ManaBar.SetEnabled | sim/core/mana.go:221-225 | leaving or entering play keeps the conservation law iff no time has passed since the last tick or what has passed came at no rate |
| Mana.ManaBar.TickUntil | sim/core/mana.go:239-249 | the mana after each tick is the capped sum of the start and the regen up to it |
| Mana.ManaBar.WaitForMana | sim/core/mana.go:276-302 | the predicted wait lands on a mana tick; the desired mana is there iff the tick lies past the predicted instant or the outstanding regen covers what truncation cuts; with nothing outstanding iff nothing was truncated, and then it is not there before |
| Mana.ManaBar.NeverIsNever | sim/core/mana.go:276-295 | what is there already is not waited for; no wait is given iff the mana is not there and what regenerates never comes to it, however long the unit waits |
| Mana.NeverComes | sim/core/mana.go:287-294 | an amount the casting window does not cover never comes iff there is no full rate |
| Mana.AtTruncatedTime | sim/core/mana.go:287-291 | at the closed-form time the regen falls short of the amount by exactly what truncation to nanoseconds cuts |
| Mana.ShortWait | sim/core/mana.go:276-302 | a bar on which the predicted wait ends short of the desired mana |
| Mana.Reached | sim/core/mana.go:287-291 | at or after the closed-form time the regen has come to the amount, less what truncation loses |
| Mana.NotYet | sim/core/mana.go:287-291 | before the closed-form time it has not |
| Energy.EnergyBar.Wait | sim/core/energy.go:233-241 | letting time pass up to the next tick keeps credited plus accrued energy equal to the integral |
| Energy.EnergyBar.RunTask | sim/core/energy.go:233-241 | a tick credits a whole tick, capped, and credited energy equals the integral |
| Energy.EnergyBar.ResetEnergyTick | sim/core/energy.go:158-169 | the partial tick credits exactly what has accrued and restarts the timer; with no tick due it does nothing |
| Energy.EnergyBar.MultiplyEnergyRegenSpeed | sim/core/energy.go:76-79 | a rate change gives the partial tick at the old rate first, and keeps the conservation law iff the next tick is not at time zero, or nothing has accrued, or the rate stays |
| Energy.RunBar | sim/core/energy.go:76-241 | any run leaves energy, tick and rate as the bar's transitions as a function say, keeps the tick in reach and energy capped; ticks and partial ticks come to a continuous regen at the rates in force if the next tick lies after time zero at the start, or the rate never changes |
| Energy.TickAtZero | sim/core/energy.go:154-169 | a rate doubled while the next tick falls on time zero: the tick gives at the new rate what had accrued at the old |
| Energy.EnergyBar.RunTicks | sim/core/energy.go:233-241 | the energy after each tick is the capped start plus that many ticks |
| Energy.EnergyBar.WaitForEnergy | sim/core/energy.go:85-99 | the predicted time is exactly that of the first tick at which capped energy reaches the target |
| Energy.EnergyBar.NeverIsNever | sim/core/energy.go:85-99 | some tick reaches the target iff the rate is positive and the bar holds as much; the closed form says so unless the next tick is at time zero |
| SplitMix.MixIsBijection | sim/core/rand.go:31-34 | the output mix is a bijection on 64-bit words |
| SplitMix.XorIsBitwise | sim/core/rand.go:32-34 | each bit of the xor is set iff exactly one of the two is |
| SplitMix.Unshifts | sim/core/rand.go:32-34 | xoring a word with itself shifted by at least a third of it is undone by xoring twice more, in both orders |
| SplitMix.Untimes | sim/core/rand.go:32-33 | multiplying by an odd constant modulo 2^64 is undone by its inverse |
| SplitMix.StateRepeats | sim/core/rand.go:30 | the counter is back where it was iff a multiple of 2^64 steps lies between: its period is exactly 2^64 |
| SplitMix.OutputsRepeat | sim/core/rand.go:29-35 | two draws from one seed are equal iff a multiple of 2^64 draws lies between them |
| SplitMix.EveryWordIsDrawn | sim/core/rand.go:29-35 | every word is among the first 2^64 draws of every seed |
| SplitMix.SplitMix64.Next | sim/core/rand.go:29-35 | the state moves one step and the result is the next word of the seed's sequence |
| SplitMix.SplitMix64.NextFloat64 | sim/core/rand.go:37-39 | the result is in [0, 1), the top 53 bits of the draw over 2^53 |
| SplitMix.SplitMix64.Draw | sim/core/rand.go:29-35 | n draws are the seed's sequence, all different for n up to 2^64 |
| SplitMix.SplitMix64.Seed | sim/core/rand.go:41-48 | any signed seed is read back unchanged |
| ItemSwaps.StatsAdd | sim/core/database.go:666-675 | the stats of two lots of equipment add up |
| ItemSwaps.SameDifference | sim/core/database.go:666-675 | what a change of items adds does not depend on the other slots |
| ItemSwaps.CalcStatsOffset | sim/core/item_swaps.go:481-503 | the two offsets are the stats of the replaced equipment against the original, all slots with the pre-pull bonus and weapons alone |
| ItemSwaps.ItemSwap.SwapSlots | sim/core/item_swaps.go:364-383 | exactly the touched slots trade: armor only before the pull or at a reset; a weapon change is reported iff some weapon slot's item changed |
| ItemSwaps.ItemSwap.SwapItems | sim/core/item_swaps.go:354-409 | each slot keeps a permutation of its pair and the net stats added are those of the worn equipment minus the original, plus the bonus exactly while the armor is swapped |
| ItemSwaps.ItemSwap.StatsFollow | sim/core/item_swaps.go:389-397 | the offset computed from the original equipment is what trading the slots adds, whatever the other slots wear |
| ItemSwaps.ItemSwap.Reset | sim/core/item_swaps.go:462-475 | everything original is worn again; the stats left over are those of armor that stayed swapped into the fight |
| ItemSwaps.HelmetLeft | sim/core/item_swaps.go:462-475 | a helmet swapped before the pull and kept into the fight: its five points are left over |
| Tmi.MarchBuckets | sim/core/metrics_aggregator.go:605-640 | the buckets are those of the naive definition: one for each step from which events remain, holding the weights in [t, t + bin) |
| Tmi.Advance | sim/core/metrics_aggregator.go:614-620 | the pointer only moves forward, stays in bounds and stops at the first event at or after the instant |
| Tmi.SumBetween | sim/core/metrics_aggregator.go:622-633 | the weights between the pointers are those of the window |
| Tmi.BucketsInARow | sim/core/metrics_aggregator.go:622-638 | bucket t belongs to step t: once no events remain no bucket follows |
| Tmi.StepsCount | sim/core/metrics_aggregator.go:612 | a step is taken iff its window ends before the fight |
| Cooldowns.ReadyAgrees | sim/core/cooldown.go:65-89 | the three ways to ask whether two timers are ready agree |
| Cooldowns.Sort | sim/core/major_cooldown.go:414-421 | the list is sorted by ready time and then priority, a permutation, and stable |
| Cooldowns.Manager.UpdateMajorCooldowns | sim/core/major_cooldown.go:406-421 | the list is in order of ready times, ties by higher priority; the cached time is the least ready time of the cooldowns autocast can still use, and none if there is none |
| Cooldowns.Manager.GetFirstReady | sim/core/major_cooldown.go:369-402 | the early exit and the loop return what a scan of the whole list returns |
| Cooldowns.Manager.StaleMinimumMisses | sim/core/major_cooldown.go:404-406 | a ready time below the cached one makes the early exit miss a cooldown that may go |
| Cooldowns.Manager.CountUse | sim/core/major_cooldown.go:148 | counting a use keeps the early exit right |
| Cooldowns.Manager.SetTimer | sim/core/cooldown.go:40-42 | moving a timer later keeps the early exit right |
| Cooldowns.Manager.RemoveInitial | sim/core/major_cooldown.go:280-310 | the first cooldown of the name and its variants on the same timer leave in order, and both lists shrink together |
| Cooldowns.RemovedExactly | sim/core/major_cooldown.go:280-310 | after the removal no variant on that timer is left and every other cooldown is kept as often as before |
| Cooldowns.FirstNamedIsFirst | sim/core/major_cooldown.go:284-292 | the one removed by name is the first exact match |

## Left out

- Protobuf, JSON, logging, metrics export, database loading and the user interface: input, output and glue.
- The event queue, casting and its conditions, damage formulas and random rolls: an action is taken to run at its time unless cancelled, and what a look at the game finds is a parameter.
- Overflow of 64-bit times and 32-bit counters and stacks: integers are unbounded, except in `splitmix.dfy`, where wrap-around is the point.
- Float rounding: amounts are reals; only truncation to nanoseconds and half-even rounding of tick counts are modelled.
- Auras and effects as objects: they are numbered and their fields are columns of the tracker, so aliasing between aura records is not modelled.
- Auras.AuraTracker.RunCallback: passes over a command that would activate an aura while it is itself being activated or deactivated; the operation under way would then put it in its lists a second time, or go on to withdraw the effects of an active aura.
- Auras.AuraTracker.Perform: likewise.
- Auras.AuraTracker.UpdateExpires: inside runs it only moves an expiry later; an earlier one is covered by DirectExpiryKeepsMinimum.
- Auras.Simulate: an aura that an OnDoneIteration has left active ends the run, since its check at the next start panics; an OnReset that would end it before that check is not modelled.
- Auras.AuraTracker.Reset: reset effects, which run before the cached minimum is cleared, and OnInit, which runs once before an aura's first check, give the tracker no commands.
- AuraConflicts.ContestedTakeOver: the activation is the only command the holder's OnExpire gives, and every other callback acts on auras that do not bid; the steps of TakeOver are taken one by one with the activation in the place of that callback, and an aura that bids in several categories is said to be undecided by whether it landed.
- AuraConflicts.ContestedHandover: likewise with the steps of SetActive, and the aura activated bids in that category only; an OnGain that bids in the category it has just gained finds it decided.
- Start and fade time stamps of auras, tracker rescheduling and aura metrics: bookkeeping no property here depends on.
- Dots.Dot.Apply: needs at least one expected tick; bleed immunity and suppressed application return before anything changes.
- Channeled dots and ticks that end their own dot: the expiry's test for a tick due now behaves differently there.
- How haste shortens a tick or a swing: the hasted length is an input that may change at any time.
- Groups.Expansion.Finalize: placeholders, conditions and variables of the reference are not part of it; a finalized reference that leaves early on an unfilled placeholder is not modelled.
- Sum, product, maximum and minimum of values, variable references and their caches: leaves read any value of a state instead.
- ValueFacts.FillingIsInlining: an unresolved fill keeps a placeholder that reads zero where inlining drops the operand, so fills are closed and resolve.
- ValueFacts.CompiledMeans: a fill is compiled without further fills; a closed fill has none. Comparisons with an unknown operator never hold and are not modelled.
- 32-bit ranges of whole numbers read from a duration or a float: the conversion truncates without a range.
- Sequences.Rotation.Fire: in a state that a plain sequence has left invalid only Run is stated, as long as every strict hook of the callback is in place.
- Sequences.Rotation.Reset: the queued spell, which the reset of the unit clears, stays queued as for the rotation alone; plain sequences go back to the first step at a reset if it reaches them, which touches no callback and is not modelled.
- Sequences.Rotation.Run: the cast itself does not ask the rotation for its next action.
- Ranged.RangedAttack.Enable: the haste is the one the last rescale saw.
- Ranged.RangedAttack.Swing: times are not negative, since a windup ending at time zero would read as none; what the released shot triggers are later operations.
- Melee swings, parry haste and dual wielding: easy members beside the ranged machine.
- Mana.ManaBar.WaitForMana: the paid channel ends when its remaining duration says; OnManaTick does nothing; a bar whose ticks have not started credits nothing and is not modelled.
- Mana.LateChannel: its input, a channel that starts more than five seconds after its cast has paid, is one the bar allows; whether a spell of the game takes it there is not modelled.
- Energy.EnergyBar.Wait: the tick task runs when it is due; bars without regen, changes of the maximum and combo points are left out.
- ItemSwaps.ItemSwap.SwapItems: swap callbacks, weapon attacks, timers and auras are not part of the ledger; item multipliers are constant and factored out.
- Tmi.MarchBuckets: the exponential mean of the buckets is not modelled.
- Cooldowns.Sort: the library's stable sort is modelled as insertion; priorities do not overflow their difference.

/** The ranged auto attack: a swing timer whose last part is a windup that movement, a failed requirement, a
    pause, range loss or a melee swing ends without a shot. */
module Ranged {
  import opened Common

  /** The swing time and the windup's length at one ranged haste. */
  datatype Haste = Haste(swing: int, windup: int)

  /** What the attack did, and when.  A start records the time before which no windup may start, a release
      the ready time in force. */
  datatype Event = Started(at: int, length: int, notBefore: int) | Dropped(at: int) | Released(at: int, readyAt: int)

  /** Every release follows at once on a windup started at least its full length earlier, and comes no earlier
      than the ready time in force; no windup starts before it may, or while one runs. */
  ghost predicate Safe(log: seq<Event>) {
    forall i :: 0 <= i < |log| ==> SafeAt(log, i)
  }

  ghost predicate SafeAt(log: seq<Event>, i: nat)
    requires i < |log|
  {
    match log[i]
    case Released(at, readyAt) => i > 0 && log[i - 1].Started? && at >= log[i - 1].at + log[i - 1].length && at >= readyAt
    case Started(at, _, notBefore) => (i > 0 ==> !log[i - 1].Started?) && at >= notBefore
    case Dropped(at) => i > 0 && log[i - 1].Started? && at >= log[i - 1].at
  }

  ghost predicate EndsWithStart(log: seq<Event>) {
    log != [] && log[|log| - 1].Started?
  }

  /** The latest of some times. */
  ghost predicate Latest(t: int, times: set<int>) {
    t in times && forall x :: x in times ==> x <= t
  }

  function AfterDrop(log: seq<Event>, winding: bool, now: int): seq<Event> {
    if winding then log + [Dropped(now)] else log
  }

  /** One more event keeps the history safe if it may follow on the last one. */
  lemma Extended(log: seq<Event>, e: Event)
    requires Safe(log)
    requires match e
             case Released(at, readyAt) => EndsWithStart(log) && at >= log[|log| - 1].at + log[|log| - 1].length && at >= readyAt
             case Started(at, length, notBefore) => !EndsWithStart(log) && at >= notBefore
             case Dropped(at) => EndsWithStart(log) ==> at >= log[|log| - 1].at
    ensures EndsWithStart(log) || !e.Dropped? ==> Safe(log + [e])
    ensures EndsWithStart(log + [e]) == e.Started? && (log + [e])[|log|] == e
  {
    if EndsWithStart(log) || !e.Dropped? {
      forall i | 0 <= i < |log + [e]| ensures SafeAt(log + [e], i) {
        if i < |log| {
          assert SafeAt(log, i);
        }
      }
    }
  }

  lemma TwoMore(log: seq<Event>, d: Event, e: Event)
    requires Safe(log) && !EndsWithStart(log) && d.Started? && e.Released?
    ensures Safe(log + [d, e]) <==> d.at >= d.notBefore && e.at >= d.at + d.length && e.at >= e.readyAt
  {
    var more := log + [d, e];
    assert SafeAt(more, |log|) <==> d.at >= d.notBefore;
    assert SafeAt(more, |log| + 1) <==> e.at >= d.at + d.length && e.at >= e.readyAt;
    forall i | 0 <= i < |log| ensures SafeAt(more, i) {
      assert SafeAt(log, i);
    }
  }

  // ---- what can happen, as a function

  /** What can happen to the attack, in whatever order: time passes, the swing timer runs out, the unit moves and
      stops, the target leaves range and comes back, the fight is pulled, a melee swing restarts the timer, a pause
      begins and ends early, ranged haste changes. */
  datatype Happening =
    | Elapse(time: int)
    | TimerOut(requirementFails: bool)
    | Move
    | Halt(reactionTime: int)
    | OutOfRange
    | InRange
    | Pull(inRange: bool)
    | Restart(readyAt: int)
    | Pause(readyAt: int)
    | Resume(readyAt: int)
    | Rehaste(haste: Haste)

  /** The attack's fields. */
  datatype Attack = Attack(
    now: int, swingAt: int, readyAt: int, windupEnd: int, windupDuration: int, pauseUntil: int, reactionUntil: int,
    swingDelay: int, haste: Haste, enabled: bool, moving: bool)

  function StartAt(a: Attack): int {
    if a.readyAt == 0 then 0 else a.readyAt - a.haste.windup
  }

  function Scheduled(a: Attack): Attack {
    var at := Max(a.now, if a.windupEnd == 0 then StartAt(a) else a.windupEnd);
    a.(swingAt := if a.moving then NEVER_EXPIRES else Max(at, Max(a.pauseUntil, a.reactionUntil)))
  }

  /** The swing timer runs out. */
  function Swung(a: Attack, fails: bool): Attack {
    if a.moving || fails then a.(windupEnd := 0, swingAt := NEVER_EXPIRES)
    else if a.windupEnd == 0 then
      var end := a.now + a.haste.windup;
      Scheduled(a.(windupDuration := a.haste.windup, windupEnd := end, readyAt := if a.readyAt == 0 then end else a.readyAt))
    else Scheduled(a.(windupEnd := 0, swingDelay := Max(0, a.now - a.readyAt), readyAt := a.now + a.haste.swing))
  }

  function Rehasted(a: Attack, h: Haste): Attack {
    var readyAt := if a.readyAt == 0 then 0
                   else if StartAt(a) >= Max(a.now, 0) then Max(a.readyAt, a.now + h.windup)
                   else StartAt(a) + h.windup;
    if a.windupEnd != 0 then a.(haste := h)
    else if a.swingAt == NEVER_EXPIRES then a.(haste := h, readyAt := readyAt)
    else Scheduled(a.(haste := h, readyAt := readyAt))
  }

  /** What happens to an attack; what cannot happen is passed over. */
  function After(a: Attack, h: Happening): Attack {
    match h
    case Elapse(time) => if a.now <= time < NEVER_EXPIRES then a.(now := time) else a
    case TimerOut(fails) => if a.enabled && a.swingAt <= a.now then Swung(a, fails) else a
    case Move =>
      if a.moving then a else if a.windupEnd == 0 then a.(moving := true) else a.(moving := true, windupEnd := 0, swingAt := NEVER_EXPIRES)
    case Halt(reactionTime) =>
      if !a.moving || reactionTime < 0 then a
      else if !a.enabled || a.windupEnd != 0 then a.(moving := false)
      else if StartAt(a) > a.now then Scheduled(a.(moving := false))
      else Scheduled(a.(moving := false, reactionUntil := a.now + reactionTime))
    case OutOfRange => if a.enabled then a.(enabled := false, windupEnd := 0) else a
    case InRange => if a.enabled then a else Scheduled(a).(enabled := true)
    case Pull(inRange) => if a.enabled then a else a.(enabled := inRange, swingAt := if a.swingAt == NEVER_EXPIRES then 0 else a.swingAt)
    case Restart(readyAt) => Scheduled(a.(windupEnd := 0, readyAt := readyAt + a.haste.swing))
    case Pause(readyAt) => if readyAt <= Max(a.now, a.pauseUntil) then a else Scheduled(a.(windupEnd := 0, pauseUntil := readyAt))
    case Resume(readyAt) => if Max(a.now, readyAt) < a.pauseUntil then Scheduled(a.(pauseUntil := Max(a.now, readyAt))) else a
    case Rehaste(haste) => if haste.swing > 0 && haste.windup > 0 then Rehasted(a, haste) else a
  }

  function Course(a: Attack, run: seq<Happening>, n: nat): Attack
    requires n <= |run|
  {
    if n == 0 then a else After(Course(a, run, n - 1), run[n - 1])
  }

  class RangedAttack {
    var now: int
    var swingAt: int
    var naturalReadyAt: int
    var windupEnd: int
    var windupDuration: int
    var pauseUntil: int
    var reactionUntil: int
    var pendingSwingDelay: int
    var haste: Haste
    var enabled: bool
    var moving: bool
    ghost var log: seq<Event>

    /** When the windup of the next shot may start; the opening shot's may at once. */
    function WindupStartAt(): int
      reads this
    {
      if naturalReadyAt == 0 then 0 else naturalReadyAt - haste.windup
    }

    ghost function Now(): Attack
      reads this
    {
      Attack(now, swingAt, naturalReadyAt, windupEnd, windupDuration, pauseUntil, reactionUntil, pendingSwingDelay, haste, enabled, moving)
    }

    ghost predicate Winding()
      reads this
    {
      windupEnd != 0
    }

    ghost predicate Valid()
      reads this
    {
      && 0 <= now && haste.swing > 0 && haste.windup > 0
      && Safe(log)
      && (Winding() <==> EndsWithStart(log))
      && (Winding() ==>
            && enabled && !moving && naturalReadyAt <= windupEnd <= swingAt && naturalReadyAt != 0
            && log[|log| - 1].length == windupDuration && log[|log| - 1].at + windupDuration == windupEnd && log[|log| - 1].at <= now)
      && (!Winding() ==> WindupStartAt() <= Max(now, swingAt) || swingAt == NEVER_EXPIRES)
      && (Max(pauseUntil, reactionUntil) <= Max(now, swingAt) || swingAt == NEVER_EXPIRES)
    }

    /** The state an iteration starts from. */
    constructor (haste: Haste)
      requires haste.swing > 0 && haste.windup > 0
      ensures Valid() && now == 0 && log == [] && this.haste == haste && !enabled && !moving && !Winding()
      ensures Now() == Attack(0, 0, 0, 0, 0, 0, 0, 0, haste, false, false)
    {
      now, swingAt, naturalReadyAt, windupEnd, windupDuration := 0, 0, 0, 0, 0;
      pauseUntil, reactionUntil, pendingSwingDelay := 0, 0, 0;
      this.haste := haste;
      enabled, moving := false, false;
      log := [];
    }

    /** When the next windup starts, or the running one releases. */
    function ScheduledAt(): int
      reads this
    {
      if moving then NEVER_EXPIRES
      else Max(Max(now, if windupEnd != 0 then windupEnd else WindupStartAt()), Max(pauseUntil, reactionUntil))
    }

    /** In the fields: a standing attack's next windup starts at the latest of now, the ready time less the windup
        (the opening shot's at once), the end of a pause and the end of a reaction; a windup under way releases at
        the latest of now, its own end and those of a pause and a reaction; a moving attack is due at no time. */
    lemma ScheduledInFields()
      ensures moving ==> ScheduledAt() == NEVER_EXPIRES
      ensures !moving && windupEnd != 0 ==> Latest(ScheduledAt(), {now, windupEnd, pauseUntil, reactionUntil})
      ensures !moving && windupEnd == 0 && naturalReadyAt == 0 ==> Latest(ScheduledAt(), {now, 0, pauseUntil, reactionUntil})
      ensures !moving && windupEnd == 0 && naturalReadyAt != 0 ==>
                Latest(ScheduledAt(), {now, naturalReadyAt - haste.windup, pauseUntil, reactionUntil})
    {
    }

    method Schedule()
      modifies `swingAt
      ensures swingAt == ScheduledAt()
      ensures Now() == Scheduled(old(Now()))
    {
      if windupEnd != 0 {
        swingAt := Max(now, windupEnd);
      } else {
        swingAt := Max(now, WindupStartAt());
      }
      swingAt := Max(swingAt, Max(pauseUntil, reactionUntil));
      if moving {
        swingAt := NEVER_EXPIRES;
      }
    }

    /** Ends a running windup without a shot. */
    method DropWindup()
      modifies `windupEnd, `log
      ensures !Winding() && log == AfterDrop(old(log), old(Winding()), now)
      ensures old(Safe(log) && (Winding() <==> EndsWithStart(log)) && (Winding() ==> log[|log| - 1].at <= now)) ==>
                Safe(log) && !EndsWithStart(log)
      ensures Now() == old(Now()).(windupEnd := 0)
    {
      if windupEnd == 0 {
        return;
      }
      windupEnd := 0;
      if Safe(log) && EndsWithStart(log) && log[|log| - 1].at <= now {
        Extended(log, Dropped(now));
      }
      log := log + [Dropped(now)];
    }

    method Wait(time: int)
      requires now <= time
      modifies `now
      ensures now == time && (old(Valid()) ==> Valid())
      ensures Now() == old(Now()).(now := time)
    {
      now := time;
    }

    /** The swing timer runs out: a blocked shot waits, a ready one winds up, a wound-up one is released. */
    method Swing(requirementFails: bool)
      requires haste.windup > 0 && enabled && swingAt <= now < NEVER_EXPIRES
      modifies this
      ensures old(Valid()) ==> Valid()
      ensures Frame(haste, enabled, moving, now, pauseUntil, reactionUntil) == old(Frame(haste, enabled, moving, now, pauseUntil, reactionUntil))
      ensures moving || requirementFails ==>
                && swingAt == NEVER_EXPIRES && naturalReadyAt == old(naturalReadyAt)
                && log == AfterDrop(old(log), old(Winding()), now)
      ensures !moving && !requirementFails && !old(Winding()) ==>
                && log == old(log) + [Started(now, haste.windup, Max(pauseUntil, reactionUntil))]
                && windupEnd == now + haste.windup && (windupEnd != 0 ==> swingAt == Max(windupEnd, Max(pauseUntil, reactionUntil)))
                && naturalReadyAt == if old(naturalReadyAt) == 0 then windupEnd else old(naturalReadyAt)
      ensures !moving && !requirementFails && old(Winding()) ==>
                && log == old(log) + [Released(now, old(naturalReadyAt))]
                && naturalReadyAt == now + haste.swing && swingAt == ScheduledAt() && !Winding()
                && pendingSwingDelay == Max(0, now - old(naturalReadyAt))
      ensures Now() == Swung(old(Now()), requirementFails)
    {
      hide Safe, SafeAt;
      ghost var safe := Valid();
      if moving || requirementFails {
        DropWindup();
        swingAt := NEVER_EXPIRES;
        return;
      }
      if windupEnd == 0 {
        WindUp();
        return;
      }
      windupEnd := 0;
      swingAt := now + haste.swing;
      pendingSwingDelay := Max(0, now - naturalReadyAt);
      if safe {
        Extended(log, Released(now, naturalReadyAt));
      }
      log := log + [Released(now, naturalReadyAt)];
      naturalReadyAt := swingAt;
      Schedule();
    }

    /** The windup starts; it keeps the length it has then. */
    method WindUp()
      requires haste.windup > 0 && enabled && swingAt <= now < NEVER_EXPIRES && !moving && !Winding()
      modifies `windupDuration, `windupEnd, `naturalReadyAt, `swingAt, `log
      ensures old(Valid()) ==> Valid()
      ensures log == old(log) + [Started(now, haste.windup, Max(pauseUntil, reactionUntil))]
      ensures windupEnd == now + haste.windup && (windupEnd != 0 ==> swingAt == Max(windupEnd, Max(pauseUntil, reactionUntil)))
      ensures naturalReadyAt == if old(naturalReadyAt) == 0 then windupEnd else old(naturalReadyAt)
      ensures Now() == Swung(old(Now()), false)
    {
      hide Safe, SafeAt;
      if Valid() {
        Extended(log, Started(now, haste.windup, Max(pauseUntil, reactionUntil)));
      }
      windupDuration := haste.windup;
      windupEnd := now + windupDuration;
      if naturalReadyAt == 0 {
        naturalReadyAt := windupEnd;
      }
      Schedule();
      log := log + [Started(now, windupDuration, Max(pauseUntil, reactionUntil))];
    }

    // ---- what interrupts and resumes it

    method StartMoving()
      requires Valid() && !moving
      modifies this
      ensures Valid() && moving && !Winding()
      ensures log == AfterDrop(old(log), old(Winding()), now)
      ensures swingAt == if old(Winding()) then NEVER_EXPIRES else old(swingAt)
      ensures Frame(haste, enabled, true, now, pauseUntil, reactionUntil) == old(Frame(haste, enabled, true, now, pauseUntil, reactionUntil))
      ensures naturalReadyAt == old(naturalReadyAt)
      ensures Now() == After(old(Now()), Move)
    {
      hide Safe;
      moving := true;
      if windupEnd == 0 {
        return;
      }
      DropWindup();
      swingAt := NEVER_EXPIRES;
    }

    /** A shot that came due while moving waits a reaction time from the end of the move. */
    method StopMoving(reactionTime: int)
      requires Valid() && moving && 0 <= reactionTime
      modifies this
      ensures Valid() && !moving && log == old(log) && naturalReadyAt == old(naturalReadyAt) && pauseUntil == old(pauseUntil)
      ensures haste == old(haste) && enabled == old(enabled) && now == old(now)
      ensures reactionUntil == if enabled && WindupStartAt() <= now then now + reactionTime else old(reactionUntil)
      ensures swingAt == if enabled then ScheduledAt() else old(swingAt)
      ensures Now() == After(old(Now()), Halt(reactionTime))
    {
      moving := false;
      if !enabled || windupEnd != 0 {
        return;
      }
      if WindupStartAt() > now {
        Schedule();
        return;
      }
      reactionUntil := now + reactionTime;
      Schedule();
    }

    /** The target goes out of range. */
    method Disable()
      requires Valid()
      modifies this
      ensures Valid() && !enabled && !Winding()
      ensures log == AfterDrop(old(log), old(Winding()), now)
      ensures Frame(haste, true, moving, now, pauseUntil, reactionUntil) == old(Frame(haste, true, moving, now, pauseUntil, reactionUntil))
      ensures naturalReadyAt == old(naturalReadyAt)
      ensures Now() == After(old(Now()), OutOfRange)
    {
      hide Safe;
      if !enabled {
        return;
      }
      enabled := false;
      DropWindup();
    }

    /** The target comes into range. */
    method Enable()
      requires Valid()
      modifies this
      ensures Valid() && enabled && log == old(log) && windupEnd == old(windupEnd)
      ensures swingAt == if old(enabled) then old(swingAt) else ScheduledAt()
      ensures Frame(haste, true, moving, now, pauseUntil, reactionUntil) == old(Frame(haste, true, moving, now, pauseUntil, reactionUntil))
      ensures naturalReadyAt == old(naturalReadyAt)
      ensures Now() == After(old(Now()), InRange)
    {
      if enabled {
        return;
      }
      Schedule();
      enabled := true;
    }

    /** The pull: the attack is enabled, and what waited without a time is due at once.  That keeps the machine's
        invariant exactly if what waited may start now: its ready time is no more than a windup away, and no
        pause and no reaction runs. */
    method StartPull(inRange: bool)
      requires Valid() && !enabled
      modifies `swingAt, `enabled
      ensures enabled == inRange && swingAt == if old(swingAt) == NEVER_EXPIRES then 0 else old(swingAt)
      ensures Valid() <==> (old(swingAt) == NEVER_EXPIRES ==> old(MayStartNow()))
      ensures Now() == After(old(Now()), Pull(inRange))
    {
      if swingAt == NEVER_EXPIRES {
        swingAt := 0;
      }
      enabled := inRange;
    }

    predicate MayStartNow()
      reads this
    {
      WindupStartAt() <= now && Max(pauseUntil, reactionUntil) <= now
    }

    /** What a pull does to a shot that waited without a time, if nothing interferes: it winds up at once and is
        released when the windup and every pause have ended.  The history is safe exactly if the shot could have
        started when it did; otherwise the windup starts within a pause, or the release comes before the ready
        time in force. */
    method PullAndShoot()
      requires Valid() && !enabled && !moving && swingAt == NEVER_EXPIRES
      requires Max(now + haste.windup, Max(pauseUntil, reactionUntil)) < NEVER_EXPIRES
      modifies this
      ensures var ready := if old(naturalReadyAt) == 0 then old(now) + haste.windup else old(naturalReadyAt);
              log == old(log) + [Started(old(now), haste.windup, Max(pauseUntil, reactionUntil)), Released(now, ready)]
      ensures now == Max(old(now) + haste.windup, Max(pauseUntil, reactionUntil))
      ensures haste == old(haste) && pauseUntil == old(pauseUntil) && reactionUntil == old(reactionUntil)
      ensures Safe(log) <==> old(MayStartNow())
      ensures old(Max(pauseUntil, reactionUntil) <= now < WindupStartAt()) ==> now < log[|log| - 1].readyAt
    {
      hide Swung, After;
      StartPull(true);
      Swing(false);
      ghost var before := log;
      Wait(swingAt);
      Swing(false);
      TwoMore(old(log), before[|before| - 1], log[|log| - 1]);
      assert log == old(log) + [before[|before| - 1], log[|log| - 1]];
    }

    /** A melee swing, or a swapped weapon, restarts the swing timer. */
    method StopUntil(readyAt: int)
      requires Valid()
      modifies this
      ensures Valid() && !Winding() && naturalReadyAt == readyAt + haste.swing && swingAt == ScheduledAt()
      ensures log == AfterDrop(old(log), old(Winding()), now)
      ensures Frame(haste, enabled, moving, now, pauseUntil, reactionUntil) == old(Frame(haste, enabled, moving, now, pauseUntil, reactionUntil))
      ensures Now() == After(old(Now()), Restart(readyAt))
    {
      hide Safe;
      DropWindup();
      naturalReadyAt := readyAt + haste.swing;
      Schedule();
    }

    /** A pause keeps the windup from starting while the swing timer runs on. */
    method DelayUntil(readyAt: int)
      requires Valid()
      modifies this
      ensures Valid() && naturalReadyAt == old(naturalReadyAt)
      ensures readyAt > Max(now, old(pauseUntil)) ==>
                && !Winding() && pauseUntil == readyAt && swingAt == ScheduledAt()
                && log == AfterDrop(old(log), old(Winding()), now)
      ensures readyAt <= Max(now, old(pauseUntil)) ==> pauseUntil == old(pauseUntil) && log == old(log) && swingAt == old(swingAt) && windupEnd == old(windupEnd)
      ensures Frame(haste, enabled, moving, now, 0, reactionUntil) == old(Frame(haste, enabled, moving, now, 0, reactionUntil))
      ensures Now() == After(old(Now()), Pause(readyAt))
    {
      hide Safe;
      if readyAt <= Max(now, pauseUntil) {
        return;
      }
      DropWindup();
      pauseUntil := readyAt;
      Schedule();
    }

    /** A pause ends early. */
    method ResumeAt(readyAt: int)
      requires Valid()
      modifies this
      ensures Valid() && log == old(log) && naturalReadyAt == old(naturalReadyAt) && windupEnd == old(windupEnd)
      ensures if Max(now, readyAt) < old(pauseUntil) then pauseUntil == Max(now, readyAt) && swingAt == ScheduledAt()
              else pauseUntil == old(pauseUntil) && swingAt == old(swingAt)
      ensures Frame(haste, enabled, moving, now, 0, reactionUntil) == old(Frame(haste, enabled, moving, now, 0, reactionUntil))
      ensures Now() == After(old(Now()), Resume(readyAt))
    {
      var resumeAt := Max(now, readyAt);
      if resumeAt < pauseUntil {
        pauseUntil := resumeAt;
        Schedule();
      }
    }

    /** Ranged haste changes.  A running windup keeps its length; a waiting one that has not come due keeps its
        ready time, pushed back at most as far as a windup from now needs; an overdue one keeps its start. */
    method Rescale(h: Haste)
      requires Valid() && h.swing > 0 && h.windup > 0
      modifies this
      ensures Valid() && haste == h && log == old(log) && windupEnd == old(windupEnd)
      ensures old(Winding()) || old(naturalReadyAt) == 0 ==> naturalReadyAt == old(naturalReadyAt)
      ensures !old(Winding()) && old(naturalReadyAt) != 0 ==>
                if old(WindupStartAt()) >= now then naturalReadyAt == Max(old(naturalReadyAt), now + h.windup)
                else naturalReadyAt == old(WindupStartAt()) + h.windup
      ensures swingAt == if old(Winding()) || old(swingAt) == NEVER_EXPIRES then old(swingAt) else ScheduledAt()
      ensures Frame(h, enabled, moving, now, pauseUntil, reactionUntil) == old(Frame(h, enabled, moving, now, pauseUntil, reactionUntil))
      ensures Now() == After(old(Now()), Rehaste(h))
    {
      hide Safe;
      var oldStart := WindupStartAt();
      haste := h;
      if windupEnd != 0 {
        return;
      }
      if naturalReadyAt != 0 {
        if oldStart >= Max(now, 0) {
          naturalReadyAt := Max(naturalReadyAt, now + h.windup);
        } else {
          naturalReadyAt := oldStart + h.windup;
        }
      }
      if swingAt != NEVER_EXPIRES {
        Schedule();
      }
    }

    // ---- left alone

    /** Runs the timer of an attack that waits, on and standing, up to its windup, which starts neither earlier nor
        later than it may: at the latest of now, the ready time less the windup, the end of a pause and the end of
        a reaction. */
    method RunToWindup()
      requires Valid() && enabled && !moving && !Winding() && swingAt == ScheduledAt()
      requires Max(now, swingAt) + haste.windup < NEVER_EXPIRES
      modifies this
      ensures Valid() && Winding() && now == old(swingAt)
      ensures Latest(now, {old(now), if old(naturalReadyAt) == 0 then 0 else old(naturalReadyAt) - haste.windup, pauseUntil, reactionUntil})
      ensures log == old(log) + [Started(now, haste.windup, Max(pauseUntil, reactionUntil))]
      ensures naturalReadyAt == if old(naturalReadyAt) == 0 then now + haste.windup else old(naturalReadyAt)
      ensures windupEnd == now + haste.windup && swingAt == windupEnd
      ensures Frame(haste, enabled, moving, 0, pauseUntil, reactionUntil) == old(Frame(haste, enabled, moving, 0, pauseUntil, reactionUntil))
    {
      hide Latest;
      ScheduledInFields();
      Wait(swingAt);
      Swing(false);
    }

    /** A pause begun while the attack waits moves the start of its windup to the pause's end if that is later, and
        not at all otherwise. */
    method PauseThenWindup(readyAt: int)
      requires Valid() && enabled && !moving && !Winding() && swingAt == ScheduledAt()
      requires Max(now, Max(swingAt, readyAt)) + haste.windup < NEVER_EXPIRES
      modifies this
      ensures Valid() && Winding() && log == old(log) + [Started(now, haste.windup, Max(pauseUntil, reactionUntil))]
      ensures now == Max(old(swingAt), readyAt)
    {
      ScheduledInFields();
      DelayUntil(readyAt);
      ScheduledInFields();
      RunToWindup();
    }

    /** When the next shot goes off if nothing interferes. */
    function NextReleaseAt(): int
      reads this
    {
      if windupEnd != 0 then swingAt else swingAt + haste.windup
    }

    /** Runs the timer up to the next release: an attack that is on, standing and due some time releases
        exactly when predicted, whatever state it is in. */
    method RunToRelease()
      requires Valid() && enabled && !moving && now <= swingAt
      requires NextReleaseAt() < NEVER_EXPIRES
      modifies this
      ensures Valid() && now == old(NextReleaseAt()) && naturalReadyAt == now + haste.swing && swingAt == ScheduledAt() && !Winding()
      ensures Frame(haste, enabled, moving, 0, pauseUntil, reactionUntil) == old(Frame(haste, enabled, moving, 0, pauseUntil, reactionUntil))
      ensures log != [] && log[|log| - 1].Released?
      ensures log == old(log) + (if old(Winding()) then [] else [Started(old(swingAt), haste.windup, Max(pauseUntil, reactionUntil))])
                     + [Released(now, log[|log| - 1].readyAt)]
    {
      Wait(swingAt);
      if windupEnd == 0 {
        Swing(false);
        Wait(swingAt);
      }
      Swing(false);
    }

    /** Shots in a row at one haste come one swing time apart, or one windup where that is longer. */
    method Volley(shots: nat) returns (releases: seq<int>)
      requires Valid() && enabled && !moving && !Winding() && Max(pauseUntil, reactionUntil) <= now
      requires naturalReadyAt == now + haste.swing && swingAt == ScheduledAt()
      requires now + shots * Max(haste.swing, haste.windup) < NEVER_EXPIRES
      modifies this
      ensures Valid() && |releases| == shots
      ensures forall k :: 0 <= k < shots ==> releases[k] == old(now) + (k + 1) * Max(haste.swing, haste.windup)
      ensures haste == old(haste) && now == old(now) + shots * Max(haste.swing, haste.windup)
    {
      releases := [];
      ghost var apart := Max(haste.swing, haste.windup);
      var n := 0;
      while n < shots
        invariant 0 <= n <= shots && |releases| == n
        invariant Valid() && enabled && !moving && !Winding() && Max(pauseUntil, reactionUntil) <= now
        invariant haste == old(haste) && naturalReadyAt == now + haste.swing && swingAt == ScheduledAt()
        invariant now == old(now) + n * apart
        invariant forall k :: 0 <= k < n ==> releases[k] == old(now) + (k + 1) * apart
      {
        assert n * apart + apart == (n + 1) * apart <= shots * apart by {
          Products(n + 1, shots, apart);
        }
        RunToRelease();
        releases := releases + [now];
        n := n + 1;
      }
    }
  }

  /** A shot released long before its ready time: before the fight, with the attack still off, the unit moves,
      its swing timer is restarted and it stops; the pull makes the shot due at once. */
  method EarlyShot() returns (attack: RangedAttack)
    ensures fresh(attack) && attack.haste == Haste(3000, 500)
    ensures attack.log == [Started(0, 500, 0), Released(500, 3000)] && !Safe(attack.log)
  {
    attack := new RangedAttack(Haste(3000, 500));
    attack.StartMoving();
    attack.StopUntil(0);
    attack.StopMoving(0);
    assert attack.swingAt == NEVER_EXPIRES && attack.naturalReadyAt == 3000;
    attack.PullAndShoot();
  }

  // ---- whole fights

  /** The pull comes before anything but time and changes of haste. */
  predicate PulledFirst(run: seq<Happening>) {
    forall i, j :: 0 <= j < i < |run| && run[i].Pull? ==> run[j].Elapse? || run[j].Rehaste?
  }

  predicate Quiet(run: seq<Happening>, n: nat)
    requires n <= |run|
  {
    forall j :: 0 <= j < n ==> run[j].Elapse? || run[j].Rehaste?
  }

  /** Any fight, up to a pull at which what waited may not start: every release follows on a full windup and comes
      no earlier than the ready time in force, and no windup starts before it may.  There is no such pull if the
      fight is pulled before anything but time and haste has touched the timer. */
  method Fight(haste: Haste, run: seq<Happening>) returns (attack: RangedAttack, early: bool)
    requires haste.swing > 0 && haste.windup > 0
    ensures fresh(attack)
    ensures !early ==> attack.Valid() && Safe(attack.log)
    ensures PulledFirst(run) || (forall i :: 0 <= i < |run| ==> !run[i].Pull?) ==> !early
    ensures !early ==> attack.Now() == Course(Attack(0, 0, 0, 0, 0, 0, 0, 0, haste, false, false), run, |run|)
  {
    hide Safe, After;
    attack := new RangedAttack(haste);
    early := false;
    var i := 0;
    while i < |run| && !early
      invariant 0 <= i <= |run| && fresh(attack) && attack.haste.windup > 0
      invariant !early ==> attack.Valid() && attack.now < NEVER_EXPIRES
      invariant attack.Now() == Course(Attack(0, 0, 0, 0, 0, 0, 0, 0, haste, false, false), run, i)
      invariant !early && Quiet(run, i) ==> Untried(attack)
      invariant PulledFirst(run) || (forall j :: 0 <= j < |run| ==> !run[j].Pull?) ==> !early
      decreases |run| - i
    {
      if run[i].Pull? {
        OnlyOnce(attack.Now(), run[i].inRange);
        if !attack.enabled {
          early := attack.swingAt == NEVER_EXPIRES && !attack.MayStartNow();
          assert PulledFirst(run) ==> Quiet(run, i);
          attack.StartPull(run[i].inRange);
        }
      } else {
        TakeHappening(attack, run[i]);
      }
      i := i + 1;
    }
  }

  lemma OnlyOnce(a: Attack, inRange: bool)
    ensures a.enabled ==> After(a, Pull(inRange)) == a
  {
  }

  /** An attack whose timer nothing has touched is due some time. */
  ghost predicate Untried(attack: RangedAttack)
    reads attack
  {
    && attack.swingAt != NEVER_EXPIRES && !attack.moving && !attack.Winding()
    && attack.pauseUntil == 0 && attack.reactionUntil == 0 && attack.naturalReadyAt == 0
  }

  method TakeHappening(attack: RangedAttack, h: Happening)
    requires attack.Valid() && attack.now < NEVER_EXPIRES && !h.Pull?
    modifies attack
    ensures attack.Valid() && attack.now < NEVER_EXPIRES && attack.haste.windup > 0
    ensures attack.Now() == After(old(attack.Now()), h)
    ensures h.Elapse? || h.Rehaste? ==> (old(Untried(attack)) ==> Untried(attack))
  {
    hide Safe;
    match h
    case Elapse(time) =>
      if attack.now <= time < NEVER_EXPIRES {
        attack.Wait(time);
      }
    case TimerOut(fails) =>
      if attack.enabled && attack.swingAt <= attack.now {
        attack.Swing(fails);
      }
    case Move =>
      if !attack.moving {
        attack.StartMoving();
      }
    case Halt(reactionTime) =>
      if attack.moving && 0 <= reactionTime {
        attack.StopMoving(reactionTime);
      }
    case OutOfRange => attack.Disable();
    case InRange => attack.Enable();
    case Restart(readyAt) => attack.StopUntil(readyAt);
    case Pause(readyAt) => attack.DelayUntil(readyAt);
    case Resume(readyAt) => attack.ResumeAt(readyAt);
    case Rehaste(haste) =>
      if haste.swing > 0 && haste.windup > 0 {
        attack.Rescale(haste);
      }
  }

  lemma Products(a: int, b: int, c: int)
    requires a <= b && 0 <= c
    ensures a * c <= b * c
  {
  }

  /** The parts of the state an operation leaves alone. */
  datatype Frame = Frame(haste: Haste, enabled: bool, moving: bool, now: int, pauseUntil: int, reactionUntil: int)
}

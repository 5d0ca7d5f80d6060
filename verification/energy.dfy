/** The energy bar: regen comes in ticks, and in partial ticks whenever its rate changes; the time until an
    amount is there is given in closed form. */
module Energy {
  import opened Common

  function Ceil(x: real): int {
    -(-x).Floor
  }

  /** Regen over part of a tick. */
  function Share(perTick: real, elapsed: int, tick: int): real
    requires tick > 0
  {
    perTick * (elapsed as real / tick as real)
  }

  lemma SharesJoin(perTick: real, a: int, b: int, tick: int)
    requires tick > 0
    ensures Share(perTick, a, tick) + Share(perTick, b, tick) == Share(perTick, a + b, tick)
  {
    assert (a + b) as real / tick as real == a as real / tick as real + b as real / tick as real;
  }

  lemma WholeShare(perTick: real, tick: int)
    requires tick > 0
    ensures Share(perTick, tick, tick) == perTick && Share(perTick, 0, tick) == 0.0
  {
    assert tick as real / tick as real == 1.0;
  }

  /** What a number of ticks gives, and how long they take. */
  function Amount(ticks: int, perTick: real): real {
    ticks as real * perTick
  }

  function Span(ticks: int, tick: int): int {
    ticks * tick
  }

  lemma AmountGrows(a: int, b: int, perTick: real)
    requires a <= b && perTick >= 0.0
    ensures Amount(a, perTick) <= Amount(b, perTick)
    ensures b == a + 1 ==> Amount(b, perTick) == Amount(a, perTick) + perTick
    ensures Amount(0, perTick) == 0.0
  {
    var p, q, d := a as real, b as real, (b - a) as real;
    assert d >= 0.0 && q == p + d;
    assert d * perTick >= 0.0;
    assert q * perTick == p * perTick + d * perTick;
  }

  lemma SpanGrows(ticks: int, tick: int)
    ensures Span(ticks + 1, tick) == Span(ticks, tick) + tick && Span(0, tick) == 0
  {
  }

  lemma ShareNotNegative(perTick: real, elapsed: int, tick: int)
    requires tick > 0 && elapsed >= 0 && perTick >= 0.0
    ensures Share(perTick, elapsed, tick) >= 0.0
  {
    assert elapsed as real / tick as real >= 0.0;
  }

  class EnergyBar {
    const tick: int
    const energyPerTick: real
    var now: int
    var maxEnergy: real
    var currentEnergy: real
    var nextEnergyTick: int
    var multiplier: real
    /** Regen credited so far, before the cap, and what a continuous regen would have come to. */
    ghost var credited: real
    ghost var integral: real

    function PerTick(): real
      reads `multiplier
    {
      energyPerTick * multiplier
    }

    /** What the bar reads, apart from its books. */
    ghost function Now(): Reading
      reads this
    {
      Reading(now, nextEnergyTick, currentEnergy, multiplier, PerTick())
    }

    /** The next tick is due within one tick from now; time never passes it by. */
    ghost predicate Valid()
      reads this
    {
      tick > 0 && energyPerTick >= 0.0 && multiplier >= 0.0 && nextEnergyTick - tick <= now <= nextEnergyTick && currentEnergy <= maxEnergy
    }

    lemma PerTickNotNegative()
      requires Valid()
      ensures PerTick() >= 0.0
    {
      NotNegative(energyPerTick, multiplier);
    }

    function Elapsed(): int
      reads this
    {
      now - (nextEnergyTick - tick)
    }

    /** The ticks and partial ticks come to a continuous regen up to the last of them. */
    ghost predicate Conserved()
      requires tick > 0
      reads this
    {
      credited + Share(PerTick(), Elapsed(), tick) == integral
    }

    /** A bar whose first tick comes somewhere within a tick of the start; the part of that tick before the
        start counts as regen. */
    constructor (now: int, offset: int, tick: int, energyPerTick: real, maxEnergy: real)
      requires tick > 0 && 0 <= offset < tick && energyPerTick >= 0.0
      ensures Valid() && Conserved() && this.now == now && nextEnergyTick == now + offset && currentEnergy == maxEnergy && this.maxEnergy == maxEnergy
      ensures this.tick == tick && this.energyPerTick == energyPerTick && multiplier == 1.0
      ensures credited == 0.0 && integral == Share(energyPerTick, tick - offset, tick)
    {
      this.tick, this.energyPerTick, this.now := tick, energyPerTick, now;
      this.maxEnergy, currentEnergy := maxEnergy, maxEnergy;
      nextEnergyTick, multiplier := now + offset, 1.0;
      credited, integral := 0.0, Share(energyPerTick * 1.0, tick - offset, tick);
    }

    method Wait(till: int)
      requires Valid() && now <= till <= nextEnergyTick
      modifies `now, `integral
      ensures Valid() && now == till && integral == old(integral) + Share(PerTick(), till - old(now), tick)
      ensures old(Conserved()) ==> Conserved()
    {
      SharesJoin(PerTick(), Elapsed(), till - now, tick);
      integral := integral + Share(PerTick(), till - now, tick);
      now := till;
    }

    method AddEnergy(amount: real)
      requires amount >= 0.0
      modifies `currentEnergy
      ensures currentEnergy == Least(old(currentEnergy) + amount, maxEnergy)
    {
      currentEnergy := Least(currentEnergy + amount, maxEnergy);
    }

    method SpendEnergy(amount: real)
      requires Valid() && amount >= 0.0
      modifies `currentEnergy
      ensures Valid() && currentEnergy == old(currentEnergy) - amount && (old(Conserved()) ==> Conserved())
    {
      currentEnergy := currentEnergy - amount;
    }

    /** The tick task. */
    method RunTask()
      requires Valid()
      modifies `currentEnergy, `nextEnergyTick, `credited
      ensures Valid() && (old(Conserved()) ==> Conserved())
      ensures now < old(nextEnergyTick) ==> currentEnergy == old(currentEnergy) && nextEnergyTick == old(nextEnergyTick) && credited == old(credited)
      ensures now == old(nextEnergyTick) ==> currentEnergy == Least(old(currentEnergy) + PerTick(), maxEnergy) && nextEnergyTick == now + tick
                                             && credited == old(credited) + PerTick() && (old(Conserved()) ==> credited == integral)
    {
      if now < nextEnergyTick {
        return;
      }
      WholeShare(PerTick(), tick);
      PerTickNotNegative();
      AddEnergy(PerTick());
      credited := credited + PerTick();
      nextEnergyTick := now + tick;
    }

    /** A tick time of zero reads as no tick at all. */
    predicate IsTicking()
      reads this
    {
      nextEnergyTick != 0 && nextEnergyTick - now <= tick && now <= nextEnergyTick
    }

    /** Gives a partial tick at once and restarts the tick timer. */
    method ResetEnergyTick()
      requires Valid()
      modifies `currentEnergy, `nextEnergyTick, `credited
      ensures Valid() && (old(Conserved()) ==> Conserved())
      ensures !old(IsTicking()) ==> currentEnergy == old(currentEnergy) && nextEnergyTick == old(nextEnergyTick) && credited == old(credited)
      ensures old(IsTicking()) ==> currentEnergy == Least(old(currentEnergy) + Share(PerTick(), old(Elapsed()), tick), maxEnergy)
                                   && nextEnergyTick == now + tick && (old(Conserved()) ==> credited == integral)
    {
      if !IsTicking() {
        return;
      }
      var timeSinceLastTick := if Elapsed() > 0 then Elapsed() else 0;
      PerTickNotNegative();
      ShareNotNegative(PerTick(), timeSinceLastTick, tick);
      WholeShare(PerTick(), tick);
      var partial := Share(PerTick(), timeSinceLastTick, tick);
      AddEnergy(partial);
      credited := credited + partial;
      nextEnergyTick := now + tick;
    }

    /** The rate changes.  What has accrued since the last tick is given at the old rate first, unless the next
        tick falls on time zero: then it comes at the new one. */
    method MultiplyEnergyRegenSpeed(factor: real)
      requires Valid() && factor >= 0.0
      modifies `currentEnergy, `nextEnergyTick, `credited, `multiplier
      ensures Valid() && multiplier == old(multiplier) * factor
      ensures if old(IsTicking())
              then nextEnergyTick == now + tick && currentEnergy == Least(old(currentEnergy) + Share(old(PerTick()), old(Elapsed()), tick), maxEnergy)
              else nextEnergyTick == old(nextEnergyTick) && credited == old(credited) && currentEnergy == old(currentEnergy)
      ensures old(Conserved()) ==> (Conserved() <==> old(nextEnergyTick) != 0 || old(Elapsed()) == 0 || PerTick() == old(PerTick()))
    {
      ResetEnergyTick();
      WholeShare(PerTick(), tick);
      ghost var before := PerTick();
      label Rate:
      multiplier := multiplier * factor;
      assert multiplier >= 0.0 by { NotNegative(old(multiplier), factor); }
      WholeShare(PerTick(), tick);
      SameShares(before, PerTick(), Elapsed(), tick);
    }

    // ---- the time until an amount is there

    function TimeToTargetEnergy(target: real): (wait: Option<int>)
      reads this
    {
      if currentEnergy >= target then Some(0)
      else if !IsTicking() || PerTick() <= 0.0 || target > maxEnergy then None
      else
        var ticksNeeded := Ceil((target - currentEnergy) / PerTick());
        Some((if nextEnergyTick > now then nextEnergyTick - now else 0) + Span(ticksNeeded - 1, tick))
    }

    /** The energy after a number of ticks, spending none. */
    ghost function EnergyAfter(ticks: nat): real
      reads this
    {
      Least(currentEnergy + Amount(ticks, PerTick()), maxEnergy)
    }

    /** Spends nothing for a number of ticks. */
    method RunTicks(ticks: nat) returns (levels: seq<real>)
      requires Valid() && ticks > 0
      modifies `now, `integral, `currentEnergy, `nextEnergyTick, `credited
      ensures Valid() && (old(Conserved()) ==> Conserved())
      ensures nextEnergyTick == now + tick && now == old(nextEnergyTick) + Span(ticks - 1, tick)
      ensures |levels| == ticks && levels[ticks - 1] == currentEnergy
      ensures forall k :: 0 <= k < ticks ==> levels[k] == old(EnergyAfter(k + 1))
    {
      hide Amount, Span, Share, PerTick;
      ghost var e, max, perTick := currentEnergy, maxEnergy, PerTick();
      PerTickNotNegative();
      Wait(nextEnergyTick);
      RunTask();
      levels := [currentEnergy];
      AmountGrows(0, 1, perTick);
      SpanGrows(0, tick);
      while |levels| < ticks
        invariant 1 <= |levels| <= ticks && Valid() && (old(Conserved()) ==> Conserved())
        invariant PerTick() == perTick && perTick >= 0.0 && nextEnergyTick == now + tick && now == old(nextEnergyTick) + Span(|levels| - 1, tick)
        invariant levels[|levels| - 1] == currentEnergy == Least(e + Amount(|levels|, perTick), max)
        invariant forall k :: 0 <= k < |levels| ==> levels[k] == Least(e + Amount(k + 1, perTick), max)
      {
        AmountGrows(|levels|, |levels| + 1, perTick);
        SpanGrows(|levels| - 1, tick);
        Wait(nextEnergyTick);
        RunTask();
        levels := levels + [currentEnergy];
      }
    }

    /** The predicted time is exactly that of the first tick at which the energy, capped, reaches the target. */
    method WaitForEnergy(target: real) returns (levels: seq<real>)
      requires Valid() && currentEnergy < target && TimeToTargetEnergy(target).Some?
      modifies `now, `integral, `currentEnergy, `nextEnergyTick, `credited
      ensures Valid() && (old(Conserved()) ==> Conserved())
      ensures now == old(now) + old(TimeToTargetEnergy(target)).value && nextEnergyTick == now + tick
      ensures |levels| > 0 && currentEnergy >= target && levels[|levels| - 1] == currentEnergy
      ensures forall k :: 0 <= k < |levels| - 1 ==> levels[k] < target
    {
      hide Amount, Span, Share, Ceil, PerTick;
      ghost var e, perTick := currentEnergy, PerTick();
      var ticks := Ceil((target - currentEnergy) / PerTick());
      PerTickNotNegative();
      Ceiling(target - currentEnergy, PerTick());
      levels := RunTicks(ticks);
      forall k | 0 <= k < |levels| - 1 ensures levels[k] < target {
        AmountGrows(k + 1, ticks - 1, perTick);
      }
    }

    /** Some number of ticks reaches the target exactly if the rate is positive and the bar holds as much; the
        closed form says so unless the next tick falls on time zero. */
    lemma NeverIsNever(target: real)
      requires Valid() && currentEnergy < target
      ensures (exists k: nat :: EnergyAfter(k) >= target) <==> PerTick() > 0.0 && target <= maxEnergy
      ensures TimeToTargetEnergy(target).Some? <==> nextEnergyTick != 0 && exists k: nat :: EnergyAfter(k) >= target
    {
      var perTick := PerTick();
      PerTickNotNegative();
      if perTick > 0.0 && target <= maxEnergy {
        Ceiling(target - currentEnergy, perTick);
        assert EnergyAfter(Ceil((target - currentEnergy) / perTick)) >= target;
      } else {
        forall k: nat ensures EnergyAfter(k) < target {
          assert perTick <= 0.0 ==> Amount(k, perTick) == 0.0;
        }
      }
    }
  }

  // ---- whole runs

  /** What can happen to the bar, in whatever order. */
  datatype BarEvent = Elapse(till: int) | Task | Restart | Rescale(factor: real) | Spend(amount: real) | Gift(amount: real)

  datatype Reading = Reading(now: int, nextTick: int, energy: real, multiplier: real, perTick: real)

  /** What a partial tick makes of a bar that ticks. */
  function Restarted(bar: EnergyBar, r: Reading): Reading
    requires bar.tick > 0
    reads bar`maxEnergy
  {
    if r.nextTick != 0 && r.nextTick - r.now <= bar.tick && r.now <= r.nextTick
    then r.(nextTick := r.now + bar.tick,
            energy := Least(r.energy + Share(r.perTick, r.now - (r.nextTick - bar.tick), bar.tick), bar.maxEnergy))
    else r
  }

  /** What an event makes of a bar; one that cannot happen is passed over. */
  function After(bar: EnergyBar, r: Reading, event: BarEvent): Reading
    requires bar.tick > 0
    reads bar`maxEnergy
  {
    match event
    case Elapse(till) => if r.now <= till <= r.nextTick then r.(now := till) else r
    case Task =>
      if r.now < r.nextTick then r
      else r.(nextTick := r.now + bar.tick, energy := Least(r.energy + r.perTick, bar.maxEnergy))
    case Restart => Restarted(bar, r)
    case Rescale(factor) =>
      if factor < 0.0 then r
      else Restarted(bar, r).(multiplier := r.multiplier * factor, perTick := bar.energyPerTick * (r.multiplier * factor))
    case Spend(amount) => if amount < 0.0 then r else r.(energy := r.energy - amount)
    case Gift(amount) => if amount < 0.0 then r else r.(energy := Least(r.energy + amount, bar.maxEnergy))
  }

  function Course(bar: EnergyBar, r: Reading, events: seq<BarEvent>, n: nat): Reading
    requires bar.tick > 0 && n <= |events|
    reads bar`maxEnergy
  {
    if n == 0 then r else After(bar, Course(bar, r, events, n - 1), events[n - 1])
  }

  /** Any run of a bar takes its course, keeps its tick in reach and its energy within the cap.  What the ticks and
      partial ticks have given comes to a continuous regen at the rates in force, unless the rate changes while the
      next tick falls on time zero: which it never does once a tick has been due after it. */
  method RunBar(bar: EnergyBar, events: seq<BarEvent>)
    requires bar.Valid()
    modifies bar`now, bar`currentEnergy, bar`nextEnergyTick, bar`multiplier, bar`credited, bar`integral
    ensures bar.Valid() && bar.nextEnergyTick >= old(bar.nextEnergyTick) && bar.now >= old(bar.now)
    ensures bar.Now() == Course(bar, old(bar.Now()), events, |events|)
    ensures old(bar.Conserved()) && (old(bar.nextEnergyTick) > 0 || forall i :: 0 <= i < |events| ==> !events[i].Rescale?) ==> bar.Conserved()
  {
    for i := 0 to |events|
      invariant bar.Valid() && bar.nextEnergyTick >= old(bar.nextEnergyTick) && bar.now >= old(bar.now)
      invariant bar.Now() == Course(bar, old(bar.Now()), events, i)
      invariant old(bar.Conserved()) && (old(bar.nextEnergyTick) > 0 || forall j :: 0 <= j < i ==> !events[j].Rescale?) ==> bar.Conserved()
    {
      TakeEvent(bar, events[i]);
    }
  }

  method TakeEvent(bar: EnergyBar, event: BarEvent)
    requires bar.Valid()
    modifies bar`now, bar`currentEnergy, bar`nextEnergyTick, bar`multiplier, bar`credited, bar`integral
    ensures bar.Valid() && bar.nextEnergyTick >= old(bar.nextEnergyTick) && bar.now >= old(bar.now)
    ensures bar.Now() == After(bar, old(bar.Now()), event)
    ensures old(bar.Conserved()) && (old(bar.nextEnergyTick) > 0 || !event.Rescale?) ==> bar.Conserved()
  {
    hide Share;
    match event
    case Elapse(till) =>
      // the tick runs before time passes it
      if bar.now <= till <= bar.nextEnergyTick {
        bar.Wait(till);
      }
    case Task => bar.RunTask();
    case Restart => bar.ResetEnergyTick();
    case Rescale(factor) =>
      if factor >= 0.0 {
        bar.MultiplyEnergyRegenSpeed(factor);
      }
    case Spend(amount) =>
      if amount >= 0.0 {
        bar.SpendEnergy(amount);
      }
    case Gift(amount) =>
      if amount >= 0.0 {
        bar.AddEnergy(amount);
      }
  }

  /** A rate doubled while the next tick falls on time zero: half a tick has accrued at the old rate, and the tick
      gives it at the new one. */
  method TickAtZero() returns (bar: EnergyBar)
    ensures fresh(bar) && bar.Valid() && bar.now == 0
    ensures bar.credited == 40.0 && bar.integral == 30.0
  {
    hide Share;
    assert Share(20.0, 50, 100) == 10.0 && Share(40.0, 50, 100) == 20.0 by {
      Halves();
    }
    bar := new EnergyBar(-50, 50, 100, 20.0, 100.0);
    bar.MultiplyEnergyRegenSpeed(2.0);
    assert bar.PerTick() == 40.0;
    bar.Wait(0);
    bar.RunTask();
  }

  lemma Halves()
    ensures Share(20.0, 50, 100) == 10.0 && Share(40.0, 50, 100) == 20.0
  {
    assert 50 as real / 100 as real == 0.5;
  }

  lemma NotNegative(a: real, b: real)
    requires a >= 0.0 && b >= 0.0
    ensures a * b >= 0.0
  {
  }

  lemma SameShares(a: real, b: real, elapsed: int, tick: int)
    requires tick > 0
    ensures Share(a, elapsed, tick) == Share(b, elapsed, tick) <==> a == b || elapsed == 0
  {
    var part := elapsed as real / tick as real;
    assert part == 0.0 <==> elapsed == 0;
    assert a * part - b * part == (a - b) * part;
  }

  /** The least number of ticks that comes to an amount. */
  lemma Ceiling(amount: real, perTick: real)
    requires amount > 0.0 && perTick > 0.0
    ensures var k := Ceil(amount / perTick);
            k > 0 && Amount(k, perTick) >= amount && Amount(k - 1, perTick) < amount
  {
    var x := amount / perTick;
    var k := Ceil(x);
    assert x * perTick == amount;
    assert x > 0.0;
    assert x <= k as real < x + 1.0;
    assert k as real > 0.0 && (k - 1) as real == k as real - 1.0;
    assert Amount(k - 1, perTick) == (k - 1) as real * perTick;
    Larger(x, k as real, perTick);
    var y := (k - 1) as real;
    assert y < x;
    Larger(y, x, perTick);
    assert y * perTick < amount;
    assert Amount(k - 1, perTick) == y * perTick;
  }

  lemma Larger(a: real, b: real, perTick: real)
    requires perTick > 0.0
    ensures a <= b ==> a * perTick <= b * perTick
    ensures a < b ==> a * perTick < b * perTick
  {
    assert b * perTick - a * perTick == (b - a) * perTick;
    assert a < b ==> (b - a) * perTick > 0.0;
  }
}

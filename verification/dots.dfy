/** Damage over time: the schedule that ties a dot's expiry to its ticks, the rounding that fits ticks
    into a duration, and the ranks of which a caster keeps one on a unit.

    Times are whole nanoseconds.  How haste shortens a tick is the unit's business: the hasted length
    is a field the unit may change at any moment.  Channels are not part of this model. */
module Dots {
  import opened Common

  const MILLISECOND: int := 1_000_000

  // ---------------------------------------------------------------- rounding

  /** n / d rounded to the nearest whole number, halves to the even one. */
  function RoundToEven(n: int, d: int): int
    requires 0 < d
  {
    var q, r := n / d, n % d;
    if 2 * r < d || (2 * r == d && q % 2 == 0) then q else q + 1
  }

  /** The k-fold of d is nearest to n; where two are, k is the even one. */
  ghost predicate Nearest(k: int, n: int, d: int) {
    -d <= 2 * (k * d - n) <= d && (2 * (k * d - n) in {-d, d} ==> k % 2 == 0)
  }

  lemma RoundedIsNearest(n: int, d: int)
    requires 0 < d
    ensures Nearest(RoundToEven(n, d), n, d)
  {
    var q, r := n / d, n % d;
    assert n == q * d + r;
    assert (q + 1) * d == q * d + d;
  }

  /** Nothing else is nearest with halves to even. */
  lemma NearestIsRounded(n: int, d: int, k: int)
    requires 0 < d && Nearest(k, n, d)
    ensures k == RoundToEven(n, d)
  {
    hide RoundToEven;
    RoundedIsNearest(n, d);
    var r := RoundToEven(n, d);
    assert (k - r) * d == k * d - r * d;
    BoundedFactor(k - r, d);
    assert k - r == 1 ==> (k - r) * d == d;
    assert k - r == -1 ==> (k - r) * d == -d;
  }

  lemma BoundedFactor(x: int, d: int)
    requires 0 < d && -d <= x * d <= d
    ensures -1 <= x <= 1
  {
    assert 2 <= x ==> 2 * d <= x * d;
    assert x <= -2 ==> x * d <= -2 * d;
  }

  lemma OrderedDecompositions(p: int, a: int, q: int, b: int, d: int)
    requires 0 <= a < d && 0 <= b < d && p * d + a <= q * d + b
    ensures p < q || (p == q && a <= b)
  {
    assert p * d - q * d == (p - q) * d;
    assert 1 <= p - q ==> d <= (p - q) * d;
  }

  lemma RoundingIsMonotone(m: int, n: int, d: int)
    requires 0 < d && m <= n
    ensures RoundToEven(m, d) <= RoundToEven(n, d)
  {
    OrderedDecompositions(m / d, m % d, n / d, n % d, d);
  }

  lemma WholeMultipleRounds(k: int, d: int)
    requires 0 < d
    ensures RoundToEven(k * d, d) == k
  {
    NearestIsRounded(k * d, d, k);
  }

  /** A rounded quotient is not negative exactly when the numerator reaches down to minus half. */
  lemma RoundsToNonNegative(n: int, d: int)
    requires 0 < d
    ensures 0 <= RoundToEven(n, d) <==> -d <= 2 * n
  {
    hide RoundToEven;
    RoundedIsNearest(n, d);
    var r := RoundToEven(n, d);
    SignOfProduct(r, d);
    assert r == -1 ==> r * d == -d;
  }

  lemma SignOfProduct(r: int, d: int)
    requires 0 < d
    ensures 0 <= r ==> 0 <= r * d
    ensures r <= -1 ==> r * d <= -d
    ensures r <= -2 ==> r * d <= -2 * d
  {
    assert r <= -1 ==> (r + 1) * d <= 0;
    assert r <= -2 ==> (r + 2) * d <= 0;
  }

  /** The ticks that fit into what is left after the next one, the next one included and capped. */
  lemma FittedTicks(left: int, period: int, cap: int)
    requires 0 < period
    ensures var most := period * (cap - 1);
            var ticks := RoundToEven(if left < most then left else most, period) + 1;
            && ticks <= cap && (most <= left ==> ticks == cap)
            && (0 < cap ==> (0 < ticks <==> -period <= 2 * left))
  {
    hide RoundToEven;
    var most := period * (cap - 1);
    assert most == (cap - 1) * period;
    WholeMultipleRounds(cap - 1, period);
    RoundingIsMonotone(if left < most then left else most, most, period);
    RoundsToNonNegative(left, period);
    assert 0 < cap ==> 0 <= most;
  }

  /** A float duration is cut to whole nanoseconds. */
  function ScaledDuration(count: nat, length: int, multiplier: real, flat: int): int {
    Truncated(count as real * length as real * multiplier) + flat
  }

  lemma ScaledIsCut(count: nat, length: int, multiplier: real, flat: int)
    ensures IsCut(ScaledDuration(count, length, multiplier, flat) - flat, count as real * length as real * multiplier)
  {
    TruncatedIsCut(count as real * length as real * multiplier, ScaledDuration(count, length, multiplier, flat) - flat);
  }

  // ---------------------------------------------------------------- one dot

  /** Where the ticks of an active dot stand relative to its end. */
  predicate OnSchedule(expires: int, nextTick: int, remaining: int, period: int) {
    expires == nextTick + (remaining - 1) * period
  }

  /** One tick later: the next is a period away and one fewer remains. */
  lemma ScheduleAfterTick(expires: int, nextTick: int, remaining: int, period: int)
    requires OnSchedule(expires, nextTick, remaining, period)
    ensures OnSchedule(expires, nextTick + period, remaining - 1, period)
    ensures OnSchedule(expires + period, nextTick, remaining + 1, period)
  {
    assert (remaining - 1) * period == (remaining - 2) * period + period;
    assert remaining * period == (remaining - 1) * period + period;
  }

  datatype SavedDot = SavedDot(remainingDuration: int, remainingTicks: int, ticksDone: nat, tickPeriod: int, nextTickIn: int)

  class Dot {
    const rank: nat
    const affectedByHaste: bool
    const hasteReducesDuration: bool

    var baseTickLength: int
    var baseTickCount: nat
    var durationMultiplier: real
    var durationFlat: int
    var hastedTickLength: int

    var tickPeriod: int
    var remainingTicks: int
    var ticksDone: nat
    var duration: int

    var active: bool
    var expires: int
    var nextTick: int

    // The scheduled ticks since the dot was applied, how many it was granted, and all ticks there ever were.
    ghost var fired: nat
    ghost var granted: int
    ghost var total: nat

    /** At time now no tick has been missed, and an overdue dot is one whose last tick has gone off or
        is due now. */
    ghost predicate Valid(now: int)
      reads this
    {
      && 0 < baseTickLength && 0 < hastedTickLength && 0 < tickPeriod
      && (active ==>
            && OnSchedule(expires, nextTick, remainingTicks, tickPeriod)
            && now <= nextTick
            && fired + remainingTicks == granted)
    }

    constructor (rank: nat, affectedByHaste: bool, hasteReducesDuration: bool, tickLength: int, numberOfTicks: nat)
      requires 0 < tickLength
      ensures !active && this.rank == rank && forall now :: Valid(now)
      ensures this.affectedByHaste == affectedByHaste && this.hasteReducesDuration == hasteReducesDuration
      ensures baseTickLength == hastedTickLength == tickLength && baseTickCount == numberOfTicks
      ensures durationMultiplier == 1.0 && durationFlat == 0
      ensures tickPeriod == tickLength && remainingTicks == numberOfTicks && duration == tickLength * numberOfTicks && ticksDone == 0
      ensures expires == 0 && nextTick == 0 && fired == 0 && granted == 0 && total == 0
    {
      this.rank, this.affectedByHaste, this.hasteReducesDuration := rank, affectedByHaste, hasteReducesDuration;
      baseTickLength, baseTickCount, durationMultiplier, durationFlat := tickLength, numberOfTicks, 1.0, 0;
      hastedTickLength := tickLength;
      tickPeriod, remainingTicks, ticksDone, duration := tickLength, numberOfTicks, 0, tickLength * numberOfTicks;
      active, expires, nextTick := false, 0, 0;
      fired, granted, total := 0, 0, 0;
    }

    function CalcTickPeriod(): int
      reads this
    {
      if affectedByHaste then hastedTickLength else baseTickLength
    }

    function BaseDuration(): int
      reads this
    {
      ScaledDuration(baseTickCount, baseTickLength, durationMultiplier, durationFlat)
    }

    /** The ticks an application now would give the dot. */
    function ExpectedTickCount(): int
      requires 0 < baseTickLength && 0 < hastedTickLength
      reads this
    {
      if affectedByHaste && !hasteReducesDuration
      then RoundToEven(BaseDuration(), CalcTickPeriod())
      else RoundToEven(BaseDuration(), baseTickLength)
    }

    function FreshDuration(): int
      requires 0 < baseTickLength && 0 < hastedTickLength
      reads this
    {
      CalcTickPeriod() * ExpectedTickCount()
    }

    /** What an application now would give the dot, in its fields: haste shortens the ticks of a dot it affects;
        the ticks are those that fit best into the base duration, at the hasted length only if haste adds ticks
        rather than cutting the duration; the base duration is the product of the tick count, their length and
        the multiplier, cut to a whole number, and the flat part. */
    lemma FreshInFields()
      requires 0 < baseTickLength && 0 < hastedTickLength
      ensures CalcTickPeriod() == if affectedByHaste then hastedTickLength else baseTickLength
      ensures IsCut(BaseDuration() - durationFlat, baseTickCount as real * baseTickLength as real * durationMultiplier)
      ensures Nearest(ExpectedTickCount(), BaseDuration(), if affectedByHaste && !hasteReducesDuration then hastedTickLength else baseTickLength)
      ensures FreshDuration() == (if affectedByHaste then hastedTickLength else baseTickLength) * ExpectedTickCount()
    {
      hide Nearest, ScaledDuration, RoundToEven;
      RoundedIsNearest(BaseDuration(), baseTickLength);
      RoundedIsNearest(BaseDuration(), hastedTickLength);
      ScaledIsCut(baseTickCount, baseTickLength, durationMultiplier, durationFlat);
    }

    method RecomputeAuraDuration()
      requires 0 < baseTickLength && 0 < hastedTickLength
      modifies `tickPeriod, `remainingTicks, `ticksDone, `duration
      ensures tickPeriod == (if affectedByHaste then hastedTickLength else baseTickLength) && ticksDone == 0
      ensures Nearest(remainingTicks, BaseDuration(), if affectedByHaste && !hasteReducesDuration then hastedTickLength else baseTickLength)
      ensures duration == tickPeriod * remainingTicks
      ensures remainingTicks == ExpectedTickCount() && duration == FreshDuration()
    {
      hide ScaledDuration, RoundToEven, Nearest, IsCut;
      FreshInFields();
      tickPeriod := CalcTickPeriod();
      remainingTicks := RoundToEven(BaseDuration(), baseTickLength);
      if affectedByHaste && !hasteReducesDuration {
        remainingTicks := RoundToEven(BaseDuration(), tickPeriod);
      }
      ticksDone := 0;
      duration := tickPeriod * remainingTicks;
    }

    /** Ends the dot.  Ending it at the instant its next tick is due lets that tick go off. */
    method Deactivate(now: int)
      requires Valid(now)
      modifies `active, `expires, `remainingTicks, `ticksDone, `fired, `total
      ensures Valid(now) && !active && expires == if old(active) then 0 else old(expires)
      ensures old(active) && old(nextTick) == now ==>
                fired == old(fired) + 1 && total == old(total) + 1 && remainingTicks == old(remainingTicks) - 1 && ticksDone == old(ticksDone) + 1
      ensures !old(active) || old(nextTick) != now ==>
                fired == old(fired) && total == old(total) && remainingTicks == old(remainingTicks) && ticksDone == old(ticksDone)
      // run out rather than cut short, it has fired exactly what it was granted
      ensures old(active) && old(expires) == now && 0 <= old(remainingTicks) ==> fired == granted
    {
      hide ScaledDuration, RoundToEven;
      if !active {
        return;
      }
      if expires == now && 0 <= remainingTicks {
        LastTick(now);
      }
      active := false;
      expires := 0;
      if nextTick == now {
        remainingTicks := remainingTicks - 1;
        ticksDone := ticksDone + 1;
        fired, total := fired + 1, total + 1;
      }
    }

    /** At its end a dot has one tick left, due now, or none. */
    lemma LastTick(now: int)
      requires Valid(now) && active && expires == now && 0 <= remainingTicks
      ensures remainingTicks == 0 || (remainingTicks == 1 && nextTick == now)
      ensures remainingTicks == 0 ==> nextTick != now
    {
      assert 2 <= remainingTicks ==> tickPeriod <= (remainingTicks - 1) * tickPeriod;
    }

    /** With a tick left, the next one is not past the end. */
    lemma NoTickPastTheEnd(now: int)
      requires Valid(now) && active && 0 < remainingTicks
      ensures nextTick <= expires
    {
      assert 0 <= (remainingTicks - 1) * tickPeriod;
    }

    /** A dot with ticks to come ends at its last one; with none it has ended a period before the next. */
    lemma TickAhead(now: int)
      requires Valid(now) && active && now + tickPeriod <= nextTick && 0 <= remainingTicks
      ensures now <= expires && (remainingTicks == 0 ==> expires == nextTick - tickPeriod)
    {
      assert 0 < remainingTicks ==> 0 <= (remainingTicks - 1) * tickPeriod;
    }

    /** A tick that is due no later than the end is one of those left. */
    lemma DueTickIsLeft(now: int)
      requires Valid(now) && active && nextTick == now <= expires && 0 <= remainingTicks
      ensures 0 < remainingTicks
    {
    }

    /** Applies the dot afresh; a tick of the old one that is due at this instant goes off first. */
    method Apply(now: int)
      requires Valid(now) && 0 < ExpectedTickCount()
      modifies `tickPeriod, `remainingTicks, `ticksDone, `duration, `active, `expires, `nextTick, `fired, `granted, `total
      ensures total == old(total) + if old(active) && old(nextTick) == now then 1 else 0
      ensures Valid(now) && active
      ensures tickPeriod == (if affectedByHaste then hastedTickLength else baseTickLength)
      ensures Nearest(remainingTicks, BaseDuration(), if affectedByHaste && !hasteReducesDuration then hastedTickLength else baseTickLength)
      ensures duration == tickPeriod * remainingTicks && expires == now + duration && nextTick == now + tickPeriod
      ensures remainingTicks == granted == ExpectedTickCount() && duration == FreshDuration() && fired == 0 && ticksDone == 0
    {
      hide ScaledDuration, RoundToEven, Nearest;
      Deactivate(now);
      RecomputeAuraDuration();
      active := true;
      expires := now + duration;
      nextTick := now + tickPeriod;
      fired, granted := 0, remainingTicks;
      assert tickPeriod * remainingTicks == (remainingTicks - 1) * tickPeriod + tickPeriod;
    }

    /** The scheduled tick. */
    method PeriodicTick(now: int)
      requires Valid(now) && active && nextTick == now
      modifies `nextTick, `remainingTicks, `ticksDone, `fired, `total
      ensures Valid(now) && active && nextTick == now + tickPeriod
      ensures remainingTicks == old(remainingTicks) - 1 && ticksDone == old(ticksDone) + 1 && fired == old(fired) + 1 && total == old(total) + 1
    {
      ScheduleAfterTick(expires, nextTick, remainingTicks, tickPeriod);
      remainingTicks := remainingTicks - 1;
      ticksDone := ticksDone + 1;
      fired, total := fired + 1, total + 1;
      nextTick := now + tickPeriod;
    }

    method AddTick(now: int)
      requires Valid(now)
      modifies `expires, `remainingTicks, `granted
      ensures Valid(now)
      ensures !active ==> remainingTicks == old(remainingTicks) && expires == old(expires) && granted == old(granted)
      ensures active ==> && remainingTicks == old(remainingTicks) + 1 && expires == old(expires) + tickPeriod
                         && granted == old(granted) + 1
    {
      if !active {
        return;
      }
      ScheduleAfterTick(expires, nextTick, remainingTicks, tickPeriod);
      remainingTicks := remainingTicks + 1;
      expires := expires + tickPeriod;
      granted := granted + 1;
    }

    /** Extends a running dot: the next tick moves to the current period, and as many ticks as fit are
        kept, never more than a new application would have. */
    method DurationExtend(now: int, extendBy: int)
      requires Valid(now) && active
      modifies `tickPeriod, `nextTick, `remainingTicks, `duration, `expires, `granted
      ensures Valid(now)
      ensures tickPeriod == if affectedByHaste then hastedTickLength else baseTickLength
      ensures nextTick == (var at := old(nextTick) - old(tickPeriod) + tickPeriod; if at < now + MILLISECOND then now + MILLISECOND else at)
      ensures remainingTicks <= RoundToEven(BaseDuration(), tickPeriod) && duration == expires - now
      // uncapped, the ticks are those that fit best after the next one
      ensures var left := old(expires) - now + extendBy - (nextTick - now);
              remainingTicks == (var cap := RoundToEven(BaseDuration(), tickPeriod);
                                 if left < tickPeriod * (cap - 1) then RoundToEven(left, tickPeriod) + 1 else cap)
      // a tick is left exactly when what is left reaches within half a period of the next tick
      ensures 0 < RoundToEven(BaseDuration(), tickPeriod) ==>
                (0 < remainingTicks <==> -tickPeriod <= 2 * (old(expires) + extendBy - nextTick))
    {
      hide ScaledDuration, RoundToEven;
      var previousTick := nextTick - tickPeriod;
      tickPeriod := CalcTickPeriod();
      nextTick := if previousTick + tickPeriod < now + MILLISECOND then now + MILLISECOND else previousTick + tickPeriod;
      var hastedTickCount := RoundToEven(BaseDuration(), tickPeriod);
      var wanted := expires - now + extendBy;
      var most := tickPeriod * (hastedTickCount - 1) + (nextTick - now);
      var extendDuration := if wanted < most then wanted else most;
      FittedTicks(wanted - (nextTick - now), tickPeriod, hastedTickCount);
      remainingTicks := RoundToEven(extendDuration - (nextTick - now), tickPeriod) + 1;
      duration := nextTick - now + (remainingTicks - 1) * tickPeriod;
      expires := now + duration;
      granted := fired + remainingTicks;
    }

    /** Takes over another running dot's period, ticks and end. */
    method CopyDotAndApply(now: int, original: Dot)
      requires Valid(now) && original != this && original.Valid(now) && original.active && now < original.expires
      modifies `tickPeriod, `remainingTicks, `ticksDone, `duration, `active, `expires, `nextTick, `fired, `granted
      ensures Valid(now) && active
      ensures expires == original.expires && nextTick == original.nextTick
      ensures tickPeriod == original.tickPeriod && remainingTicks == original.remainingTicks && ticksDone == original.ticksDone
      ensures fired == 0 && granted == original.remainingTicks
    {
      tickPeriod := original.tickPeriod;
      remainingTicks := original.remainingTicks;
      ticksDone := original.ticksDone;
      duration := original.expires - now;
      active := true;
      expires := now + duration;
      nextTick := original.nextTick;
      fired, granted := 0, remainingTicks;
    }

    method SaveState(now: int) returns (saved: SavedDot)
      requires Valid(now) && active
      ensures saved == SavedDot(expires - now, remainingTicks, ticksDone, tickPeriod, nextTick - now)
    {
      saved := SavedDot(expires - now, remainingTicks, ticksDone, tickPeriod, nextTick - now);
    }

    /** Puts a saved dot back at another time.  It is on schedule exactly when it was on schedule when
        saved; one saved while active was. */
    method RestoreState(now: int, saved: SavedDot)
      requires Valid(now) && 0 < saved.tickPeriod
      modifies `tickPeriod, `remainingTicks, `ticksDone, `active, `expires, `nextTick, `fired, `granted
      ensures active && expires == now + saved.remainingDuration && nextTick == now + saved.nextTickIn
      ensures tickPeriod == saved.tickPeriod && remainingTicks == saved.remainingTicks && ticksDone == saved.ticksDone
      ensures Valid(now) <==> 0 <= saved.nextTickIn && OnSchedule(saved.remainingDuration, saved.nextTickIn, saved.remainingTicks, saved.tickPeriod)
    {
      tickPeriod := saved.tickPeriod;
      remainingTicks := saved.remainingTicks;
      ticksDone := saved.ticksDone;
      active := true;
      expires := saved.remainingDuration + now;
      nextTick := now + saved.nextTickIn;
      fired, granted := 0, remainingTicks;
    }
  }

  /** A dot saved while on schedule comes back on schedule at any later time. */
  method MoveDot(from: Dot, to: Dot, now: int, later: int)
    requires from != to && from.Valid(now) && from.active && to.Valid(later)
    modifies to
    ensures to.Valid(later) && to.active
    ensures to.nextTick - later == from.nextTick - now && to.expires - later == from.expires - now
  {
    var saved := from.SaveState(now);
    to.RestoreState(later, saved);
  }

  /** Fitting ticks at the hasted period changes the duration by at most half a period. */
  lemma HastedDurationIsClose(base: int, period: int)
    requires 0 < period
    ensures -period <= 2 * (period * RoundToEven(base, period) - base) <= period
  {
    RoundedIsNearest(base, period);
    assert period * RoundToEven(base, period) == RoundToEven(base, period) * period;
  }

  // ---------------------------------------------------------------- a dot's whole life

  /** What can happen to a running dot, in whatever order: the clock moves no further than the next
      tick, a due tick goes off, the tracker ends an overdue dot, a tick is added. */
  datatype DotEvent = Wait(until: int) | Tick | Expiry | Add

  /** Valid, and if still running neither past its end nor at it with a tick to come; if run out, it has fired
      what it was granted. */
  ghost predicate Underway(dot: Dot, now: int)
    reads dot
  {
    && dot.Valid(now)
    && if dot.active then 0 <= dot.remainingTicks && now <= dot.expires && (dot.remainingTicks == 0 ==> now == dot.expires)
       else dot.fired == dot.granted
  }

  /** A dot applied with n ticks and given further ones fires exactly n plus those once it has run
      out, whether the last tick or the expiry is processed first at the final instant. */
  method RunOut(dot: Dot, start: int, events: seq<DotEvent>) returns (added: nat, now: int)
    requires dot.Valid(start) && 0 < dot.ExpectedTickCount()
    modifies dot
    ensures dot.Valid(now)
    ensures !dot.active ==> dot.fired == old(dot.ExpectedTickCount()) + added
    ensures dot.active ==> dot.fired + dot.remainingTicks == old(dot.ExpectedTickCount()) + added
    ensures dot.active ==> 0 <= dot.remainingTicks
  {
    hide ScaledDuration, RoundToEven;
    now, added := start, 0;
    dot.Apply(now);
    dot.TickAhead(now);
    for i := 0 to |events|
      invariant Underway(dot, now) && dot.granted == old(dot.ExpectedTickCount()) + added
    {
      var more;
      now, more := TakeDotEvent(dot, now, events[i]);
      added := added + more;
    }
  }

  /** A due tick or expiry runs before the clock moves on. */
  method TakeDotEvent(dot: Dot, start: int, event: DotEvent) returns (now: int, added: nat)
    requires Underway(dot, start)
    modifies dot
    ensures Underway(dot, now) && dot.granted == old(dot.granted) + added
    ensures now == if event.Wait? && start < event.until && (old(dot.active) ==> event.until <= old(dot.nextTick) && start < old(dot.expires))
                   then event.until else start
    ensures dot.active == (old(dot.active) && !(event.Expiry? && old(dot.expires) <= start))
    ensures event.Tick? && old(dot.active) && old(dot.nextTick) == start ==> dot.total == old(dot.total) + 1
    ensures added == if event.Add? && old(dot.active) then 1 else 0
  {
    now, added := start, 0;
    match event
    case Wait(until) =>
      if now < until && (dot.active ==> until <= dot.nextTick && now < dot.expires) {
        if dot.active {
          dot.NoTickPastTheEnd(now);
        }
        now := until;
      }
    case Tick =>
      if dot.active && dot.nextTick == now {
        dot.DueTickIsLeft(now);
        dot.PeriodicTick(now);
        dot.TickAhead(now);
      }
    case Expiry =>
      if dot.active && dot.expires <= now {
        dot.Deactivate(now);
      }
    case Add =>
      if dot.active {
        dot.AddTick(now);
        added := 1;
      }
  }

  // ---------------------------------------------------------------- the ranks of one periodic

  /** The ranks of one periodic that a caster keeps on one unit.  The highest rank may be held on
      another unit, so it is a bound here. */
  class RankGroup {
    var dots: seq<Dot>
    var maxRank: nat

    ghost predicate Valid(now: int)
      reads this, dots
    {
      && (forall i :: 0 <= i < |dots| ==> dots[i].Valid(now) && dots[i].rank <= maxRank)
      && (forall i, j :: 0 <= i < j < |dots| ==> dots[i] != dots[j])
      && AtMostOneActive()
    }

    ghost predicate AtMostOneActive()
      reads this, dots
    {
      forall i, j :: 0 <= i < |dots| && 0 <= j < |dots| && dots[i].active && dots[j].active ==> i == j
    }

    ghost predicate HigherActive(d: Dot)
      reads this, dots
    {
      exists i :: 0 <= i < |dots| && dots[i].active && dots[i].rank > d.rank
    }

    constructor ()
      ensures dots == [] && maxRank == 0 && forall now :: Valid(now)
    {
      dots, maxRank := [], 0;
    }

    method Join(d: Dot, ghost now: int)
      requires Valid(now) && d !in dots && d.Valid(now) && !d.active
      modifies this
      ensures Valid(now) && dots == old(dots) + [d]
      ensures maxRank == if old(maxRank) < d.rank then d.rank else old(maxRank)
    {
      dots := dots + [d];
      maxRank := if maxRank < d.rank then d.rank else maxRank;
    }

    /** The early exit for the highest rank answers as the scan would. */
    method HigherRankActive(d: Dot, ghost now: int) returns (higher: bool)
      requires Valid(now)
      ensures higher == HigherActive(d)
    {
      if d.rank >= maxRank {
        return false;
      }
      for i := 0 to |dots|
        invariant forall j :: 0 <= j < i ==> !(dots[j].active && dots[j].rank > d.rank)
      {
        if dots[i].active && dots[i].rank > d.rank {
          return true;
        }
      }
      return false;
    }

    /** A rank lands unless a higher one is up; it then ends every other rank on the unit.  A rank that
        does not land changes nothing. */
    method Apply(k: nat, now: int) returns (landed: bool)
      requires Valid(now) && k < |dots| && 0 < dots[k].ExpectedTickCount()
      modifies dots
      ensures Valid(now)
      ensures landed == !old(HigherActive(dots[k]))
      ensures landed ==> forall i :: 0 <= i < |dots| ==> dots[i].active == (i == k)
      ensures landed ==>
                && dots[k].expires == now + dots[k].duration && dots[k].duration == old(dots[k].FreshDuration())
                && dots[k].remainingTicks == old(dots[k].ExpectedTickCount())
                && dots[k].tickPeriod == if dots[k].affectedByHaste then old(dots[k].hastedTickLength) else old(dots[k].baseTickLength)
      ensures !landed ==> forall i :: 0 <= i < |dots| ==> unchanged(dots[i])
      ensures forall i :: 0 <= i < |dots| && old(dots[i].active) && !dots[i].active ==> dots[i].rank <= dots[k].rank
    {
      hide ScaledDuration, RoundToEven, Nearest, OnSchedule;
      var higher := HigherRankActive(dots[k], now);
      if higher {
        return false;
      }
      landed := true;
      EndAll(now);
      ApplyAlone(k, now);
    }

    /** Applies a rank while none is up. */
    method ApplyAlone(k: nat, now: int)
      requires Valid(now) && k < |dots| && 0 < dots[k].ExpectedTickCount() && forall i :: 0 <= i < |dots| ==> !dots[i].active
      modifies dots[k]
      ensures Valid(now) && forall i :: 0 <= i < |dots| ==> dots[i].active == (i == k)
      ensures dots[k].expires == now + dots[k].duration && dots[k].duration == old(dots[k].FreshDuration())
      ensures dots[k].remainingTicks == old(dots[k].ExpectedTickCount())
      ensures dots[k].tickPeriod == if dots[k].affectedByHaste then old(dots[k].hastedTickLength) else old(dots[k].baseTickLength)
    {
      hide ScaledDuration, RoundToEven, Nearest, OnSchedule;
      dots[k].Apply(now);
      assert forall i :: 0 <= i < |dots| && i != k ==> dots[i].Valid(now) && !dots[i].active;
    }

    /** Ends every rank on the unit; what an application of any of them would give stays the same. */
    method EndAll(now: int)
      requires Valid(now)
      modifies dots
      ensures Valid(now)
      ensures forall i :: 0 <= i < |dots| ==>
                && dots[i].Valid(now) && !dots[i].active
                && dots[i].ExpectedTickCount() == old(dots[i].ExpectedTickCount()) && dots[i].FreshDuration() == old(dots[i].FreshDuration())
                && dots[i].hastedTickLength == old(dots[i].hastedTickLength) && dots[i].baseTickLength == old(dots[i].baseTickLength)
    {
      hide ScaledDuration, RoundToEven;
      for i := 0 to |dots|
        invariant forall j :: 0 <= j < |dots| ==> dots[j].Valid(now)
        invariant forall j :: 0 <= j < i ==> !dots[j].active
        invariant forall j :: i <= j < |dots| ==> unchanged(dots[j])
        invariant forall j :: 0 <= j < |dots| ==>
                    && dots[j].ExpectedTickCount() == old(dots[j].ExpectedTickCount()) && dots[j].FreshDuration() == old(dots[j].FreshDuration())
                    && dots[j].hastedTickLength == old(dots[j].hastedTickLength) && dots[j].baseTickLength == old(dots[j].baseTickLength)
      {
        dots[i].Deactivate(now);
      }
    }

    /** Whether a rank other than the k-th is up. */
    predicate OtherActive(k: nat)
      reads this, dots
    {
      exists i :: 0 <= i < |dots| && i != k && dots[i].active
    }

    /** No tick of a rank that is up is due before the time. */
    predicate NoTickBefore(time: int)
      reads this, dots
    {
      forall i :: 0 <= i < |dots| && dots[i].active ==> time <= dots[i].nextTick
    }

    /** A copy starts a rank without ending the others: at most one stays up exactly if no other was. */
    method CopyOnto(k: nat, original: Dot, now: int)
      requires Valid(now) && k < |dots| && original !in dots && original.Valid(now) && original.active && now < original.expires
      modifies dots[k]
      ensures dots[k].active && dots[k].expires == original.expires && dots[k].nextTick == original.nextTick
      ensures Valid(now) <==> !old(OtherActive(k))
    {
      dots[k].CopyDotAndApply(now, original);
      assert forall i :: 0 <= i < |dots| && i != k ==> dots[i].Valid(now) && dots[i].active == old(dots[i].active);
    }

    /** So does a dot put back from its saved state; the group stays valid exactly if no other rank was up and the
        saved dot was on schedule. */
    method RestoreTo(k: nat, saved: SavedDot, now: int)
      requires Valid(now) && k < |dots| && 0 < saved.tickPeriod
      modifies dots[k]
      ensures dots[k].active && dots[k].expires == now + saved.remainingDuration && dots[k].nextTick == now + saved.nextTickIn
      ensures Valid(now) <==> !old(OtherActive(k)) && 0 <= saved.nextTickIn
                              && OnSchedule(saved.remainingDuration, saved.nextTickIn, saved.remainingTicks, saved.tickPeriod)
    {
      dots[k].RestoreState(now, saved);
      assert forall i :: 0 <= i < |dots| && i != k ==> dots[i].Valid(now) && dots[i].active == old(dots[i].active);
    }

    /** A dot running out or being removed; no other is touched. */
    method End(k: nat, now: int)
      requires Valid(now) && k < |dots|
      modifies dots[k]
      ensures Valid(now) && !dots[k].active
    {
      dots[k].Deactivate(now);
    }
  }

  // ---------------------------------------------------------------- whole fights

  /** What can happen to the ranks of one periodic on one of two units. */
  datatype RankEvent =
    | Land(k: nat)
    | TickDue(k: nat)
    | RunsOut(k: nat)
    | Prolong(k: nat, extendBy: int)
    | Further(k: nat)
    | Haste(k: nat, tickLength: int)
    | Spread(k: nat, j: nat)
    | Restore(k: nat, saved: SavedDot)

  datatype FightEvent = Elapse(till: int) | OnFirst(event: RankEvent) | OnSecond(event: RankEvent)

  ghost predicate Apart(a: RankGroup, b: RankGroup)
    reads a, b
  {
    forall i, j :: 0 <= i < |a.dots| && 0 <= j < |b.dots| ==> a.dots[i] != b.dots[j]
  }

  /** Any fight over two units keeps at most one rank up on each, and every rank that is up on schedule with no tick
      missed, if a dot is spread from the other unit or restored only where no other rank is up. */
  method KeepRanks(a: RankGroup, b: RankGroup, start: int, events: seq<FightEvent>) returns (now: int)
    requires a.Valid(start) && b.Valid(start) && Apart(a, b)
    modifies a.dots, b.dots
    ensures a.Valid(now) && b.Valid(now) && start <= now
  {
    now := start;
    for i := 0 to |events|
      invariant a.Valid(now) && b.Valid(now) && start <= now
    {
      match events[i]
      case Elapse(till) =>
        if now <= till && a.NoTickBefore(till) && b.NoTickBefore(till) {
          now := till;
        }
      case OnFirst(event) =>
        if event.k < |a.dots| {
          TakeEvent(a, b, now, event);
        }
      case OnSecond(event) =>
        if event.k < |b.dots| {
          TakeEvent(b, a, now, event);
        }
    }
  }

  method TakeEvent(group: RankGroup, other: RankGroup, now: int, event: RankEvent)
    requires group.Valid(now) && other.Valid(now) && Apart(group, other) && event.k < |group.dots|
    modifies group.dots
    ensures group.Valid(now) && other.Valid(now)
  {
    hide ScaledDuration, RoundToEven, OnSchedule;
    assert forall j :: 0 <= j < |other.dots| ==> other.dots[j] !in group.dots;
    match event
    case Land(k) =>
      if 0 < group.dots[k].ExpectedTickCount() {
        var landed := group.Apply(k, now);
      }
    case RunsOut(k) => group.End(k, now);
    case Spread(k, j) =>
      if j < |other.dots| && other.dots[j].active && now < other.dots[j].expires && !group.OtherActive(k) {
        group.CopyOnto(k, other.dots[j], now);
      }
    case Restore(k, saved) =>
      if !group.OtherActive(k) && 0 < saved.tickPeriod && 0 <= saved.nextTickIn
         && OnSchedule(saved.remainingDuration, saved.nextTickIn, saved.remainingTicks, saved.tickPeriod) {
        group.RestoreTo(k, saved, now);
      }
    case _ => TakeOwnEvent(group, now, event);
  }

  /** What happens to one rank and leaves it up or down as it was. */
  method TakeOwnEvent(group: RankGroup, now: int, event: RankEvent)
    requires group.Valid(now) && event.k < |group.dots|
    modifies group.dots[event.k]
    ensures group.Valid(now)
  {
    hide ScaledDuration, RoundToEven, OnSchedule;
    var dot := group.dots[event.k];
    match event
    case TickDue(k) =>
      if dot.active && dot.nextTick == now {
        dot.PeriodicTick(now);
      }
    case Prolong(k, extendBy) =>
      if dot.active {
        dot.DurationExtend(now, extendBy);
      }
    case Further(k) => dot.AddTick(now);
    case Haste(k, tickLength) =>
      if 0 < tickLength {
        dot.hastedTickLength := tickLength;
      }
    case _ =>
  }

  // ---------------------------------------------------------------- a hasted dot

  /** A dot of six ticks of three seconds that haste shortens to 2.4: seven and a half fit into its eighteen
      seconds, and of the two nearest numbers it gets the even one, eight.  If haste cuts its duration instead it
      keeps its six, in 14.4 seconds; if haste does not affect it nothing changes. */
  method HastedApplication(affected: bool, reduces: bool) returns (dot: Dot)
    ensures affected && !reduces ==>
              dot.tickPeriod == 2_400_000_000 && dot.remainingTicks == 8 && dot.duration == dot.expires == 19_200_000_000
    ensures affected && reduces ==>
              dot.tickPeriod == 2_400_000_000 && dot.remainingTicks == 6 && dot.duration == dot.expires == 14_400_000_000
    ensures !affected ==>
              dot.tickPeriod == 3_000_000_000 && dot.remainingTicks == 6 && dot.duration == dot.expires == 18_000_000_000
  {
    dot := new Dot(0, affected, reduces, 3_000_000_000, 6);
    assert dot.Valid(0);
    dot.hastedTickLength := 2_400_000_000;
    assert dot.BaseDuration() == 18_000_000_000;
    assert RoundToEven(18_000_000_000, 2_400_000_000) == 8 && RoundToEven(18_000_000_000, 3_000_000_000) == 6;
    hide ScaledDuration, RoundToEven;
    dot.Apply(0);
  }

  // ---------------------------------------------------------------- two ranks up

  /** A dot of three ticks of a microsecond. */
  method ShortDot(rank: nat) returns (dot: Dot)
    ensures fresh(dot) && dot.rank == rank && !dot.active && dot.Valid(0)
    ensures dot.ExpectedTickCount() == 3 && dot.FreshDuration() == 3000
  {
    dot := new Dot(rank, false, false, 1000, 3);
    assert ScaledDuration(3, 1000, 1.0, 0) == 3000 && RoundToEven(3000, 1000) == 3;
  }

  /** A unit with two ranks of a periodic, none of them up. */
  method TwoRanks() returns (group: RankGroup)
    ensures fresh(group) && |group.dots| == 2 && fresh(group.dots) && group.Valid(0)
    ensures !group.dots[0].active && !group.dots[1].active && group.dots[1].rank == 1
    ensures group.dots[1].ExpectedTickCount() == 3
  {
    hide ScaledDuration, RoundToEven, Nearest, OnSchedule;
    var low := ShortDot(0);
    var high := ShortDot(1);
    group := new RankGroup();
    group.Join(low, 0);
    group.Join(high, 0);
    assert group.dots[0] == low && group.dots[1] == high;
  }

  /** The higher one up, and the lower one up on another unit. */
  method HigherUp() returns (group: RankGroup, original: Dot)
    ensures fresh(group) && fresh(original) && |group.dots| == 2 && fresh(group.dots) && original !in group.dots
    ensures group.Valid(0) && group.dots[1].active && !group.dots[0].active
    ensures original.Valid(0) && original.active && original.expires == 3000 && original.tickPeriod > 0
  {
    hide ScaledDuration, RoundToEven, Nearest, OnSchedule;
    group := TwoRanks();
    var landed := group.Apply(1, 0);
    original := ShortDot(0);
    original.Apply(0);
  }

  /** A lower rank copied from another unit while the higher one is up: both are. */
  method CopiedBeside() returns (group: RankGroup)
    ensures |group.dots| == 2 && group.dots[0].active && group.dots[1].active && !group.Valid(0)
  {
    var original;
    group, original := HigherUp();
    assert group.OtherActive(0);
    group.CopyOnto(0, original, 0);
  }

  /** A lower rank restored from its saved state while the higher one is up: both are. */
  method RestoredBeside() returns (group: RankGroup)
    ensures |group.dots| == 2 && group.dots[0].active && group.dots[1].active && !group.Valid(0)
  {
    var original;
    group, original := HigherUp();
    var saved := original.SaveState(0);
    assert group.OtherActive(0);
    group.RestoreTo(0, saved, 0);
  }
}

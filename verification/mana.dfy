/** The mana bar: regen is credited lazily, in ticks and whenever its rate changes, and must come to what a
    continuous regen would have given. */
module Mana {
  import opened Common

  const TICK: int := 100_000_000
  const FIVE_SECONDS: int := 5_000_000_000
  const SECOND: real := 1_000_000_000.0

  function Seconds(d: int): real {
    d as real / SECOND
  }

  /** Whole nanoseconds, truncated; the durations here are not negative. */
  function DurationFromSeconds(s: real): int {
    (SECOND * s).Floor
  }

  /** A rate that is not positive credits nothing. */
  function Gain(rate: real): real {
    if rate > 0.0 then rate else 0.0
  }

  // ---------------------------------------------------------------- regen over a stretch of time

  /** Mana regenerated from one instant to another, at the casting rate up to `until` and at the full rate
      after it. */
  function Regen(from: int, till: int, until: int, casting: real, full: real): real {
    var mid := Max(from, Min(until, till));
    casting * Seconds(mid - from) + full * Seconds(till - mid)
  }

  /** The same nanosecond by nanosecond. */
  ghost function RegenSum(from: int, till: int, until: int, casting: real, full: real): real
    decreases till - from
  {
    if from >= till then 0.0
    else (if from < until then casting else full) / SECOND + RegenSum(from + 1, till, until, casting, full)
  }

  lemma {:induction false} RegenIsSum(from: int, till: int, until: int, casting: real, full: real)
    requires from <= till
    ensures Regen(from, till, until, casting, full) == RegenSum(from, till, until, casting, full)
    decreases till - from
  {
    hide Regen;
    if from < till {
      RegenIsSum(from + 1, till, until, casting, full);
      RegenJoins(from, from + 1, till, until, casting, full);
      RegenOfOne(from, until, casting, full);
    } else {
      RegenOfNone(from, until, casting, full);
    }
  }

  lemma RegenOfOne(from: int, until: int, casting: real, full: real)
    ensures Regen(from, from + 1, until, casting, full) == (if from < until then casting else full) / SECOND
  {
    if from < until {
      assert Max(from, Min(until, from + 1)) == from + 1;
    }
    assert Seconds(1) == 1.0 / SECOND && Seconds(0) == 0.0;
  }

  lemma RegenOfNone(at: int, until: int, casting: real, full: real)
    ensures Regen(at, at, until, casting, full) == 0.0
  {
    assert Seconds(0) == 0.0;
  }

  lemma RegenJoins(from: int, mid: int, till: int, until: int, casting: real, full: real)
    requires from <= mid <= till
    ensures Regen(from, mid, until, casting, full) + Regen(mid, till, until, casting, full) == Regen(from, till, until, casting, full)
  {
    var m1, m2, m := Max(from, Min(until, mid)), Max(mid, Min(until, till)), Max(from, Min(until, till));
    assert Seconds(m1 - from) + Seconds(m2 - mid) == Seconds(m - from);
    assert Seconds(mid - m1) + Seconds(till - m2) == Seconds(till - m);
    Distributes(casting, Seconds(m1 - from), Seconds(m2 - mid));
    Distributes(full, Seconds(mid - m1), Seconds(till - m2));
  }

  lemma Distributes(a: real, x: real, y: real)
    ensures a * x + a * y == a * (x + y)
  {
  }

  lemma RegenNotNegative(from: int, till: int, until: int, casting: real, full: real)
    requires from <= till && casting >= 0.0 && full >= 0.0
    ensures Regen(from, till, until, casting, full) >= 0.0
  {
    var mid := Max(from, Min(until, till));
    ProductNotNegative(casting, Seconds(mid - from));
    ProductNotNegative(full, Seconds(till - mid));
  }

  lemma ProductNotNegative(a: real, b: real)
    requires a >= 0.0 && b >= 0.0
    ensures a * b >= 0.0
  {
  }

  /** The end of the casting rate makes no difference where it lies outside the stretch on the same side, or
      where the rates are the same. */
  lemma RegenSame(from: int, till: int, u: int, w: int, casting: real, full: real)
    requires from <= till
    ensures Max(from, Min(u, till)) == Max(from, Min(w, till)) ==> Regen(from, till, u, casting, full) == Regen(from, till, w, casting, full)
  {
  }

  /** Nothing regenerates over a stretch exactly if its casting part is empty or at no rate, and the rest too. */
  lemma RegenNone(from: int, till: int, until: int, casting: real, full: real)
    requires from <= till && casting >= 0.0 && full >= 0.0
    ensures Regen(from, till, until, casting, full) == 0.0 <==>
              from == till || ((casting == 0.0 || until <= from) && (full == 0.0 || till <= until))
  {
    var mid := Max(from, Min(until, till));
    var a, b := Seconds(mid - from), Seconds(till - mid);
    assert a >= 0.0 && b >= 0.0 && (a == 0.0 <==> mid == from) && (b == 0.0 <==> mid == till);
    ProductNotNegative(casting, a);
    ProductNotNegative(full, b);
    ProductZero(casting, a);
    ProductZero(full, b);
  }

  lemma ProductZero(a: real, b: real)
    ensures a * b == 0.0 <==> a == 0.0 || b == 0.0
  {
    if b != 0.0 {
      assert a * b / b == a;
    }
  }

  /** Moving the end of the casting rate to the end of the stretch makes a difference exactly where some of it
      came at another rate. */
  lemma RegenMoved(from: int, till: int, until: int, casting: real, full: real)
    requires from <= till
    ensures Regen(from, till, until, casting, full) == Regen(from, till, till, casting, full) <==> casting == full || Max(from, until) >= till
  {
    var mid := Max(from, Min(until, till));
    var a, b := Seconds(mid - from), Seconds(till - mid);
    assert a + b == Seconds(till - from) && Seconds(0) == 0.0;
    assert Regen(from, till, till, casting, full) == casting * (a + b);
    Distributes(casting, a, b);
    assert Regen(from, till, until, casting, full) - Regen(from, till, till, casting, full) == full * b - casting * b;
    SameProducts(full, casting, b);
    assert b == 0.0 <==> till == mid;
  }

  lemma SameProducts(x: real, y: real, b: real)
    ensures x * b - y * b == 0.0 <==> x == y || b == 0.0
  {
    assert x * b - y * b == (x - y) * b;
  }

  /** What a rate gives over a duration, and that crediting it only when positive is the rate's gain. */
  function Part(rate: real, d: int): real {
    rate * Seconds(d)
  }

  lemma GainOfPart(rate: real, d: int)
    requires d >= 0
    ensures Gain(Part(rate, d)) == Gain(rate) * Seconds(d)
  {
    var s := Seconds(d);
    assert s >= 0.0;
    if rate <= 0.0 {
      assert rate * s <= 0.0;
    } else {
      assert rate * s >= 0.0;
    }
  }

  /** The truncated time regen takes to come to an amount, the casting rate lasting for the window. */
  function RegenTime(needed: real, window: int, casting: real, full: real): int
    requires needed > 0.0 && window >= 0 && (needed <= Part(casting, window) || full > 0.0)
  {
    if needed <= Part(casting, window) then
      RateNotZero(needed, window, casting);
      DurationFromSeconds(needed / casting)
    else window + DurationFromSeconds((needed - Part(casting, window)) / full)
  }

  lemma RateNotZero(needed: real, window: int, casting: real)
    requires 0.0 < needed <= Part(casting, window) && window >= 0
    ensures casting > 0.0
  {
    var s := Seconds(window);
    assert s >= 0.0;
    assert casting <= 0.0 ==> casting * s <= 0.0;
  }

  /** The regen that the truncation of the time to an amount loses: that of the cut part of a nanosecond. */
  function Cut(amount: real, rate: real): real
    requires rate != 0.0
  {
    Scale(rate, SECOND * (amount / rate) - DurationFromSeconds(amount / rate) as real)
  }

  function Scale(rate: real, nanoseconds: real): real {
    rate * (nanoseconds / SECOND)
  }

  lemma CutIsShortfall(amount: real, rate: real)
    requires rate > 0.0
    ensures Part(rate, DurationFromSeconds(amount / rate)) == amount - Cut(amount, rate)
    ensures 0.0 <= Cut(amount, rate) < rate / SECOND
    ensures Cut(amount, rate) == 0.0 <==> SECOND * (amount / rate) == DurationFromSeconds(amount / rate) as real
  {
    var x := SECOND * (amount / rate);
    var k := DurationFromSeconds(amount / rate) as real;
    assert rate * (amount / rate) == amount && x / SECOND == amount / rate;
    assert x - 1.0 < k <= x;
    ScaleMinus(rate, x, k);
    ScaleSign(rate, x - k);
    assert Scale(rate, 1.0) == rate / SECOND by {
      assert 1.0 / SECOND * rate == rate / SECOND;
    }
    ScaleMinus(rate, 1.0, x - k);
    ScaleSign(rate, 1.0 - (x - k));
  }

  lemma ScaleMinus(rate: real, a: real, b: real)
    ensures Scale(rate, a - b) == Scale(rate, a) - Scale(rate, b)
  {
    assert (a - b) / SECOND == a / SECOND - b / SECOND;
    Distributes(rate, a / SECOND - b / SECOND, b / SECOND);
  }

  lemma ScaleSign(rate: real, a: real)
    requires rate > 0.0
    ensures Scale(rate, a) > 0.0 <==> a > 0.0
    ensures Scale(rate, a) == 0.0 <==> a == 0.0
  {
    var s := a / SECOND;
    assert s > 0.0 <==> a > 0.0;
    assert s > 0.0 ==> rate * s > 0.0;
    assert s < 0.0 ==> rate * s < 0.0;
    assert s == 0.0 <==> a == 0.0;
  }

  /** The same for the time regen takes to come to an amount, the casting rate lasting for the window. */
  function TimeCut(needed: real, window: int, casting: real, full: real): real
    requires needed > 0.0 && window >= 0 && (needed <= Part(casting, window) || full > 0.0)
  {
    if needed <= Part(casting, window) then
      RateNotZero(needed, window, casting);
      Cut(needed, casting)
    else Cut(needed - Part(casting, window), full)
  }

  /** Truncated durations against products: less than a nanosecond is lost. */
  lemma Truncated(amount: real, rate: real, d: int)
    requires rate > 0.0
    ensures d >= DurationFromSeconds(amount / rate) ==> Part(rate, d) > amount - rate / SECOND
    ensures d > DurationFromSeconds(amount / rate) ==> Part(rate, d) >= amount
    ensures d < DurationFromSeconds(amount / rate) ==> Part(rate, d) < amount
  {
    var x := SECOND * (amount / rate);
    var k := DurationFromSeconds(amount / rate);
    assert x - 1.0 < k as real <= x;
    assert rate * (amount / rate) == amount;
    assert x / SECOND == amount / rate;
    Scaled(rate, x, d as real);
    Scaled(rate, x - 1.0, d as real);
    Scaled(rate, d as real, x);
    OneLess(rate, x);
    assert d >= k ==> d as real >= k as real > x - 1.0;
    assert d > k ==> d as real >= k as real + 1.0 > x;
    assert d < k ==> d as real <= k as real - 1.0 < x;
  }

  lemma Scaled(rate: real, a: real, b: real)
    requires rate > 0.0
    ensures a < b ==> rate * (a / SECOND) < rate * (b / SECOND)
  {
    var p, q := a / SECOND, b / SECOND;
    assert a < b ==> p < q;
    assert p < q ==> rate * p < rate * q;
  }

  lemma OneLess(rate: real, a: real)
    ensures rate * ((a - 1.0) / SECOND) == rate * (a / SECOND) - rate / SECOND
  {
    assert (a - 1.0) / SECOND == a / SECOND - 1.0 / SECOND;
    assert rate * (1.0 / SECOND) == rate / SECOND;
    Distributes(rate, a / SECOND - 1.0 / SECOND, 1.0 / SECOND);
  }

  /** Within the window and past it. */
  lemma RegenSplits(n0: int, t: int, window: int, casting: real, full: real)
    requires t >= 0 && window >= 0
    ensures t <= window ==> Regen(n0, n0 + t, n0 + window, casting, full) == Part(casting, t)
    ensures t >= window ==> Regen(n0, n0 + t, n0 + window, casting, full) == Part(casting, window) + Part(full, t - window)
  {
    assert Seconds(0) == 0.0;
  }

  lemma PartGrows(rate: real, a: int, b: int)
    requires rate >= 0.0 && a <= b
    ensures Part(rate, a) <= Part(rate, b)
  {
    var p, q := Seconds(a), Seconds(b);
    assert p <= q;
    assert rate * p <= rate * q;
  }

  lemma Reached(n0: int, t: int, window: int, casting: real, full: real, needed: real)
    requires casting >= 0.0 && full >= 0.0 && needed > 0.0 && window >= 0 && t >= 0
    requires needed <= Part(casting, window) || full > 0.0
    requires t >= RegenTime(needed, window, casting, full)
    ensures (if needed <= Part(casting, window) then casting else full) > 0.0
    ensures Regen(n0, n0 + t, n0 + window, casting, full) > needed - (if needed <= Part(casting, window) then casting else full) / SECOND
    ensures t > RegenTime(needed, window, casting, full) ==> Regen(n0, n0 + t, n0 + window, casting, full) >= needed
  {
    hide Regen, Part, DurationFromSeconds;
    RegenSplits(n0, t, window, casting, full);
    if needed <= Part(casting, window) {
      RateNotZero(needed, window, casting);
      Truncated(needed, casting, t);
      if t > window {
        PartGrows(full, 0, t - window);
        PartOfNone(full);
      }
    } else {
      Truncated(needed - Part(casting, window), full, t - window);
      FloorNotNegative(needed - Part(casting, window), full);
    }
  }

  /** Whether the time regen takes to come to an amount is a whole number of nanoseconds. */
  predicate WholeNanoseconds(needed: real, window: int, casting: real, full: real)
    requires needed > 0.0 && window >= 0 && (needed <= Part(casting, window) || full > 0.0)
  {
    if needed <= Part(casting, window) then
      RateNotZero(needed, window, casting);
      SECOND * (needed / casting) == DurationFromSeconds(needed / casting) as real
    else
      var amount := needed - Part(casting, window);
      SECOND * (amount / full) == DurationFromSeconds(amount / full) as real
  }

  lemma NothingCut(needed: real, window: int, casting: real, full: real)
    requires needed > 0.0 && window >= 0 && (needed <= Part(casting, window) || full > 0.0)
    ensures TimeCut(needed, window, casting, full) <= 0.0 <==> WholeNanoseconds(needed, window, casting, full)
  {
    hide Part, Cut, DurationFromSeconds;
    if needed <= Part(casting, window) {
      RateNotZero(needed, window, casting);
      CutIsShortfall(needed, casting);
    } else {
      CutIsShortfall(needed - Part(casting, window), full);
    }
  }

  /** At the truncated time the regen falls short of the amount by what the truncation cuts. */
  lemma AtTruncatedTime(n0: int, window: int, casting: real, full: real, needed: real)
    requires casting >= 0.0 && full >= 0.0 && needed > 0.0 && window >= 0
    requires needed <= Part(casting, window) || full > 0.0
    ensures var t := RegenTime(needed, window, casting, full);
            t >= 0 && Regen(n0, n0 + t, n0 + window, casting, full) == needed - TimeCut(needed, window, casting, full)
    ensures TimeCut(needed, window, casting, full) >= 0.0
  {
    hide Regen, Part, DurationFromSeconds, Cut;
    if needed <= Part(casting, window) {
      RateNotZero(needed, window, casting);
      FloorNotNegative(needed, casting);
      CutIsShortfall(needed, casting);
      TimeWithin(needed, window, casting);
      RegenSplits(n0, DurationFromSeconds(needed / casting), window, casting, full);
    } else {
      var amount := needed - Part(casting, window);
      FloorNotNegative(amount, full);
      CutIsShortfall(amount, full);
      RegenSplits(n0, window + DurationFromSeconds(amount / full), window, casting, full);
    }
  }

  /** An amount the window's regen covers takes no longer than the window. */
  lemma TimeWithin(needed: real, window: int, casting: real)
    requires casting > 0.0 && needed <= Part(casting, window)
    ensures DurationFromSeconds(needed / casting) <= window
  {
    Truncated(needed, casting, window);
  }

  lemma PartOfNone(rate: real)
    ensures Part(rate, 0) == 0.0
  {
    assert Seconds(0) == 0.0;
  }

  lemma FloorNotNegative(amount: real, rate: real)
    requires amount >= 0.0 && rate > 0.0
    ensures DurationFromSeconds(amount / rate) >= 0
  {
    assert amount / rate >= 0.0;
  }

  lemma NotYet(n0: int, t: int, window: int, casting: real, full: real, needed: real)
    requires casting >= 0.0 && full >= 0.0 && needed > 0.0 && window >= 0
    requires needed <= Part(casting, window) || full > 0.0
    requires 0 <= t < RegenTime(needed, window, casting, full)
    ensures Regen(n0, n0 + t, n0 + window, casting, full) < needed
  {
    hide Regen, Part, DurationFromSeconds;
    RegenSplits(n0, t, window, casting, full);
    if needed <= Part(casting, window) {
      RateNotZero(needed, window, casting);
      Truncated(needed, casting, t);
      if t > window {
        PartGrows(casting, window, t);
      }
    } else if t <= window {
      PartGrows(casting, t, window);
    } else {
      Truncated(needed - Part(casting, window), full, t - window);
    }
  }

  /** An amount that the window's regen does not cover never comes at no full rate; any other comes some time. */
  lemma NeverComes(n0: int, until: int, casting: real, full: real, needed: real)
    requires casting >= 0.0 && full >= 0.0 && needed > 0.0 && until >= n0
    ensures needed > Part(casting, until - n0) && full <= 0.0 <==> forall till :: n0 <= till ==> Regen(n0, till, until, casting, full) < needed
  {
    hide Regen, Part, RegenTime;
    var window := until - n0;
    if needed > Part(casting, window) && full <= 0.0 {
      forall till | n0 <= till ensures Regen(n0, till, until, casting, full) < needed {
        RegenSplits(n0, till - n0, window, casting, full);
        if till <= until {
          PartGrows(casting, till - n0, window);
        } else {
          PartAtNoRate(till - until);
        }
      }
    } else if needed <= Part(casting, window) {
      RegenSplits(n0, window, window, casting, full);
      assert Regen(n0, until, until, casting, full) >= needed;
    } else {
      var t := RegenTime(needed, window, casting, full) + 1;
      AtTruncatedTime(n0, window, casting, full, needed);
      Reached(n0, t, window, casting, full, needed);
      assert Regen(n0, n0 + t, until, casting, full) >= needed;
    }
  }

  lemma PartAtNoRate(d: int)
    ensures Part(0.0, d) == 0.0
  {
  }

  /** The first tick at or after an instant. */
  lemma TargetIsTick(at: int, next: int)
    ensures at > next ==>
              var target := next + (at - next + TICK - 1) / TICK * TICK;
              at <= target < at + TICK && (target - next) % TICK == 0
  {
  }

  lemma EarlierTick(at: int, target: int, reachedAt: int, first: int)
    requires first <= at < target && (target - at) % TICK == 0
    requires reachedAt <= first ==> target == first
    requires reachedAt > first ==> target < reachedAt + TICK
    ensures at < reachedAt
  {
    assert target - at >= TICK;
  }

  // ---------------------------------------------------------------- the bar

  datatype Reading = Reading(
    now: int, lastTick: int, nextTick: int, mana: real, maxMana: real, casting: real, full: real, ruleEnd: int, paidBy: int,
    channeling: bool, paidMana: bool, channelEnd: int, enabled: bool)

  class ManaBar {
    var now: int
    var maxMana: real
    var currentMana: real
    var whileCasting: real
    var whileNotCasting: real
    var ruleEnd: int
    var lastManaTick: int
    var nextManaTick: int
    var paidBy: int
    var channeling: bool
    var paidMana: bool
    var channelEnd: int
    var enabled: bool
    /** Regen credited so far, before the cap, and what a continuous regen would have come to by now. */
    ghost var credited: real
    ghost var integral: real
    ghost var spent: real
    ghost var lost: real

    predicate ChannelPaidMana()
      reads this
    {
      channeling && paidMana
    }

    /** Where the casting rate ends, as a credit at the given time sees it. */
    function CastingUntil(at: int): int
      reads this
    {
      if ChannelPaidMana() then at else ruleEnd
    }

    /** Regen between two instants at the rates in force. */
    function Between(from: int, till: int): real
      reads this
    {
      if enabled then Regen(from, till, CastingUntil(till), Gain(whileCasting), Gain(whileNotCasting)) else 0.0
    }

    /** What the bar reads, apart from its books. */
    ghost function Now(): Reading
      reads this
    {
      Reading(now, lastManaTick, nextManaTick, currentMana, maxMana, whileCasting, whileNotCasting, ruleEnd, paidBy,
              channeling, paidMana, channelEnd, enabled)
    }

    /** All regen up to the last tick is credited, and nothing else. */
    ghost predicate Conserved()
      reads this
    {
      credited + Between(lastManaTick, now) == integral
    }

    ghost predicate Valid()
      reads this
    {
      && lastManaTick <= now && currentMana <= maxMana
      && currentMana == maxMana + credited - lost - spent
      && (ChannelPaidMana() ==> now <= channelEnd)
    }

    constructor (at: int, maxMana: real, whileCasting: real, whileNotCasting: real)
      requires maxMana >= 0.0
      ensures Valid() && Conserved() && now == lastManaTick == ruleEnd == at && nextManaTick == at + TICK
      ensures credited == 0.0 && integral == 0.0 && currentMana == maxMana == this.maxMana
      ensures this.whileCasting == whileCasting && this.whileNotCasting == whileNotCasting && enabled && !channeling && !paidMana && paidBy == 0
    {
      now, lastManaTick, nextManaTick := at, at, at + TICK;
      this.maxMana, currentMana := maxMana, maxMana;
      this.whileCasting, this.whileNotCasting := whileCasting, whileNotCasting;
      ruleEnd, paidBy, channeling, paidMana, channelEnd, enabled := at, 0, false, false, at, true;
      credited, integral, spent, lost := 0.0, 0.0, 0.0, 0.0;
    }

    /** Time passes, and a continuous regen would run at the rates in force. */
    method Wait(till: int)
      requires Valid() && now <= till && (ChannelPaidMana() ==> till <= channelEnd)
      modifies `now, `integral
      ensures Valid() && now == till && integral == old(integral) + Between(old(now), till)
      ensures old(Conserved()) ==> Conserved()
    {
      assert Between(lastManaTick, now) + Between(now, till) == Between(lastManaTick, till) by {
        var u := if ChannelPaidMana() then till else ruleEnd;
        if enabled {
          RegenSame(lastManaTick, now, CastingUntil(now), u, Gain(whileCasting), Gain(whileNotCasting));
          RegenJoins(lastManaTick, now, till, u, Gain(whileCasting), Gain(whileNotCasting));
        }
      }
      integral := integral + Between(now, till);
      now := till;
    }

    method AddMana(amount: real)
      requires amount >= 0.0 && currentMana <= maxMana
      modifies `currentMana, `lost, `credited
      ensures currentMana == Least(old(currentMana) + amount, maxMana)
      ensures credited == old(credited) + amount
      ensures lost == old(lost) + old(currentMana) + amount - currentMana
    {
      var newMana := Least(currentMana + amount, maxMana);
      credited, lost := credited + amount, lost + currentMana + amount - newMana;
      currentMana := newMana;
    }

    /** Credits the regen since the last tick: up to the end of the five-second window, or all of it while a
        paid channel runs, at the casting rate, and the rest at the full rate. */
    method CreditManaRegen()
      requires Valid()
      modifies `currentMana, `lost, `credited, `lastManaTick
      ensures Valid() && lastManaTick == now && credited == old(credited) + old(Between(lastManaTick, now))
      ensures currentMana == Least(old(currentMana) + old(Between(lastManaTick, now)), maxMana)
      ensures old(Conserved()) ==> Conserved() && credited == integral
    {
      NoneBetween(now);
      if now <= lastManaTick {
        return;
      }
      var from := lastManaTick;
      lastManaTick := now;
      if !enabled {
        return;
      }
      var castingUntil := now;
      if !ChannelPaidMana() {
        castingUntil := Max(from, Min(ruleEnd, now));
      }
      PartsCredited(from, castingUntil);
      var amount := Part(whileCasting, castingUntil - from);
      if amount > 0.0 {
        AddMana(amount);
      }
      amount := Part(whileNotCasting, now - castingUntil);
      if amount > 0.0 {
        AddMana(amount);
      }
    }

    lemma NoneBetween(at: int)
      ensures Between(at, at) == 0.0
    {
      RegenOfNone(at, CastingUntil(at), Gain(whileCasting), Gain(whileNotCasting));
    }

    lemma BetweenNotNegative(from: int, till: int)
      requires from <= till
      ensures Between(from, till) >= 0.0
    {
      RegenNotNegative(from, till, CastingUntil(till), Gain(whileCasting), Gain(whileNotCasting));
    }

    lemma PartsCredited(from: int, mid: int)
      requires enabled && from <= now && mid == if ChannelPaidMana() then now else Max(from, Min(ruleEnd, now))
      ensures Between(from, now) == Gain(Part(whileCasting, mid - from)) + Gain(Part(whileNotCasting, now - mid))
    {
      GainOfPart(whileCasting, mid - from);
      GainOfPart(whileNotCasting, now - mid);
    }

    method RunTask()
      requires Valid()
      modifies `currentMana, `lost, `credited, `lastManaTick, `nextManaTick
      ensures credited == old(credited) + if now >= old(nextManaTick) then old(Between(lastManaTick, now)) else 0.0
      ensures Valid() && (old(Conserved()) ==> Conserved())
      ensures now < old(nextManaTick) ==> nextManaTick == old(nextManaTick) && lastManaTick == old(lastManaTick)
                                          && currentMana == old(currentMana) && credited == old(credited)
      ensures now >= old(nextManaTick) ==> nextManaTick == now + TICK && lastManaTick == now
                                           && currentMana == Least(old(currentMana) + old(Between(lastManaTick, now)), maxMana)
    {
      if now < nextManaTick {
        return;
      }
      CreditManaRegen();
      nextManaTick := now + TICK;
    }

    // ---- what changes the rate

    method UpdateManaRegenRates(casting: real, notCasting: real)
      requires Valid()
      modifies `currentMana, `lost, `credited, `lastManaTick, `whileCasting, `whileNotCasting
      ensures Valid() && whileCasting == casting && whileNotCasting == notCasting
      ensures lastManaTick == now && credited == old(credited) + old(Between(lastManaTick, now))
      ensures currentMana == Least(old(currentMana) + old(Between(lastManaTick, now)), maxMana)
      ensures old(Conserved()) ==> Conserved()
    {
      CreditManaRegen();
      whileCasting, whileNotCasting := casting, notCasting;
      NoneBetween(now);
    }

    /** A cast that costs mana starts the five-second window.  Regen is credited first only when the last window
        is over: until then it has come at the casting rate anyway. */
    method SpendCost(spell: int, cost: real, hardcastExpires: int)
      requires Valid() && spell != 0
      modifies `currentMana, `lost, `credited, `lastManaTick, `spent, `paidBy, `ruleEnd
      ensures Valid()
      ensures old(Conserved()) ==> Conserved()
      ensures cost <= 0.0 ==> paidBy == 0 && ruleEnd == old(ruleEnd) && currentMana == old(currentMana)
      ensures if cost > 0.0 && old(ruleEnd) < now
              then lastManaTick == now && credited == old(credited) + old(Between(lastManaTick, now))
              else lastManaTick == old(lastManaTick) && credited == old(credited)
      ensures cost > 0.0 ==> currentMana == (if old(ruleEnd) < now then Least(old(currentMana) + old(Between(lastManaTick, now)), maxMana)
                                             else old(currentMana)) - cost
      ensures cost > 0.0 ==> paidBy == spell && ruleEnd == Max(now + FIVE_SECONDS, hardcastExpires) && spent == old(spent) + cost
    {
      hide Regen, Seconds;
      paidBy := 0;
      if cost > 0.0 {
        RegenSame(lastManaTick, now, ruleEnd, Max(now + FIVE_SECONDS, hardcastExpires), Gain(whileCasting), Gain(whileNotCasting));
        RegenOfNone(now, Max(now + FIVE_SECONDS, hardcastExpires), Gain(whileCasting), Gain(whileNotCasting));
        RegenOfNone(now, now, Gain(whileCasting), Gain(whileNotCasting));
        if ruleEnd < now {
          CreditManaRegen();
        }
        currentMana, spent := currentMana - cost, spent + cost;
        paidBy := spell;
        ruleEnd := Max(now + FIVE_SECONDS, hardcastExpires);
      }
    }

    method EndChannel()
      requires Valid()
      modifies `currentMana, `lost, `credited, `lastManaTick, `channeling
      ensures Valid() && !channeling
      ensures if old(ChannelPaidMana()) then lastManaTick == now && credited == old(credited) + old(Between(lastManaTick, now))
                                             && currentMana == Least(old(currentMana) + old(Between(lastManaTick, now)), maxMana)
              else lastManaTick == old(lastManaTick) && credited == old(credited) && currentMana == old(currentMana)
      ensures old(Conserved()) ==> Conserved()
    {
      if ChannelPaidMana() {
        CreditManaRegen();
      }
      NoneBetween(now);
      channeling := false;
      NoneBetween(now);
    }

    /** A channel starts, ending the one that runs, and claims the last payment if its own spell, or one whose
        channel it is, made it.  Crediting stays right exactly if the channel is not paid for, or a paid one ended
        just now, or no regen since the last tick came at the full rate, as when the payment's own window still
        runs, or the rates are the same. */
    method StartChannel(casts: set<int>, end: int)
      requires Valid() && now <= end && 0 !in casts
      modifies `currentMana, `lost, `credited, `lastManaTick, `channeling, `channelEnd, `paidMana, `paidBy
      ensures Valid() && channeling && channelEnd == end && paidBy == 0
      ensures paidMana <==> old(paidBy) in casts
      ensures if old(ChannelPaidMana())
              then lastManaTick == now && credited == old(credited) + old(Between(lastManaTick, now))
                   && currentMana == Least(old(currentMana) + old(Between(lastManaTick, now)), maxMana)
              else lastManaTick == old(lastManaTick) && credited == old(credited) && currentMana == old(currentMana)
      ensures old(Conserved()) ==>
                (Conserved() <==> old(paidBy !in casts || ChannelPaidMana() || !enabled || Max(lastManaTick, ruleEnd) >= now
                                      || Gain(whileCasting) == Gain(whileNotCasting)))
    {
      if channeling {
        EndChannel();
      }
      channeling, channelEnd := true, end;
      RegenMoved(lastManaTick, now, ruleEnd, Gain(whileCasting), Gain(whileNotCasting));
      NoneBetween(now);
      paidMana := paidBy in casts;
      paidBy := 0;
    }

    /** The end of the casting rate if nothing more is cast. */
    function WindowEnd(): int
      reads this
    {
      Max(Max(ruleEnd, now), if ChannelPaidMana() then channelEnd else now)
    }

    /** How long until regen reaches the desired mana, up to the tick that credits it; None if never. */
    function TimeUntilManaRegen(desired: real): (wait: Option<int>)
      requires ChannelPaidMana() ==> now <= channelEnd
      reads this
    {
      var needed := desired - currentMana;
      if needed <= 0.0 then Some(0)
      else
        var window := WindowEnd() - now;
        if needed > Part(whileCasting, window) && whileNotCasting <= 0.0 then None
        else
          var reachedAt := now + RegenTime(needed, window, whileCasting, whileNotCasting);
          if reachedAt <= nextManaTick then Some(nextManaTick - now)
          else Some(nextManaTick + (reachedAt - nextManaTick + TICK - 1) / TICK * TICK - now)
    }

    /** No wait is given exactly if the mana is not there and however long the unit waits, spending nothing, what
        regenerates does not come to it; and what is there already is not waited for. */
    lemma NeverIsNever(desired: real)
      requires whileCasting >= 0.0 && whileNotCasting >= 0.0 && (ChannelPaidMana() ==> now <= channelEnd)
      ensures desired <= currentMana ==> TimeUntilManaRegen(desired) == Some(0)
      ensures TimeUntilManaRegen(desired).None? <==>
                && desired > currentMana
                && forall till :: now <= till ==> currentMana + Regen(now, till, WindowEnd(), whileCasting, whileNotCasting) < desired
    {
      hide Regen, Part;
      if desired > currentMana {
        NeverComes(now, WindowEnd(), whileCasting, whileNotCasting, desired - currentMana);
        assert forall till :: Regen(now, till, WindowEnd(), whileCasting, whileNotCasting) < desired - currentMana
                              <==> currentMana + Regen(now, till, WindowEnd(), whileCasting, whileNotCasting) < desired;
      }
    }

    /** Time passes towards the end of the window; what regenerates is what the window says. */
    method Pass(till: int, ghost window: int)
      requires Valid() && Conserved() && enabled && now <= till && (ChannelPaidMana() ==> till <= channelEnd)
      requires Max(now, window) == WindowEnd()
      modifies `now, `integral
      ensures Valid() && Conserved() && now == till && Max(now, window) == WindowEnd()
      ensures integral == old(integral) + Regen(old(now), till, window, Gain(whileCasting), Gain(whileNotCasting))
    {
      RegenSame(now, till, CastingUntil(till), window, Gain(whileCasting), Gain(whileNotCasting));
      Wait(till);
    }

    /** One tick on from here, the paid channel ending on the way if it does. */
    method Tick(ghost window: int)
      requires Valid() && Conserved() && enabled && now <= nextManaTick && Max(now, window) == WindowEnd()
      modifies `now, `integral, `currentMana, `lost, `credited, `lastManaTick, `nextManaTick, `channeling
      ensures Valid() && Conserved() && Max(now, window) == WindowEnd()
      ensures now == lastManaTick == old(nextManaTick) && nextManaTick == now + TICK && credited == integral
      ensures integral == old(integral) + Regen(old(now), now, window, Gain(whileCasting), Gain(whileNotCasting))
      ensures credited >= old(credited) && currentMana == Least(old(currentMana) + credited - old(credited), maxMana)
    {
      hide Regen;
      ghost var start := now;
      if ChannelPaidMana() && channelEnd <= nextManaTick {
        Pass(channelEnd, window);
        BetweenNotNegative(lastManaTick, now);
        EndChannel();
        RegenJoins(start, now, nextManaTick, window, Gain(whileCasting), Gain(whileNotCasting));
      }
      Pass(nextManaTick, window);
      BetweenNotNegative(lastManaTick, now);
      RunTask();
      NoneBetween(now);
    }

    /** The mana after the tick at an instant, spending nothing. */
    ghost function ManaAfter(start: int, outstanding: real, mana: real, window: int, at: int): real
      reads `whileCasting, `whileNotCasting, `maxMana
    {
      Least(mana + outstanding + Regen(start, at, window, Gain(whileCasting), Gain(whileNotCasting)), maxMana)
    }

    /** Spends nothing and ticks until a given tick. */
    method TickUntil(target: int) returns (ticks: seq<real>)
      requires Valid() && Conserved() && enabled && now <= nextManaTick <= target && (target - nextManaTick) % TICK == 0
      modifies `now, `integral, `currentMana, `lost, `credited, `lastManaTick, `nextManaTick, `channeling
      ensures Valid() && Conserved() && now == lastManaTick == target
      ensures |ticks| == (target - old(nextManaTick)) / TICK + 1 && ticks[|ticks| - 1] == currentMana
      ensures forall i :: 0 <= i < |ticks| ==>
                ticks[i] == ManaAfter(old(now), old(Between(lastManaTick, now)), old(currentMana), old(WindowEnd()), old(nextManaTick) + i * TICK)
    {
      hide Regen;
      ghost var m0, n0, c0, window, outstanding := currentMana, now, credited, WindowEnd(), Between(lastManaTick, now);
      ghost var first := nextManaTick;
      BetweenNotNegative(lastManaTick, now);
      RegenOfNone(now, window, Gain(whileCasting), Gain(whileNotCasting));
      Tick(window);
      ticks := [currentMana];
      while now < target
        invariant Valid() && Conserved() && enabled && Max(now, window) == WindowEnd()
        invariant n0 <= first <= now <= target && nextManaTick == now + TICK && lastManaTick == now && credited == integral
        invariant (target - now) % TICK == 0 && |ticks| >= 1 && now == first + (|ticks| - 1) * TICK
        invariant credited == c0 + outstanding + Regen(n0, now, window, Gain(whileCasting), Gain(whileNotCasting))
        invariant credited >= c0 && currentMana == Least(m0 + credited - c0, maxMana)
        invariant ticks[|ticks| - 1] == currentMana
        invariant forall i :: 0 <= i < |ticks| ==> ticks[i] == ManaAfter(n0, outstanding, m0, window, first + i * TICK)
      {
        ghost var before := now;
        Tick(window);
        RegenJoins(n0, before, now, window, Gain(whileCasting), Gain(whileNotCasting));
        ticks := ticks + [currentMana];
      }
    }

    /** Spending nothing, the mana is there at the predicted tick exactly if the tick lies past the predicted
        instant, or the regen outstanding at the start makes up for what the truncation of that instant to whole
        nanoseconds cuts, which is less than a nanosecond's regen.  If nothing was outstanding, that is exactly
        if nothing was truncated, and the mana is not there at any tick before. */
    method WaitForMana(desired: real) returns (ticks: seq<real>)
      requires Valid() && Conserved() && enabled && now <= nextManaTick && desired <= maxMana
      requires whileCasting >= 0.0 && whileNotCasting >= 0.0
      requires currentMana < desired && TimeUntilManaRegen(desired).Some?
      modifies `now, `integral, `currentMana, `lost, `credited, `lastManaTick, `nextManaTick, `channeling
      ensures Valid() && Conserved() && now == lastManaTick == old(now) + old(TimeUntilManaRegen(desired)).value
      ensures var needed, window := desired - old(currentMana), old(WindowEnd()) - old(now);
              && currentMana > desired - (if needed <= Part(whileCasting, window) then whileCasting else whileNotCasting) / SECOND
              && (currentMana >= desired <==>
                    || now > old(now) + RegenTime(needed, window, whileCasting, whileNotCasting)
                    || old(Between(lastManaTick, now)) >= TimeCut(needed, window, whileCasting, whileNotCasting))
              && (old(lastManaTick == now) ==>
                    (currentMana >= desired <==>
                       || now > old(now) + RegenTime(needed, window, whileCasting, whileNotCasting)
                       || WholeNanoseconds(needed, window, whileCasting, whileNotCasting)))
      ensures |ticks| > 0 && ticks[|ticks| - 1] == currentMana
      ensures old(lastManaTick == now) ==> forall i :: 0 <= i < |ticks| - 1 ==> ticks[i] < desired
    {
      hide Regen, RegenTime, Part, TimeCut, WholeNanoseconds;
      ghost var m0, n0, window, first := currentMana, now, WindowEnd(), nextManaTick;
      ghost var needed, outstanding := desired - m0, Between(lastManaTick, now);
      ghost var length := RegenTime(needed, window - n0, whileCasting, whileNotCasting);
      var target := now + TimeUntilManaRegen(desired).value;
      TargetIsTick(n0 + length, nextManaTick);
      BetweenNotNegative(lastManaTick, now);
      NoneBetween(now);
      ticks := TickUntil(target);
      Reached(n0, target - n0, window - n0, whileCasting, whileNotCasting, needed);
      assert currentMana == ManaAfter(n0, outstanding, m0, window, target);
      AtTruncatedTime(n0, window - n0, whileCasting, whileNotCasting, needed);
      NothingCut(needed, window - n0, whileCasting, whileNotCasting);
      if outstanding == 0.0 {
        forall i | 0 <= i < |ticks| - 1 ensures ticks[i] < desired {
          EarlierTick(first + i * TICK, target, n0 + length, first);
          NotYet(n0, first + i * TICK - n0, window - n0, whileCasting, whileNotCasting, needed);
        }
      }
    }

    /** No time has passed since the last tick, or what has passed came at no rate. */
    predicate NothingOutstanding()
      reads this
    {
      || lastManaTick == now
      || ((whileCasting <= 0.0 || CastingUntil(now) <= lastManaTick) && (whileNotCasting <= 0.0 || now <= CastingUntil(now)))
    }

    /** A unit enters or leaves play.  Nothing is credited, so crediting stays right exactly if no regen is
        outstanding. */
    method SetEnabled(on: bool)
      requires Valid() && on != enabled
      modifies `enabled
      ensures Valid() && enabled == on
      ensures old(Conserved()) ==> (Conserved() <==> old(NothingOutstanding()))
    {
      RegenNone(lastManaTick, now, CastingUntil(now), Gain(whileCasting), Gain(whileNotCasting));
      enabled := on;
    }
  }

  // ---- whole runs

  /** What can happen to the bar, in whatever order. */
  datatype BarEvent =
    | Elapse(till: int)
    | Task
    | Rates(casting: real, notCasting: real)
    | Spend(spell: int, cost: real, hardcastExpires: int)
    | Channel(casts: set<int>, end: int)
    | StopChannel
    | Switch(on: bool)

  /** A channel claims no payment but that of the cast just before, and the unit enters or leaves play just after
      its regen has been credited for a change of rates. */
  predicate Prompt(events: seq<BarEvent>) {
    forall i :: 0 <= i < |events| ==> PromptAt(events, i)
  }

  predicate PromptAt(events: seq<BarEvent>, i: nat)
    requires i < |events|
  {
    && (events[i].Channel? ==> events[i].casts == {} || (i > 0 && events[i - 1].Spend? && events[i - 1].spell != 0))
    && (events[i].Switch? ==> i > 0 && events[i - 1].Rates?)
  }

  /** What the event just before has settled. */
  ghost predicate Settled(bar: ManaBar, events: seq<BarEvent>, i: nat)
    requires i <= |events|
    reads bar
  {
    && (i > 0 && events[i - 1].Rates? ==> bar.lastManaTick == bar.now)
    && (i > 0 && events[i - 1].Spend? && events[i - 1].spell != 0 ==> bar.paidBy == 0 || bar.ruleEnd >= bar.now)
  }

  /** The bar with all outstanding regen credited, up to its maximum. */
  function Credited(r: Reading): Reading {
    var until := if r.channeling && r.paidMana then r.now else r.ruleEnd;
    var outstanding := if r.enabled then Regen(r.lastTick, r.now, until, Gain(r.casting), Gain(r.full)) else 0.0;
    r.(lastTick := r.now, mana := Least(r.mana + outstanding, r.maxMana))
  }

  /** What an event makes of a bar; one that cannot happen is passed over. */
  function After(r: Reading, event: BarEvent): Reading {
    var paid := r.channeling && r.paidMana;
    match event
    case Elapse(till) =>
      // a paid channel ends before time passes its end
      if r.now <= till && (paid ==> till <= r.channelEnd) then r.(now := till) else r
    case Task => if r.now < r.nextTick then r else Credited(r).(nextTick := r.now + TICK)
    case Rates(casting, notCasting) => Credited(r).(casting := casting, full := notCasting)
    case Spend(spell, cost, hardcastExpires) =>
      if spell == 0 then r
      else if cost <= 0.0 then r.(paidBy := 0)
      else
        var c := if r.ruleEnd < r.now then Credited(r) else r;
        c.(mana := c.mana - cost, paidBy := spell, ruleEnd := Max(r.now + FIVE_SECONDS, hardcastExpires))
    case Channel(casts, end) =>
      if end < r.now || 0 in casts then r
      else
        (if paid then Credited(r) else r).(channeling := true, channelEnd := end, paidMana := r.paidBy in casts, paidBy := 0)
    case StopChannel => (if paid then Credited(r) else r).(channeling := false)
    case Switch(on) => r.(enabled := on)
  }

  function Course(r: Reading, events: seq<BarEvent>, n: nat): Reading
    requires n <= |events|
  {
    if n == 0 then r else After(Course(r, events, n - 1), events[n - 1])
  }

  /** Any run of a bar takes its course and keeps its books.  If its channels claim promptly and it is switched on
      and off promptly, all regen up to the last tick has been credited in the end, each part at the rate that was
      in force, and nothing else. */
  method RunBar(bar: ManaBar, events: seq<BarEvent>)
    requires bar.Valid()
    modifies bar
    ensures bar.Valid() && bar.Now() == Course(old(bar.Now()), events, |events|)
    ensures old(bar.Conserved()) && Prompt(events) ==> bar.Conserved()
  {
    for i := 0 to |events|
      invariant bar.Valid() && bar.Now() == Course(old(bar.Now()), events, i)
      invariant Settled(bar, events, i)
      invariant old(bar.Conserved()) && Prompt(events) ==> bar.Conserved()
    {
      assert Prompt(events) ==> PromptAt(events, i);
      assert PromptAt(events, i) ==> KeepsBooks(bar, events[i]);
      TakeEvent(bar, events[i]);
    }
  }

  /** A channel claims no payment whose window is over, and the unit enters or leaves play with no time passed since
      the last credit. */
  ghost predicate KeepsBooks(bar: ManaBar, event: BarEvent)
    reads bar
  {
    && (event.Channel? && bar.now <= event.end && 0 !in event.casts ==>
          bar.paidBy !in event.casts || Max(bar.lastManaTick, bar.ruleEnd) >= bar.now)
    && (event.Switch? ==> bar.lastManaTick == bar.now)
  }

  method TakeEvent(bar: ManaBar, event: BarEvent)
    requires bar.Valid()
    modifies bar
    ensures bar.Valid() && bar.Now() == After(old(bar.Now()), event)
    ensures old(bar.Conserved() && KeepsBooks(bar, event)) ==> bar.Conserved()
  {
    hide Regen, Seconds;
    match event
    case Elapse(till) =>
      if bar.now <= till && (bar.ChannelPaidMana() ==> till <= bar.channelEnd) {
        bar.Wait(till);
      }
    case Task => bar.RunTask();
    case Rates(casting, notCasting) => bar.UpdateManaRegenRates(casting, notCasting);
    case Spend(spell, cost, hardcastExpires) =>
      if spell != 0 {
        bar.SpendCost(spell, cost, hardcastExpires);
      }
    case Channel(casts, end) =>
      if bar.now <= end && 0 !in casts {
        bar.StartChannel(casts, end);
      }
    case StopChannel => bar.EndChannel();
    case Switch(on) =>
      if on != bar.enabled {
        bar.SetEnabled(on);
      }
  }

  /** A unit that leaves play half a tick after the last: the regen of that half is never credited. */
  method LeavesPlay() returns (bar: ManaBar)
    ensures fresh(bar) && bar.Valid() && bar.now == bar.lastManaTick == TICK
    ensures bar.credited == 0.0 && bar.integral == 0.5
  {
    hide Regen, Seconds;
    LeavingRegen();
    bar := new ManaBar(0, 1000.0, 10.0, 10.0);
    bar.Wait(50_000_000);
    bar.SetEnabled(false);
    bar.Wait(TICK);
    bar.RunTask();
  }

  lemma LeavingRegen()
    ensures Regen(0, 50_000_000, 0, 10.0, 10.0) == 0.5
  {
    assert Seconds(0) == 0.0 && Seconds(50_000_000) == 0.05;
  }

  /** A channel that claims its payment after the payment's window is over: the regen since the last tick came at
      the full rate, and is credited at the casting rate. */
  method LateChannel() returns (bar: ManaBar)
    ensures fresh(bar) && bar.Valid() && bar.lastManaTick == bar.now
    ensures bar.credited == 0.0 && bar.integral == 0.5
  {
    hide Regen, Seconds;
    LateRegen();
    bar := new ManaBar(0, 1000.0, 0.0, 10.0);
    bar.SpendCost(7, 100.0, 0);
    bar.Wait(5_000_000_000);
    bar.RunTask();
    assert bar.credited == 0.0 && bar.integral == 0.0 && bar.lastManaTick == bar.now == bar.ruleEnd;
    bar.Wait(5_050_000_000);
    assert bar.integral == 0.5;
    bar.StartChannel({7}, 8_000_000_000);
    assert bar.ChannelPaidMana() && bar.lastManaTick == 5_000_000_000 && bar.credited == 0.0;
    bar.Wait(5_100_000_000);
    bar.RunTask();
  }

  lemma LateRegen()
    ensures Regen(0, 5_000_000_000, 5_000_000_000, 0.0, 10.0) == 0.0
    ensures Regen(5_000_000_000, 5_050_000_000, 5_000_000_000, 0.0, 10.0) == 0.5
    ensures Regen(5_050_000_000, 5_100_000_000, 5_100_000_000, 0.0, 10.0) == 0.0
    ensures Regen(5_000_000_000, 5_100_000_000, 5_100_000_000, 0.0, 10.0) == 0.0
    ensures Regen(0, 0, 5_000_000_000, 0.0, 10.0) == 0.0
  {
    hide Regen;
    NoRegenWhileCasting(0, 5_000_000_000, 5_000_000_000);
    NoRegenWhileCasting(5_000_000_000, 5_050_000_000, 5_000_000_000);
    NoRegenWhileCasting(5_050_000_000, 5_100_000_000, 5_100_000_000);
    NoRegenWhileCasting(5_000_000_000, 5_100_000_000, 5_100_000_000);
    NoRegenWhileCasting(0, 0, 5_000_000_000);
    assert Seconds(50_000_000) == 0.05;
  }

  lemma NoRegenWhileCasting(from: int, till: int, until: int)
    requires from <= till
    ensures till <= until ==> Regen(from, till, until, 0.0, 10.0) == 0.0
    ensures until <= from ==> Regen(from, till, until, 0.0, 10.0) == 10.0 * Seconds(till - from)
  {
    assert Seconds(0) == 0.0;
  }

  lemma ShortTime()
    ensures Part(10.0, 5_000_000_000) == 50.0
    ensures RegenTime(1.000000005, 5_000_000_000, 10.0, 10.0) == TICK
    ensures !WholeNanoseconds(1.000000005, 5_000_000_000, 10.0, 10.0)
  {
    assert SECOND * (1.000000005 / 10.0) == 100_000_000.5;
  }

  /** A wait that ends short of the desired mana: the predicted instant, cut by half a nanosecond, is a tick. */
  method ShortWait() returns (bar: ManaBar, wait: int)
    ensures fresh(bar) && bar.Valid() && wait == TICK == bar.now
    ensures bar.currentMana < 9.000000005
  {
    hide Regen, RegenTime, Part, WholeNanoseconds, TimeCut;
    ShortTime();
    bar := new ManaBar(0, 10.0, 10.0, 10.0);
    bar.SpendCost(7, 2.0, 0);
    assert bar.currentMana == 8.0 && 9.000000005 - bar.currentMana == 1.000000005;
    wait := bar.TimeUntilManaRegen(9.000000005).value;
    var ticks := bar.WaitForMana(9.000000005);
  }
}

/** The window loop of the damage-smoothness metric: two pointers march over time-sorted events. */
module Tmi {
  import opened Common

  const SECOND := NANOSECONDS_IN_A_SECOND

  datatype Event = Event(timestamp: int, weighted: real)

  ghost predicate Sorted(events: seq<Event>) {
    forall i, j :: 0 <= i < j < |events| ==> events[i].timestamp <= events[j].timestamp
  }

  /** The weights of the first n events that lie in a window of time. */
  ghost function WindowSum(events: seq<Event>, n: nat, from: int, till: int): real
    requires n <= |events|
  {
    if n == 0 then 0.0
    else WindowSum(events, n - 1, from, till) + (if from <= events[n - 1].timestamp < till then events[n - 1].weighted else 0.0)
  }

  ghost predicate Remain(events: seq<Event>, from: int) {
    exists i :: 0 <= i < |events| && from <= events[i].timestamp
  }

  /** The buckets of the first steps: one for each step from which events remain, holding the weights of the
      window that starts there. */
  ghost function Buckets(events: seq<Event>, bin: nat, steps: nat): seq<real> {
    if steps == 0 then []
    else
      var from := (steps - 1) * SECOND;
      Buckets(events, bin, steps - 1) + (if Remain(events, from) then [WindowSum(events, |events|, from, from + bin * SECOND)] else [])
  }

  /** The number of steps whose window ends before the fight does. */
  function Steps(duration: int, bin: nat): nat {
    var room := duration - bin * SECOND;
    if room <= 0 then 0 else (room + SECOND - 1) / SECOND
  }

  /** A step is one of them exactly when its window ends before the fight. */
  lemma StepsCount(duration: int, bin: nat, step: nat)
    ensures step < Steps(duration, bin) <==> step * SECOND < duration - bin * SECOND
  {
  }

  /** The events before the first pointer lie before the window, and those from the second on behind it. */
  ghost predicate Pointed(events: seq<Event>, first: nat, at: int) {
    && first <= |events|
    && (forall i :: 0 <= i < first ==> events[i].timestamp < at)
    && (forall i :: first <= i < |events| ==> at <= events[i].timestamp)
  }

  lemma {:induction false} NoneBefore(events: seq<Event>, n: nat, from: int, till: int)
    requires n <= |events| && forall i :: 0 <= i < n ==> events[i].timestamp < from
    ensures WindowSum(events, n, from, till) == 0.0
  {
    if n > 0 {
      NoneBefore(events, n - 1, from, till);
    }
  }

  lemma {:induction false} NoneBehind(events: seq<Event>, n: nat, m: nat, from: int, till: int)
    requires n <= m <= |events| && forall i :: n <= i < m ==> till <= events[i].timestamp
    ensures WindowSum(events, m, from, till) == WindowSum(events, n, from, till)
    decreases m
  {
    if n < m {
      NoneBehind(events, n, m - 1, from, till);
    }
  }

  /** The marching loop, without the exponential mean taken of its buckets. */
  method MarchBuckets(events: seq<Event>, bin: nat, duration: int) returns (buckets: seq<real>)
    requires Sorted(events)
    ensures bin == 0 ==> buckets == []
    ensures bin > 0 ==> buckets == Buckets(events, bin, Steps(duration, bin))
  {
    buckets := [];
    if bin == 0 {
      return;
    }
    var firstEvent, ev, tStep := 0, 0, 0;
    var lastEvent := |events|;
    StepsCount(duration, bin, 0);
    while tStep * SECOND < duration - bin * SECOND
      invariant 0 <= tStep <= Steps(duration, bin) && buckets == Buckets(events, bin, tStep)
      invariant 0 <= firstEvent <= lastEvent && 0 <= ev <= lastEvent
      invariant forall i :: 0 <= i < firstEvent ==> events[i].timestamp < tStep * SECOND
      invariant forall i :: 0 <= i < ev ==> events[i].timestamp < (tStep + bin) * SECOND
      decreases Steps(duration, bin) - tStep
    {
      StepsCount(duration, bin, tStep);
      firstEvent := Advance(events, firstEvent, tStep * SECOND);
      ev := Advance(events, ev, (tStep + bin) * SECOND);
      if ev - firstEvent > 0 {
        var sum := SumBetween(events, firstEvent, ev, tStep * SECOND, (tStep + bin) * SECOND);
        buckets := buckets + [sum];
      } else {
        NoneBefore(events, ev, tStep * SECOND, (tStep + bin) * SECOND);
        NoneBehind(events, ev, lastEvent, tStep * SECOND, (tStep + bin) * SECOND);
        if firstEvent < lastEvent {
          buckets := buckets + [0.0];
        }
      }
      assert Remain(events, tStep * SECOND) <==> firstEvent < lastEvent by {
        if firstEvent < lastEvent {
          assert tStep * SECOND <= events[firstEvent].timestamp;
        }
      }
      tStep := tStep + 1;
      StepsCount(duration, bin, tStep);
    }
    StepsCount(duration, bin, tStep);
  }

  /** Moves a pointer past the events before an instant. */
  method Advance(events: seq<Event>, start: nat, at: int) returns (p: nat)
    requires Sorted(events) && start <= |events| && forall i :: 0 <= i < start ==> events[i].timestamp < at
    ensures start <= p && Pointed(events, p, at)
  {
    p := start;
    while p < |events| && events[p].timestamp < at
      invariant start <= p <= |events| && forall i :: 0 <= i < p ==> events[i].timestamp < at
    {
      p := p + 1;
    }
  }

  method SumBetween(events: seq<Event>, first: nat, last: nat, from: int, till: int) returns (sum: real)
    requires first <= last && from <= till && Pointed(events, first, from) && Pointed(events, last, till)
    ensures sum == WindowSum(events, |events|, from, till)
  {
    sum := 0.0;
    NoneBefore(events, first, from, till);
    for j := first to last
      invariant sum == WindowSum(events, j, from, till)
    {
      sum := sum + events[j].weighted;
    }
    NoneBehind(events, last, |events|, from, till);
  }

  /** Once no events remain none do later, so the buckets are those of the first steps in a row. */
  lemma {:induction false} BucketsInARow(events: seq<Event>, bin: nat, steps: nat)
    ensures |Buckets(events, bin, steps)| <= steps
    ensures forall t :: 0 <= t < |Buckets(events, bin, steps)| ==>
              Remain(events, t * SECOND) && Buckets(events, bin, steps)[t] == WindowSum(events, |events|, t * SECOND, (t + bin) * SECOND)
    ensures |Buckets(events, bin, steps)| < steps ==> !Remain(events, |Buckets(events, bin, steps)| * SECOND)
  {
    if steps > 0 {
      BucketsInARow(events, bin, steps - 1);
      var k := |Buckets(events, bin, steps - 1)|;
      if k < steps - 1 {
        assert !Remain(events, (steps - 1) * SECOND) by {
          forall i | 0 <= i < |events| ensures events[i].timestamp < (steps - 1) * SECOND {
            assert events[i].timestamp < k * SECOND;
          }
        }
      }
    }
  }
}

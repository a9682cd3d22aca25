/** The thread-safe queue with its two timed pops (agent/common/Queue.h). */
module BlockingQueue {

  /** How one wait on the condition variable ended, and what other threads pushed while the lock was released. */
  datatype Wake<T> = Wake(timedOut: bool, pushed: seq<T>)

  /** Waiting: the wakes listed so far have not ended the call. */
  datatype PopResult<T> = Popped(value: T) | TimedOut | Waiting

  /** Outcome of a pop: its result, the queue and the static counter left behind, and the wakes it consumed. */
  datatype PopRun<T> = PopRun(result: PopResult<T>, items: seq<T>, clock: int, used: nat)

  function Min(a: int, b: int): int {
    if a < b then a else b
  }

  function Max(a: int, b: int): int {
    if a < b then b else a
  }

  /** pop(timeout, granularity): counts up the static duration by g at each timed-out wait. */
  ghost function CountingPop<T>(items: seq<T>, duration: int, timeout: int, g: int, wakes: seq<Wake<T>>): PopRun<T>
    decreases |wakes|
  {
    if items != [] then PopRun(Popped(items[0]), items[1..], duration, 0)
    else if wakes == [] then PopRun(Waiting, items, duration, 0)
    else
      var later := items + wakes[0].pushed;
      if wakes[0].timedOut && duration + g > timeout then PopRun(TimedOut, later, 0, 1)
      else
        var d := if wakes[0].timedOut then duration + g else duration;
        var r := CountingPop(later, d, timeout, g, wakes[1..]);
        r.(used := r.used + 1)
  }

  /** pop(value, timeout, interval): counts its own timeout down by g at each timed-out wait. */
  ghost function CountdownPop<T>(items: seq<T>, timeout: int, g: int, wakes: seq<Wake<T>>): PopRun<T>
    decreases |wakes|
  {
    if items != [] then PopRun(Popped(items[0]), items[1..], timeout, 0)
    else if wakes == [] then PopRun(Waiting, items, timeout, 0)
    else
      var later := items + wakes[0].pushed;
      var t := if wakes[0].timedOut then timeout - g else timeout;
      if wakes[0].timedOut && t <= 0 then PopRun(TimedOut, later, t, 1)
      else
        var r := CountdownPop(later, t, g, wakes[1..]);
        r.(used := r.used + 1)
  }

  ghost function Timeouts<T>(wakes: seq<Wake<T>>): nat {
    if wakes == [] then 0 else (if wakes[0].timedOut then 1 else 0) + Timeouts(wakes[1..])
  }

  ghost function Pushed<T>(wakes: seq<Wake<T>>): seq<T> {
    if wakes == [] then [] else wakes[0].pushed + Pushed(wakes[1..])
  }

  function Taken<T>(result: PopResult<T>): seq<T> {
    if result.Popped? then [result.value] else []
  }

  /** Neither pop drops, duplicates or reorders an element: what was queued and pushed is what was popped and is queued. */
  lemma {:induction false} CountingPopKeepsOrder<T>(items: seq<T>, duration: int, timeout: int, g: int, wakes: seq<Wake<T>>)
    ensures var r := CountingPop(items, duration, timeout, g, wakes);
            && r.used <= |wakes|
            && items + Pushed(wakes[..r.used]) == Taken(r.result) + r.items
            && (r.result.Waiting? ==> r.used == |wakes| && r.items == [])
    decreases |wakes|
  {
    if items == [] && wakes != [] {
      var later := items + wakes[0].pushed;
      var d := if wakes[0].timedOut then duration + g else duration;
      if wakes[0].timedOut && duration + g > timeout {
        assert Pushed(wakes[..1]) == wakes[0].pushed + Pushed(wakes[..1][1..]);
      } else {
        CountingPopKeepsOrder(later, d, timeout, g, wakes[1..]);
        var used := CountingPop(later, d, timeout, g, wakes[1..]).used;
        assert wakes[..used + 1][1..] == wakes[1..][..used];
      }
    }
  }

  lemma {:induction false} CountdownPopKeepsOrder<T>(items: seq<T>, timeout: int, g: int, wakes: seq<Wake<T>>)
    ensures var r := CountdownPop(items, timeout, g, wakes);
            && r.used <= |wakes|
            && items + Pushed(wakes[..r.used]) == Taken(r.result) + r.items
            && (r.result.Waiting? ==> r.used == |wakes| && r.items == [])
    decreases |wakes|
  {
    if items == [] && wakes != [] {
      var later := items + wakes[0].pushed;
      var t := if wakes[0].timedOut then timeout - g else timeout;
      if wakes[0].timedOut && t <= 0 {
        assert Pushed(wakes[..1]) == wakes[0].pushed + Pushed(wakes[..1][1..]);
      } else {
        CountdownPopKeepsOrder(later, t, g, wakes[1..]);
        var used := CountdownPop(later, t, g, wakes[1..]).used;
        assert wakes[..used + 1][1..] == wakes[1..][..used];
      }
    }
  }

  /** wakes[..k] starts with the first wake. */
  lemma PushedStep<T>(wakes: seq<Wake<T>>, k: nat)
    requires 0 < k <= |wakes|
    ensures Pushed(wakes[..k]) == wakes[0].pushed + Pushed(wakes[1..][..k - 1])
  {
    assert wakes[..k][1..] == wakes[1..][..k - 1];
  }

  /** Before each of the first used waits there was nothing to pop. */
  ghost predicate EmptyBefore<T>(items: seq<T>, wakes: seq<Wake<T>>, used: nat) {
    used <= |wakes| && forall k | 0 <= k < used :: items + Pushed(wakes[..k]) == []
  }

  lemma EmptyOneLater<T>(items: seq<T>, wakes: seq<Wake<T>>, used: nat)
    requires items == [] && wakes != [] && EmptyBefore(wakes[0].pushed, wakes[1..], used)
    ensures EmptyBefore(items, wakes, used + 1)
  {
    forall k | 0 <= k < used + 1
      ensures items + Pushed(wakes[..k]) == []
    {
      if k > 0 {
        PushedStep(wakes, k);
        assert wakes[0].pushed + Pushed(wakes[1..][..k - 1]) == [];
      }
    }
  }

  /** A pop waits only while the queue is empty, and gives up only on a timed-out wait; so does the other one. */
  lemma {:induction false} CountingPopWaitsOnlyWhileEmpty<T>(items: seq<T>, duration: int, timeout: int, g: int, wakes: seq<Wake<T>>)
    ensures var r := CountingPop(items, duration, timeout, g, wakes);
            && EmptyBefore(items, wakes, r.used)
            && (r.result.TimedOut? ==> r.used > 0 && wakes[r.used - 1].timedOut)
    decreases |wakes|
  {
    if items == [] && wakes != [] {
      var later := items + wakes[0].pushed;
      assert later == wakes[0].pushed;
      var d := if wakes[0].timedOut then duration + g else duration;
      if wakes[0].timedOut && duration + g > timeout {
        EmptyOneLater(items, wakes, 0);
      } else {
        CountingPopWaitsOnlyWhileEmpty(later, d, timeout, g, wakes[1..]);
        EmptyOneLater(items, wakes, CountingPop(later, d, timeout, g, wakes[1..]).used);
      }
    }
  }

  lemma {:induction false} CountdownPopWaitsOnlyWhileEmpty<T>(items: seq<T>, timeout: int, g: int, wakes: seq<Wake<T>>)
    ensures var r := CountdownPop(items, timeout, g, wakes);
            && EmptyBefore(items, wakes, r.used)
            && (r.result.TimedOut? ==> r.used > 0 && wakes[r.used - 1].timedOut)
    decreases |wakes|
  {
    if items == [] && wakes != [] {
      var later := items + wakes[0].pushed;
      assert later == wakes[0].pushed;
      var t := if wakes[0].timedOut then timeout - g else timeout;
      if wakes[0].timedOut && t <= 0 {
        EmptyOneLater(items, wakes, 0);
      } else {
        CountdownPopWaitsOnlyWhileEmpty(later, t, g, wakes[1..]);
        EmptyOneLater(items, wakes, CountdownPop(later, t, g, wakes[1..]).used);
      }
    }
  }

  lemma MulStep(n: int, g: int)
    ensures (n + 1) * g == n * g + g
  {
  }

  /** The counter rises by g per timed-out wait; the call gives up at the first that lifts it above the timeout. */
  lemma {:induction false} CountingPopTicks<T>(items: seq<T>, duration: int, timeout: int, g: int, wakes: seq<Wake<T>>)
    ensures var r := CountingPop(items, duration, timeout, g, wakes);
            && r.used <= |wakes|
            && var n := Timeouts(wakes[..r.used]);
            && (r.result.TimedOut? ==>
                  n > 0 && duration + n * g > timeout && (n > 1 ==> duration + (n - 1) * g <= timeout) && r.clock == 0)
            && (!r.result.TimedOut? ==> (n > 0 ==> duration + n * g <= timeout) && r.clock == duration + n * g)
    decreases |wakes|
  {
    if items == [] && wakes != [] {
      var later := items + wakes[0].pushed;
      var d := if wakes[0].timedOut then duration + g else duration;
      if wakes[0].timedOut && duration + g > timeout {
        assert Timeouts(wakes[..1]) == 1 + Timeouts(wakes[..1][1..]);
      } else {
        CountingPopTicks(later, d, timeout, g, wakes[1..]);
        var used := CountingPop(later, d, timeout, g, wakes[1..]).used;
        assert wakes[..used + 1][1..] == wakes[1..][..used];
        var m := Timeouts(wakes[1..][..used]);
        MulStep(m, g);
        if m > 0 {
          MulStep(m - 1, g);
        }
      }
    }
  }

  lemma {:induction false} CountdownPopTicks<T>(items: seq<T>, timeout: int, g: int, wakes: seq<Wake<T>>)
    ensures var r := CountdownPop(items, timeout, g, wakes);
            && r.used <= |wakes|
            && var n := Timeouts(wakes[..r.used]);
            && (r.result.TimedOut? ==> n > 0 && timeout <= n * g && (n > 1 ==> timeout > (n - 1) * g))
            && (!r.result.TimedOut? ==> (n > 0 ==> timeout > n * g))
    decreases |wakes|
  {
    if items == [] && wakes != [] {
      var later := items + wakes[0].pushed;
      var t := if wakes[0].timedOut then timeout - g else timeout;
      if wakes[0].timedOut && t <= 0 {
        assert Timeouts(wakes[..1]) == 1 + Timeouts(wakes[..1][1..]);
      } else {
        CountdownPopTicks(later, t, g, wakes[1..]);
        var used := CountdownPop(later, t, g, wakes[1..]).used;
        assert wakes[..used + 1][1..] == wakes[1..][..used];
        var m := Timeouts(wakes[1..][..used]);
        MulStep(m, g);
        if m > 0 {
          MulStep(m - 1, g);
        }
      }
    }
  }

  lemma MulMonotone(a: int, b: int, g: int)
    requires a <= b && g > 0
    ensures a * g <= b * g
  {
  }

  lemma QuotientAtLeast(k: int, x: int, g: int)
    requires g > 0 && k * g <= x
    ensures k <= x / g
  {
    var d := x / g;
    assert x < d * g + g;
    MulStep(d, g);
    if d < k { MulMonotone(d + 1, k, g); }
  }

  lemma QuotientBelow(k: int, x: int, g: int)
    requires g > 0 && x < k * g
    ensures x / g < k
  {
    var d := x / g;
    assert d * g <= x;
    if k <= d { MulMonotone(k, d, g); }
  }

  /**
   * The number of timed-out waits after which pop(timeout, granularity) gives up, given what the static counter
   * carried over from earlier calls; never more than floor(timeout / g) + 1.
   */
  function CountingWaits(duration: int, timeout: int, g: int): int
    requires g > 0
  {
    Max(1, (timeout - duration) / g + 1)
  }

  lemma CountingPopGivesUpExactly<T>(items: seq<T>, duration: int, timeout: int, granularity: int, wakes: seq<Wake<T>>)
    requires duration >= 0 && timeout > 0 && granularity > 0
    ensures var g := Min(timeout, granularity);
            var r := CountingPop(items, duration, timeout, g, wakes);
            && r.used <= |wakes|
            && CountingWaits(duration, timeout, g) <= timeout / g + 1
            && (r.result.TimedOut? ==> Timeouts(wakes[..r.used]) == CountingWaits(duration, timeout, g))
            && (!r.result.TimedOut? ==> Timeouts(wakes[..r.used]) < CountingWaits(duration, timeout, g))
            && r.clock >= 0
  {
    var g := Min(timeout, granularity);
    CountingPopTicks(items, duration, timeout, g, wakes);
    var r := CountingPop(items, duration, timeout, g, wakes);
    CountingTicksToWaits(duration, timeout, g, Timeouts(wakes[..r.used]), r.result.TimedOut?);
    MulNonNegative(Timeouts(wakes[..r.used]), g);
  }

  lemma MulNonNegative(n: int, g: int)
    requires n >= 0 && g >= 0
    ensures n * g >= 0
  {
  }

  lemma CountingTicksToWaits(duration: int, timeout: int, g: int, n: int, timedOut: bool)
    requires duration >= 0 && timeout > 0 && g > 0 && n >= 0
    requires timedOut ==> n > 0 && duration + n * g > timeout && (n > 1 ==> duration + (n - 1) * g <= timeout)
    requires !timedOut && n > 0 ==> duration + n * g <= timeout
    ensures CountingWaits(duration, timeout, g) <= timeout / g + 1
    ensures if timedOut then n == CountingWaits(duration, timeout, g) else n < CountingWaits(duration, timeout, g)
  {
    var room := timeout - duration;
    var q := room / g;
    assert q * g <= room;
    QuotientAtLeast(q, timeout, g);
    QuotientAtLeast(0, timeout, g);
    if timedOut {
      QuotientBelow(n, room, g);
      if n > 1 {
        QuotientAtLeast(n - 1, room, g);
      }
    } else if n > 0 {
      QuotientAtLeast(n, room, g);
    }
  }

  /** The same for the chrono overload: max(1, ceil(timeout / interval)) timed-out waits. */
  function CountdownWaits(timeout: int, g: int): int
    requires g > 0
  {
    Max(1, (timeout + g - 1) / g)
  }

  lemma CountdownPopGivesUpExactly<T>(items: seq<T>, timeout: int, g: int, wakes: seq<Wake<T>>)
    requires g > 0
    ensures var r := CountdownPop(items, timeout, g, wakes);
            && r.used <= |wakes|
            && (r.result.TimedOut? ==> Timeouts(wakes[..r.used]) == CountdownWaits(timeout, g))
            && (!r.result.TimedOut? ==> Timeouts(wakes[..r.used]) < CountdownWaits(timeout, g))
  {
    CountdownPopTicks(items, timeout, g, wakes);
    var r := CountdownPop(items, timeout, g, wakes);
    CountdownTicksToWaits(timeout, g, Timeouts(wakes[..r.used]), r.result.TimedOut?);
  }

  lemma CountdownTicksToWaits(timeout: int, g: int, n: int, timedOut: bool)
    requires g > 0 && n >= 0
    requires timedOut ==> n > 0 && timeout <= n * g && (n > 1 ==> timeout > (n - 1) * g)
    requires !timedOut && n > 0 ==> timeout > n * g
    ensures if timedOut then n == CountdownWaits(timeout, g) else n < CountdownWaits(timeout, g)
  {
    var up := timeout + g - 1;
    if timedOut {
      MulStep(n, g);
      QuotientBelow(n + 1, up, g);
      if n > 1 {
        MulStep(n - 1, g);
        QuotientAtLeast(n, up, g);
      }
    } else if n > 0 {
      MulStep(n, g);
      QuotientAtLeast(n + 1, up, g);
    }
  }

  /** The function-local static of pop(timeout, granularity): one counter shared by all queues of an element type. */
  class PopClock {
    var duration: int

    constructor ()
      ensures duration == 0
    {
      duration := 0;
    }
  }

  class Queue<T> {
    const clock: PopClock
    var items: seq<T>

    constructor (clock: PopClock)
      ensures this.clock == clock && items == []
    {
      this.clock := clock;
      items := [];
    }

    method Push(item: T)
      modifies this
      ensures items == old(items) + [item]
    {
      items := items + [item];
    }

    method Pop(timeout: int, granularity: int, wakes: seq<Wake<T>>) returns (result: PopResult<T>, ghost used: nat)
      modifies this`items, clock`duration
      ensures PopRun(result, items, clock.duration, used)
           == CountingPop(old(items), old(clock.duration), timeout, Min(timeout, granularity), wakes)
    {
      var waitGranularity := granularity;
      if timeout < waitGranularity {
        waitGranularity := timeout;
      }
      ghost var g := Min(timeout, granularity);
      var i := 0;
      used := 0;
      while items == []
        invariant i == used <= |wakes|
        invariant var whole := CountingPop(old(items), old(clock.duration), timeout, g, wakes);
                  var rest := CountingPop(items, clock.duration, timeout, g, wakes[i..]);
                  whole == rest.(used := rest.used + i)
        decreases |wakes| - i
      {
        if i == |wakes| {
          return Waiting, used;
        }
        ghost var left := wakes[i..];
        var wake := wakes[i];
        items := items + wake.pushed;
        i := i + 1;
        used := i;
        assert left[1..] == wakes[i..];
        if wake.timedOut {
          clock.duration := clock.duration + waitGranularity;
          if clock.duration > timeout {
            clock.duration := 0;
            return TimedOut, used;
          }
        }
      }
      result := Popped(items[0]);
      items := items[1..];
    }

    method PopWithin(timeout: int, interval: int, wakes: seq<Wake<T>>) returns (result: PopResult<T>, left: int, ghost used: nat)
      modifies this`items
      ensures PopRun(result, items, left, used) == CountdownPop(old(items), timeout, interval, wakes)
    {
      left := timeout;
      var i := 0;
      used := 0;
      while items == []
        invariant i == used <= |wakes|
        invariant var whole := CountdownPop(old(items), timeout, interval, wakes);
                  var rest := CountdownPop(items, left, interval, wakes[i..]);
                  whole == rest.(used := rest.used + i)
        decreases |wakes| - i
      {
        if i == |wakes| {
          return Waiting, left, used;
        }
        ghost var later := wakes[i..];
        var wake := wakes[i];
        items := items + wake.pushed;
        i := i + 1;
        used := i;
        assert later[1..] == wakes[i..];
        if wake.timedOut {
          left := left - interval;
          if left <= 0 {
            return TimedOut, left, used;
          }
        }
      }
      result := Popped(items[0]);
      items := items[1..];
    }
  }
}

/** Rate-limited execution: how many callbacks one second can hold, with a clock that only has to
    be monotone (src/rate.c). */
module Rate {

  const NSEC: nat := 1_000_000_000
  const INTERVALS_PER_SEC: nat := 2
  const TIMESHIFT: nat := 1024
  const TWO_31: nat := 0x8000_0000
  const TWO_64: nat := 0x1_0000_0000_0000_0000

  // ---- The busy-waiting form ----

  ghost predicate Monotone(ticks: seq<nat>) {
    forall i, j :: 0 <= i <= j < |ticks| ==> ticks[i] <= ticks[j]
  }

  function Interval(rate: nat): nat
    requires 0 < rate
  {
    NSEC / rate
  }

  /** The most callbacks a second can hold: a second divided by the interval, rounded up. */
  function MaxCalls(rate: nat): nat
    requires 0 < rate <= NSEC
  {
    (NSEC + Interval(rate) - 1) / Interval(rate)
  }

  /** Callbacks made from reading `k` on, after `i` of them, when all succeed. */
  function CallsFrom(ticks: seq<nat>, k: nat, interval: nat, i: nat): nat
    requires |ticks| > 0
    decreases |ticks| - k
  {
    if k >= |ticks| || ticks[k] - ticks[0] >= NSEC then i
    else CallsFrom(ticks, k + 1, interval, if ticks[k] - ticks[0] >= interval * i then i + 1 else i)
  }

  /** The i-th callback comes no earlier than i intervals after the beginning. */
  lemma {:induction false} CallsAreSpaced(ticks: seq<nat>, k: nat, rate: nat, i: nat)
    requires |ticks| > 0 && 0 < rate <= NSEC && (i > 0 ==> Interval(rate) * (i - 1) < NSEC)
    ensures CallsFrom(ticks, k, Interval(rate), i) >= i
    ensures CallsFrom(ticks, k, Interval(rate), i) <= if i > MaxCalls(rate) then i else MaxCalls(rate)
    decreases |ticks| - k
  {
    SpacedFits(rate, i);
    if k < |ticks| && ticks[k] - ticks[0] < NSEC {
      if ticks[k] - ticks[0] >= Interval(rate) * i {
        CallsAreSpaced(ticks, k + 1, rate, i + 1);
        SpacedFits(rate, i + 1);
      } else {
        CallsAreSpaced(ticks, k + 1, rate, i);
      }
    }
  }

  lemma IntervalPositive(rate: nat)
    requires 0 < rate <= NSEC
    ensures 0 < Interval(rate) <= NSEC
  {
  }

  /** If callback number i starts within the second there were at most MaxCalls. */
  lemma SpacedFits(rate: nat, i: nat)
    requires 0 < rate <= NSEC && (i > 0 ==> Interval(rate) * (i - 1) < NSEC)
    ensures i <= MaxCalls(rate)
  {
    IntervalPositive(rate);
    if i > 0 {
      DivBound(NSEC, Interval(rate), i);
    }
  }

  lemma DivBound(n: nat, q: nat, i: nat)
    requires q > 0 && i > 0 && q * (i - 1) < n
    ensures i <= (n + q - 1) / q
  {
    if i > (n + q - 1) / q {
      var c := (n + q - 1) / q;
      assert q * c + q > n + q - 1;
      MulMono(q, c, i - 1);
    }
  }

  lemma MulMono(q: nat, a: nat, b: nat)
    requires a <= b
    ensures q * a <= q * b
  {
  }

  /** rate_execute_1s_busywait, with the readings the clock will give: they do not go back, and the
      last one is a second after the first.  `i` callbacks are made, of results the caller does not
      control; interval * i stays a C int. */
  method BusyWait(rate: nat, ticks: seq<nat>) returns (ret: int, i: nat)
    requires 0 < rate <= NSEC && |ticks| >= 2 && Monotone(ticks) && ticks[|ticks| - 1] - ticks[0] >= NSEC
    ensures i <= MaxCalls(rate) && Interval(rate) * i < TWO_31
    ensures ret == 0 ==> i == CallsFrom(ticks, 1, Interval(rate), 0)
    ensures ret != 0 ==> 0 < i <= CallsFrom(ticks, 1, Interval(rate), 0)
  {
    var interval := NSEC / rate;
    var begin, k := ticks[0], 1;
    i, ret := 0, 0;
    IntervalPositive(rate);
    SpacedFits(rate, 0);
    while ticks[k] - begin < NSEC
      invariant 1 <= k < |ticks| && ret == 0 && interval == Interval(rate)
      invariant i > 0 ==> interval * (i - 1) < NSEC
      invariant interval * i < TWO_31 && i <= MaxCalls(rate)
      invariant CallsFrom(ticks, 1, interval, 0) == CallsFrom(ticks, k, interval, i)
      decreases |ticks| - k
    {
      if ticks[k] - begin >= interval * i {
        SpacedFits(rate, i + 1);
        Step(interval, i);
        ret := *;
        if ret != 0 {
          CallsAreSpaced(ticks, k + 1, rate, i + 1);
          return ret, i + 1;
        }
        i := i + 1;
      }
      k := k + 1;
    }
  }

  lemma Step(q: nat, i: nat)
    ensures q * (i + 1) == q * i + q
  {
  }

  /** The bound in terms of the rate: exactly the rate when it divides a second, at most one more
      exactly when the remainder is no larger than the interval, as it is for all rates up to the
      square root of a second. */
  lemma MaxCallsVersusRate(rate: nat)
    requires 0 < rate <= NSEC
    ensures MaxCalls(rate) >= rate
    ensures MaxCalls(rate) == rate <==> NSEC % rate == 0
    ensures MaxCalls(rate) <= rate + 1 <==> NSEC % rate <= Interval(rate)
    ensures rate * rate <= NSEC ==> MaxCalls(rate) <= rate + 1
  {
    IntervalPositive(rate);
    var q, s := Interval(rate), NSEC % rate;
    assert NSEC == rate * q + s;
    CeilSplit(rate, q, s);
    if rate * rate <= NSEC && q < rate {
      Step(rate, q);
      MulMono(rate, q + 1, rate);
    }
  }

  /** Rounding up (rate * q + s) / q. */
  lemma CeilSplit(rate: nat, q: nat, s: nat)
    requires q > 0
    ensures (rate * q + s + q - 1) / q == rate + (s + q - 1) / q
    ensures (s + q - 1) / q == 0 <==> s == 0
    ensures (s + q - 1) / q <= 1 <==> s <= q
  {
    var c := (s + q - 1) / q;
    assert rate * q + s + q - 1 == q * (rate + c) + (s + q - 1) % q;
    DivUnique(rate * q + s + q - 1, q, rate + c, (s + q - 1) % q);
    if s <= q {
      if s > 0 {
        DivUnique(s + q - 1, q, 1, s - 1);
      } else {
        DivUnique(q - 1, q, 0, q - 1);
      }
    } else {
      DivAtLeast(s + q - 1, q, 2);
    }
  }

  lemma DivUnique(n: nat, q: nat, c: nat, r: nat)
    requires q > 0 && n == q * c + r && r < q
    ensures n / q == c
  {
    var d := n / q;
    if d < c {
      Step(q, d);
      MulMono(q, d + 1, c);
    } else if d > c {
      Step(q, c);
      MulMono(q, c + 1, d);
    }
  }

  lemma DivAtLeast(n: nat, q: nat, c: nat)
    requires q > 0 && n >= q * c
    ensures n / q >= c
  {
    var d := n / q;
    if d < c {
      Step(q, d);
      MulMono(q, d + 1, c);
    }
  }

  // ---- The bound is reached ----

  /** A clock that is read at every multiple of the interval and after a second. */
  function FineTicks(rate: nat): (t: seq<nat>)
    requires 0 < rate <= NSEC
    ensures |t| == MaxCalls(rate) + 2 && t[0] == 0 && t[|t| - 1] == NSEC
    ensures forall k :: 1 <= k <= MaxCalls(rate) ==> t[k] == Interval(rate) * (k - 1)
  {
    [0] + seq(MaxCalls(rate), k requires 0 <= k => Interval(rate) * k) + [NSEC]
  }

  lemma LastCallFits(rate: nat, k: nat)
    requires 0 < rate <= NSEC && k < MaxCalls(rate)
    ensures Interval(rate) * k < NSEC
  {
    IntervalPositive(rate);
    var q := Interval(rate);
    if q * k >= NSEC {
      MulMono(q, k, MaxCalls(rate) - 1);
      var c := MaxCalls(rate);
      Step(q, c - 1);
    }
  }

  lemma {:induction false} FineCalls(rate: nat, k: nat)
    requires 0 < rate <= NSEC && 1 <= k <= MaxCalls(rate) + 1
    ensures CallsFrom(FineTicks(rate), k, Interval(rate), k - 1) == MaxCalls(rate)
    decreases MaxCalls(rate) + 1 - k
  {
    var t := FineTicks(rate);
    if k <= MaxCalls(rate) {
      LastCallFits(rate, k - 1);
      FineCalls(rate, k + 1);
    } else {
      assert t[k] == NSEC;
    }
  }

  /** With a fine enough clock a successful second makes exactly that many callbacks. */
  lemma BoundIsReached(rate: nat)
    requires 0 < rate <= NSEC
    ensures Monotone(FineTicks(rate)) && CallsFrom(FineTicks(rate), 1, Interval(rate), 0) == MaxCalls(rate)
  {
    FineCalls(rate, 1);
    var t := FineTicks(rate);
    forall i, j | 0 <= i <= j < |t|
      ensures t[i] <= t[j]
    {
      if 1 <= i && j <= MaxCalls(rate) {
        MulMono(Interval(rate), i - 1, j - 1);
      } else if 1 <= i <= MaxCalls(rate) {
        LastCallFits(rate, i - 1);
      }
    }
  }

  // ---- The sleeping form ----

  /** A clock that never goes back, and what sleeping and the callback do to it.  Sums of its
      readings and a fraction of a second are doubles, which are `rounding` off at most: nothing for
      readings below 2^53 ns. */
  class Clock {
    var now: nat
    const rounding: nat

    /** What the callbacks have returned, how often the time was up before all were made, and how long it
        has been asked to sleep. */
    ghost var results: seq<int>
    ghost var late: nat
    ghost var asked: nat

    constructor (start: nat, rounding: nat)
      ensures now == start && this.rounding == rounding && results == [] && late == 0 && asked == 0
    {
      now, this.rounding := start, rounding;
      results, late, asked := [], 0, 0;
    }

    /** A reading and part of a second, as a double and back. */
    method Sum(t: nat, d: nat) returns (r: nat)
      ensures t + d <= r + rounding && r <= t + d + rounding
    {
      var error: int :| 0 - rounding as int <= error <= rounding;
      r := if t + d + error < 0 then 0 else t + d + error;
    }

    method Read() returns (t: nat)
      modifies this`now
      ensures t == now >= old(now)
    {
      var d: nat :| d >= 0;
      now := now + d;
      t := now;
    }

    /** uperf_sleep: 0 after the whole time, or the reason it was cut short. */
    method Sleep(d: nat) returns (r: int)
      modifies this`now, this`asked
      ensures r >= 0 && now >= old(now) && (r == 0 ==> now >= old(now) + d) && asked == old(asked) + d
    {
      var e: nat :| e >= 0;
      r := *;
      if r <= 0 {
        r := 0;
        e := e + d;
      }
      now, asked := now + e, asked + d;
    }

    method Callback() returns (r: int)
      modifies this`now, this`results
      ensures now >= old(now) && results == old(results) + [r]
    {
      var d: nat :| d >= 0;
      now := now + d;
      r := *;
      results := results + [r];
    }

    /** The callbacks since `before` have all succeeded. */
    ghost predicate AllGood(before: seq<int>)
      reads this`results
    {
      before <= results && forall k :: |before| <= k < |results| ==> results[k] == 0
    }

    /** The last of them has failed with `r`, and the others have succeeded. */
    ghost predicate LastFailed(before: seq<int>, r: int)
      reads this`results
    {
      && before <= results && |before| < |results| && results[|results| - 1] == r != 0
      && forall k :: |before| <= k < |results| - 1 ==> results[k] == 0
    }

    /** rate_delta: rate/2 callbacks, but one if that is none; fewer only if one fails, or half a second is
        over before all are made.  Then it sleeps off what is left of the half second, unless that is not
        worth it.  The difference of the two times is unsigned or not depending on hrtime_t. */
    method RateDelta(rate: nat, unsigned: bool) returns (ret: int, calls: nat)
      requires rate > 0
      modifies this
      ensures now >= old(now) && calls <= Max(1, rate / INTERVALS_PER_SEC)
      ensures ret == 0 ==> now + 2000 + rounding >= old(now) + NSEC / INTERVALS_PER_SEC
      ensures calls == |results| - |old(results)|
      ensures AllGood(old(results)) || (LastFailed(old(results), ret) && late == old(late))
      ensures AllGood(old(results)) && late == old(late) ==> calls == Max(1, rate / INTERVALS_PER_SEC)
      ensures late == old(late) ||
              (late == old(late) + 1 && now + rounding > old(now) + NSEC / INTERVALS_PER_SEC &&
               calls < Max(1, rate / INTERVALS_PER_SEC))
      ensures AllGood(old(results)) && ret != 0 ==> asked > old(asked) + 2000
      ensures !unsigned ==> asked <= old(asked) + NSEC / INTERVALS_PER_SEC + rounding
    {
      var perLoop := rate / INTERVALS_PER_SEC;
      if perLoop == 0 {
        perLoop := 1;
      }
      var begin := Read();
      var localStop := Sum(begin, NSEC / INTERVALS_PER_SEC);
      calls := 0;
      while calls < perLoop
        invariant calls <= perLoop && now >= begin && begin >= old(now) && late == old(late) && asked == old(asked)
        invariant AllGood(old(results)) && calls == |results| - |old(results)|
      {
        var t := Read();
        if t / TIMESHIFT > localStop / TIMESHIFT {
          late := late + 1;
          break;
        }
        ret := Callback();
        calls := calls + 1;
        if ret != 0 {
          assert results[|results| - 1] == ret;
          return;
        }
      }
      ret := SleepOff(localStop, unsigned);
    }

    /** What is left until the time to stop, if it is more than a sleep takes anyway. */
    method SleepOff(localStop: nat, unsigned: bool) returns (ret: int)
      modifies this`now, this`asked
      ensures ret >= 0 && now >= old(now) && asked >= old(asked)
      ensures ret == 0 ==> now + 2000 >= localStop || localStop >= old(now) + TWO_64
      ensures ret != 0 ==> asked > old(asked) + 2000
      ensures !unsigned ==> asked <= old(asked) + Max(0, localStop - old(now))
    {
      var end := Read();
      var sleepTime := localStop as int - end;
      if unsigned {
        sleepTime := sleepTime % TWO_64;
      }
      if sleepTime > 2000 {
        ret := Sleep(sleepTime);
      } else {
        ret := 0;
      }
    }

    /** rate_execute_1s: two halves; at most twice the callbacks of a half, and exactly that if no callback
        fails and no half is over early; and on success a whole second has passed. */
    method RateExecute1s(rate: nat, unsigned: bool) returns (ret: int, calls: nat)
      requires rate > 0
      modifies this
      ensures calls <= 2 * Max(1, rate / 2) && now >= old(now)
      ensures ret == 0 ==> now >= old(now) + NSEC
      ensures calls == |results| - |old(results)|
      ensures AllGood(old(results)) || LastFailed(old(results), ret)
      ensures ret == 0 && late == old(late) ==> calls == 2 * Max(1, rate / 2)
    {
      var begin := Read();
      ret, calls := 0, 0;
      var i := 0;
      while i < INTERVALS_PER_SEC && ret == 0
        invariant i <= INTERVALS_PER_SEC && calls <= i * Max(1, rate / 2) && now >= begin && late >= old(late)
        invariant calls == |results| - |old(results)|
        invariant AllGood(old(results)) || (ret != 0 && LastFailed(old(results), ret))
        invariant ret == 0 && late == old(late) ==> calls == i * Max(1, rate / 2)
      {
        var n;
        ret, n := RateDelta(rate, unsigned);
        calls := calls + n;
        i := i + 1;
      }
      if ret == 0 {
        var end := Read();
        if end - begin < NSEC {
          ret := Sleep(NSEC - (end - begin));
        }
      }
    }
  }

  function Max(a: int, b: int): int { if a > b then a else b }
}

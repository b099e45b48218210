/** Exponential back-off with jitter (src/retry.rs). Durations are in nanoseconds. */
module Backoff {
  import opened Basics

  function Pow2(n: nat): (r: nat)
    ensures r > 0
  {
    if n == 0 then 1 else 2 * Pow2(n - 1)
  }

  /** `((n > 0) as u64).wrapping_shl(n - 1)`: the shift is taken modulo 64. */
  function Shifted(n: nat): nat {
    if n == 0 then 0 else Pow2((n - 1) % 64)
  }

  /** 2^63 seconds, the longest delay that a shift can make. */
  const LONGEST: nat := 0x8000_0000_0000_0000 * SECOND

  class ExponentialIter {
    var n: nat
    const max: nat
    const resetAfter: nat
    var last: Option<nat>

    /** `n` is a `u32`. */
    ghost predicate Valid()
      reads this
    {
      n <= U32_MAX
    }

    constructor (max: nat, resetAfter: nat)
      ensures Valid() && n == 0 && last == None && this.max == max && this.resetAfter == resetAfter
    {
      n, last := 0, None;
      this.max, this.resetAfter := max, resetAfter;
    }

    /** `checked` and `now` are the two readings of the monotonic clock. */
    method Next(checked: nat, now: nat) returns (delay: nat)
      requires Valid() && (last.Some? ==> last.value <= checked) && checked <= now
      modifies this`n, this`last
      ensures Valid() && last == Some(now)
      ensures (n, delay) == Step(old(n), max, old(last).Some? && checked - old(last).value > resetAfter)
    {
      if last.Some? && checked - last.value > resetAfter {
        n := 0;
      }
      last := Some(now);
      var v := if n > 0 then Pow2((n - 1) % 64) else 0;
      var next := v * SECOND;
      if next < max {
        n := if n < U32_MAX then n + 1 else U32_MAX;
        delay := next;
      } else {
        delay := max;
      }
    }
  }

  /** The state and the delay after one call. */
  function Step(n: nat, max: nat, reset: bool): (nat, nat) {
    var n1 := if reset then 0 else n;
    var next := Shifted(n1) * SECOND;
    if next < max then (if n1 < U32_MAX then n1 + 1 else U32_MAX, next) else (n1, max)
  }

  // ---- Closed form --------------------------------------------------------------------------------

  /** The state after a run of calls, each with or without a reset gap before it. */
  function After(max: nat, resets: seq<bool>): nat {
    if resets == [] then 0 else Step(After(max, resets[..|resets| - 1]), max, resets[|resets| - 1]).0
  }

  /** The delay of the last call of a run. */
  function Delay(max: nat, resets: seq<bool>): nat
    requires resets != []
  {
    Step(After(max, resets[..|resets| - 1]), max, resets[|resets| - 1]).1
  }

  /** How many calls came since the last reset gap, the call after the gap not counted. */
  function SinceReset(resets: seq<bool>): nat
    requires resets != []
  {
    var n := |resets| - 1;
    if n == 0 || resets[n] then 0 else SinceReset(resets[..n]) + 1
  }

  /** 0, 1, 2, 4, ... seconds, cut at the maximum. */
  function Expected(max: nat, k: nat): nat {
    Min(if k == 0 then 0 else Pow2(k - 1) * SECOND, max)
  }

  lemma {:induction false} Pow2Grows(a: nat, b: nat)
    requires a <= b
    ensures Pow2(a) <= Pow2(b)
    ensures a < b ==> Pow2(a) < Pow2(b)
  {
    if a < b {
      Pow2Grows(a, b - 1);
    }
  }

  lemma ShiftedSmall(n: nat)
    requires n <= 64
    ensures Shifted(n) == if n == 0 then 0 else Pow2(n - 1)
    ensures Shifted(n) * SECOND <= LONGEST && (n == 64 ==> Shifted(n) * SECOND == LONGEST)
  {
    if n > 0 {
      Pow2Grows(n - 1, 63);
      LongestShift();
    }
  }

  lemma {:induction false} Pow2Plus(a: nat, b: nat)
    ensures Pow2(a + b) == Pow2(a) * Pow2(b)
  {
    if b > 0 {
      Pow2Plus(a, b - 1);
    }
  }

  lemma LongestShift()
    ensures Pow2(63) == 0x8000_0000_0000_0000
  {
    assert Pow2(4) == 16;
    Pow2Plus(4, 4);
    Pow2Plus(8, 8);
    Pow2Plus(16, 16);
    Pow2Plus(32, 32);
    assert Pow2(64) == 2 * Pow2(63);
  }

  /** As long as the shift cannot wrap, the counter is the number of calls, or it has reached the maximum. */
  ghost predicate Counts(n: nat, max: nat, calls: nat) {
    n <= 64 && n <= calls && (n == calls || Shifted(n) * SECOND >= max)
  }

  lemma CountsStep(n: nat, max: nat, calls: nat)
    requires max <= LONGEST && Counts(n, max, calls)
    ensures Counts(Step(n, max, false).0, max, calls + 1)
    ensures Step(n, max, false).1 == Expected(max, calls)
  {
    ShiftedSmall(n);
    if 0 < n < calls {
      Pow2Grows(n - 1, calls - 1);
    }
  }

  lemma {:induction false} ClosedForm(max: nat, resets: seq<bool>)
    requires max <= LONGEST && resets != []
    ensures Delay(max, resets) == Expected(max, SinceReset(resets))
    ensures Counts(After(max, resets), max, SinceReset(resets) + 1)
  {
    var n := |resets| - 1;
    if n == 0 || resets[n] {
      CountsStep(0, max, 0);
    } else {
      ClosedForm(max, resets[..n]);
      CountsStep(After(max, resets[..n]), max, SinceReset(resets));
    }
  }

  function Falses(k: nat): (r: seq<bool>)
    ensures |r| == k && forall i :: 0 <= i < k ==> !r[i]
  {
    if k == 0 then [] else Falses(k - 1) + [false]
  }

  lemma {:induction false} FirstCalls(max: nat, k: nat)
    requires max > LONGEST && k <= 65
    ensures After(max, Falses(k)) == k
    ensures k > 0 ==> SinceReset(Falses(k)) == k - 1
  {
    if k > 0 {
      assert Falses(k)[..k - 1] == Falses(k - 1);
      FirstCalls(max, k - 1);
      ShiftedSmall(k - 1);
    }
  }

  /** Beyond 2^63 seconds the shift wraps: the delay after the longest one is one second again. */
  lemma Wraps(max: nat)
    requires max > LONGEST
    ensures Delay(max, Falses(66)) == SECOND && SinceReset(Falses(66)) == 65
    ensures Expected(max, 65) > SECOND
  {
    assert Falses(66)[..65] == Falses(65);
    FirstCalls(max, 65);
    assert Shifted(65) == Pow2(0) == 1;
    LongestShift();
    assert Pow2(64) == 2 * Pow2(63);
  }

  /**
   The delays follow the closed form, in every run and across every reset, exactly when the maximum is
   at most 2^63 seconds.
   */
  lemma ClosedFormIff(max: nat)
    ensures max <= LONGEST
       <==> forall resets: seq<bool> :: resets != [] ==> Delay(max, resets) == Expected(max, SinceReset(resets))
  {
    if max <= LONGEST {
      forall resets: seq<bool> | resets != []
        ensures Delay(max, resets) == Expected(max, SinceReset(resets))
      {
        ClosedForm(max, resets);
      }
    } else {
      Wraps(max);
      assert Falses(66) != [];
    }
  }

  lemma ExpectedGrows(max: nat, k: nat)
    ensures Expected(max, k) <= Expected(max, k + 1)
  {
    if k > 0 {
      Pow2Grows(k - 1, k);
    }
  }

  lemma DelayBounded(max: nat, resets: seq<bool>)
    requires resets != []
    ensures Delay(max, resets) <= max
  {
  }

  /** One more call without a reset gap before it. */
  lemma DelayGrows(max: nat, resets: seq<bool>)
    requires resets != [] && max <= LONGEST
    ensures Delay(max, resets) <= Delay(max, resets + [false])
  {
    var more := resets + [false];
    assert more[..|resets|] == resets;
    ClosedForm(max, resets);
    ClosedForm(max, more);
    ExpectedGrows(max, SinceReset(resets));
  }

  /**
   No delay ever exceeds the maximum; and from one call to the next, without a reset gap between them,
   delays never shrink, in all runs, exactly when the maximum is at most 2^63 seconds.
   */
  lemma DelaysGrowIff(max: nat)
    ensures forall resets: seq<bool> :: resets != [] ==> Delay(max, resets) <= max
    ensures max <= LONGEST
       <==> forall resets: seq<bool> :: resets != [] ==> Delay(max, resets) <= Delay(max, resets + [false])
  {
    forall resets: seq<bool> | resets != []
      ensures Delay(max, resets) <= max
    {
      DelayBounded(max, resets);
    }
    if max <= LONGEST {
      forall resets: seq<bool> | resets != []
        ensures Delay(max, resets) <= Delay(max, resets + [false])
      {
        DelayGrows(max, resets);
      }
    } else {
      Wraps(max);
      FirstCalls(max, 64);
      ShiftedSmall(64);
      assert Falses(65)[..64] == Falses(64);
      assert Delay(max, Falses(65)) == LONGEST;
      assert Falses(66) == Falses(65) + [false];
    }
  }

  // ---- Jitter -------------------------------------------------------------------------------------

  function CheckedMul(a: int, b: int): Option<int> {
    if -(I64_MAX as int) - 1 <= a * b <= I64_MAX as int then Some(a * b) else None
  }

  function SaturatingAddSigned(a: nat, b: int): nat {
    if a + b < 0 then 0 else Min(a + b, U64_MAX)
  }

  /** The delay in milliseconds, for an exponential delay of `e` ms and a random `r`. */
  function Jittered(e: nat, r: int): nat {
    var jitter := if e <= I64_MAX then
                    match CheckedMul(e / 100, r) case Some(j) => j case None => I64_MAX
                  else I64_MAX;
    SaturatingAddSigned(if e <= U64_MAX then e else U64_MAX, jitter)
  }

  /** `r` is drawn from `-jitter..jitter`, which is empty for a jitter of 0. */
  method NextRandom(exponential: nat, jitter: int, r: int) returns (delay: nat)
    requires 0 < jitter < 256 && -jitter <= r < jitter
    ensures delay == Jittered(exponential / MILLI, r) * MILLI
  {
    var millis := exponential / MILLI;
    var offset := I64_MAX;
    if millis <= I64_MAX {
      var product := CheckedMul(millis / 100, r);
      offset := if product.Some? then product.value else I64_MAX;
    }
    delay := SaturatingAddSigned(if millis <= U64_MAX then millis else U64_MAX, offset) * MILLI;
  }

  lemma JitterBounds(e: nat, jitter: int, r: int)
    requires 0 < jitter <= 100 && -jitter <= r < jitter && e <= I64_MAX
    ensures Jittered(e, r) == e + e / 100 * r
    ensures e - jitter * (e / 100) <= Jittered(e, r) <= e + (jitter - 1) * (e / 100)
  {
    var d := e / 100;
    assert 100 * d <= e;
    Scaled(d, -jitter, r);
    Scaled(d, r, jitter - 1);
    Scaled(d, -100, r);
    Scaled(d, r, 99);
    assert -(e as int) <= d * r <= e;
  }

  lemma Scaled(d: nat, a: int, b: int)
    requires a <= b
    ensures d * a <= d * b
  {
  }

  /** The jitter is a share of the delay exactly for the delays that fit an `i64` of milliseconds. */
  lemma JitterFitsIff(e: nat, jitter: int)
    requires 0 < jitter <= 100
    ensures e <= I64_MAX <==> forall r :: -jitter <= r < jitter ==> Jittered(e, r) == e + e / 100 * r
  {
    if e <= I64_MAX {
      forall r | -jitter <= r < jitter
        ensures Jittered(e, r) == e + e / 100 * r
      {
        JitterBounds(e, jitter, r);
      }
    } else {
      var r := if e <= U64_MAX then -1 else 0;
      assert Jittered(e, r) != e + e / 100 * r;
    }
  }

  /** `with_jitter` does not clamp its argument, and above 100 a delay can be cut off at zero. */
  lemma JitterClampIff(jitter: int)
    requires 0 < jitter < 256
    ensures jitter <= 100
       <==> forall e: nat, r :: e <= I64_MAX && -jitter <= r < jitter ==> Jittered(e, r) == e + e / 100 * r
  {
    if jitter <= 100 {
      forall e: nat, r | e <= I64_MAX && -jitter <= r < jitter
        ensures Jittered(e, r) == e + e / 100 * r
      {
        JitterBounds(e, jitter, r);
      }
    } else {
      assert Jittered(100, -101) == 0;
    }
  }
}

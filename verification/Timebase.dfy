/**
  The timebase search (oscilloscope.cpp, `findTimebase`): a doubling search and a bisection over
  the SDK, which answers for each timebase number its sample interval or a refusal.
*/
module Timebase {
  import opened Optional

  /** The SDK: the sample interval of a timebase number, in seconds, or None where it is refused. */
  type Sdk = nat -> Option<real>

  const LAST_FIRST: nat := 32
  const CEILING: nat := 0x4000_0000

  datatype Found = Found(timebase: nat, interval: real)

  predicate Valid(api: Sdk, timebase: nat) {
    api(timebase).Some?
  }

  predicate Fits(api: Sdk, target: real, timebase: nat) {
    api(timebase).Some? && api(timebase).value <= target
  }

  /** What the SDK documents: validity starts at some number and the interval never decreases. */
  ghost predicate Documented(api: Sdk) {
    && (forall t: nat, u: nat :: t <= u && Valid(api, t) ==> Valid(api, u))
    && (forall t: nat, u: nat :: t <= u && Valid(api, t) && Valid(api, u) ==> api(t).value <= api(u).value)
  }

  ghost predicate FirstValid(api: Sdk, first: nat) {
    Valid(api, first) && forall t: nat :: t < first ==> !Valid(api, t)
  }

  /** `n` doubled until it reaches the ceiling: no number at or above it is ever considered. */
  function Reach(n: nat): (r: nat)
    requires 0 < n < 2 * CEILING
    ensures CEILING <= r < 2 * CEILING && n <= r
    decreases 2 * CEILING - n
  {
    if n >= CEILING then n else Reach(2 * n)
  }

  function Pow2(n: nat): (p: nat)
    ensures p >= 1
  {
    if n == 0 then 1 else 2 * Pow2(n - 1)
  }

  lemma {:induction false} Pow2Monotone(m: nat, n: nat)
    requires m <= n
    ensures Pow2(m) <= Pow2(n)
  {
    if m < n {
      Pow2Monotone(m, n - 1);
    }
  }

  lemma CeilingIsPow2()
    ensures Pow2(30) == CEILING
  {
    assert Pow2(10) == 1024;
    assert Pow2(20) == 1024 * 1024 by {
      assert Pow2(15) == 32 * 1024;
    }
    assert Pow2(25) == 32 * 1024 * 1024;
  }

  /** The largest timebase below the reach whose interval fits; the first valid one if even that does not. */
  ghost predicate IsBest(api: Sdk, target: real, first: nat, found: Found)
    requires first <= LAST_FIRST
  {
    && Valid(api, found.timebase) && found.interval == api(found.timebase).value
    && (if Fits(api, target, first)
        then && Fits(api, target, found.timebase)
             && first <= found.timebase < Reach(first + 1)
             && (found.timebase + 1 < Reach(first + 1) ==> !Fits(api, target, found.timebase + 1))
        else found.timebase == first)
  }

  /** What the search may answer. */
  ghost predicate Chosen(api: Sdk, target: real, found: Found) {
    exists first: nat :: first <= LAST_FIRST && FirstValid(api, first) && IsBest(api, target, first, found)
  }

  /** Under what the SDK documents, that is one timebase. */
  lemma ChosenIsUnique(api: Sdk, target: real, a: Found, b: Found)
    requires Documented(api) && Chosen(api, target, a) && Chosen(api, target, b)
    ensures a == b
  {
    var first: nat :| first <= LAST_FIRST && FirstValid(api, first) && IsBest(api, target, first, a);
    var other: nat :| other <= LAST_FIRST && FirstValid(api, other) && IsBest(api, target, other, b);
    assert !(first < other) && !(other < first);
    if Fits(api, target, first) {
      BestIsCoarsestFitting(api, target, first, a, b.timebase);
      BestIsCoarsestFitting(api, target, first, b, a.timebase);
    }
  }

  method FindTimebase(api: Sdk, target: real) returns (r: Option<Found>, probes: nat)
    ensures r.None? <==> forall t: nat :: t <= LAST_FIRST ==> !Valid(api, t)
    ensures r.Some? ==> Chosen(api, target, r.value)
    ensures Documented(api) && r.Some? ==>
              forall t: nat :: t < CEILING && api(t).Some? && api(t).value <= target ==>
                t <= r.value.timebase && api(t).value <= r.value.interval <= target
    ensures Documented(api) && r.Some? && r.value.interval > target ==> forall t: nat :: Valid(api, t) ==>
              r.value.interval <= api(t).value
    ensures probes <= (LAST_FIRST + 1) + 30 + 30
  {
    var first := 0;
    var finest: Option<real> := None;
    while first <= LAST_FIRST
      invariant first <= LAST_FIRST + 1 && finest.None?
      invariant forall t: nat :: t < first ==> !Valid(api, t)
    {
      finest := api(first);
      if finest.Some? {
        break;
      }
      first := first + 1;
    }
    if finest.None? {
      return None, LAST_FIRST + 1;
    }
    assert FirstValid(api, first);
    if finest.value > target {
      assert IsBest(api, target, first, Found(first, finest.value));
      assert Documented(api) ==> forall t: nat :: Valid(api, t) ==> t >= first && finest.value <= api(t).value;
      assert Documented(api) ==> forall t: nat :: !Fits(api, target, t);
      return Some(Found(first, finest.value)), first + 1;
    }
    var good, goodTime, bad, grown := Grow(api, target, first, finest.value);
    var found, bisected := Bisect(api, target, good, goodTime, bad, Reach(first + 1));
    r, probes := Some(found), first + 1 + grown + bisected;
    assert IsBest(api, target, first, found);
    if Documented(api) {
      forall t: nat | t < CEILING && Fits(api, target, t) ensures t <= found.timebase && api(t).value <= found.interval {
        BestIsCoarsestFitting(api, target, first, found, t);
      }
    }
  }

  lemma Pow2Less(m: nat, n: nat)
    requires Pow2(m) < Pow2(n)
    ensures m < n
  {
    if n <= m {
      Pow2Monotone(n, m);
      assert false;
    }
  }

  /** Grow until it stops fitting: `good` fits, and `bad` does not or is beyond the ceiling. */
  method Grow(api: Sdk, target: real, first: nat, finest: real)
    returns (good: nat, goodTime: real, bad: nat, probes: nat)
    requires first <= LAST_FIRST && api(first) == Some(finest) && finest <= target
    ensures first <= good < bad <= Reach(first + 1)
    ensures Fits(api, target, good) && goodTime == api(good).value
    ensures bad < Reach(first + 1) ==> !Fits(api, target, bad)
    ensures bad - good <= Pow2(30) && probes <= 30
  {
    good, goodTime, bad, probes := first, finest, first + 1, 0;
    CeilingIsPow2();
    ghost var doublings: nat := 0;
    while bad < CEILING
      invariant first <= good < bad < 2 * CEILING && Reach(bad) == Reach(first + 1)
      invariant bad == good + 1 || bad == 2 * good
      invariant Fits(api, target, good) && goodTime == api(good).value
      invariant probes == doublings <= 30 && Pow2(doublings) <= bad
      decreases 2 * CEILING - bad
    {
      Pow2Less(doublings, 30);
      var interval := api(bad);
      probes := probes + 1;
      if interval.Some? && interval.value <= target {
        good, goodTime, bad := bad, interval.value, bad * 2;
        doublings := doublings + 1;
      } else {
        return;
      }
    }
  }

  method Bisect(api: Sdk, target: real, low: nat, lowTime: real, high: nat, ghost reach: nat)
    returns (found: Found, probes: nat)
    requires low < high <= reach && high - low <= Pow2(30)
    requires Fits(api, target, low) && lowTime == api(low).value
    requires high < reach ==> !Fits(api, target, high)
    ensures Fits(api, target, found.timebase)
    ensures low <= found.timebase < high && found.interval == api(found.timebase).value
    ensures found.timebase + 1 < reach ==> !Fits(api, target, found.timebase + 1)
    ensures probes <= 30
  {
    var good, goodTime, bad := low, lowTime, high;
    probes := 0;
    ghost var left: nat := 30;
    while bad - good > 1
      invariant low <= good < bad <= high
      invariant Fits(api, target, good) && goodTime == api(good).value
      invariant bad < reach ==> !Fits(api, target, bad)
      invariant bad - good <= Pow2(left) && probes + left == 30
      decreases bad - good
    {
      var middle := good + (bad - good) / 2;
      var interval := api(middle);
      probes := probes + 1;
      left := left - 1;
      if interval.Some? && interval.value <= target {
        good, goodTime := middle, interval.value;
      } else {
        bad := middle;
      }
    }
    found := Found(good, goodTime);
  }

  /** Under what the SDK documents, the search finds the coarsest interval that still fits. */
  lemma BestIsCoarsestFitting(api: Sdk, target: real, first: nat, found: Found, t: nat)
    requires Documented(api) && first <= LAST_FIRST && FirstValid(api, first) && IsBest(api, target, first, found)
    requires Fits(api, target, t) && t < Reach(first + 1)
    ensures t <= found.timebase && api(t).value <= found.interval <= target
  {
    assert Valid(api, first) && Valid(api, t);
    assert t >= first && Fits(api, target, first);
    var next: nat := found.timebase + 1;
    assert next <= t ==> Valid(api, next) && Fits(api, target, next);
  }
}

/**
  The two reconnection strategies of the connection pool: how many sessions one refill tries to
  open, and how the conservative strategy backs off after a refill that added nothing.
 */
module PoolStrategy {
  import opened Common

  /** One past the largest `unsigned`: the type of the delay multiplier. */
  const HALF_WORD: nat := 0x1_0000_0000

  const MAX_BACKOFF_MS: nat := 10000

  /** The steady clock ticks in nanoseconds. */
  const TICKS_PER_MS: nat := 1_000_000

  function Min(a: nat, b: nat): nat {
    if a <= b then a else b
  }

  /** `double(generator()) / generator.max()`: a rational in [0, 1]. */
  datatype Factor = Factor(num: nat, den: nat) {
    ghost predicate Valid() {
      0 < den && num <= den
    }

    /** Scaling an unsigned delay and truncating back to an integer. */
    function Scale(delay: nat): (r: nat)
      requires Valid()
      ensures r <= delay
    {
      ScaledWithin(delay, num, den);
      delay * num / den
    }
  }

  lemma MulMono(a: nat, b: nat, c: nat)
    requires a <= b
    ensures a * c <= b * c
  {
  }

  lemma ScaledWithin(delay: nat, num: nat, den: nat)
    requires 0 < den && num <= den
    ensures 0 <= delay * num / den <= delay
  {
    MulMono(num, den, delay);
    WholePart(delay * num, den);
    CancelPositive(den, delay * num / den, delay);
  }

  lemma WholePart(product: nat, den: nat)
    requires 0 < den
    ensures 0 <= product / den && den * (product / den) <= product
  {
  }

  datatype Strategy =
    | Greedy
    | Conservative(initialDelay: nat, multiplier: nat, currentDelay: nat, waitUntil: Time)
  {
    /** What the constructor and the parameter types guarantee, and what every refill keeps. */
    ghost predicate Valid() {
      Conservative? ==>
        && initialDelay < WORD
        && 1 <= multiplier < HALF_WORD
        && currentDelay <= MAX_BACKOFF_MS
    }

    /** Is the strategy still inside its back-off interval? */
    predicate Waits(now: Time) {
      Conservative? && now < waitUntil
    }
  }

  /** Number of extra adder threads, `(v + 2) / 3 - 1`, in unsigned arithmetic. */
  function Parallel(vacant: nat): (r: nat) {
    Wrap(Wrap(vacant + 2) / 3 - 1)
  }

  /** How many times one refill calls `new_session`. */
  function Attempts(st: Strategy, vacant: nat, now: Time): (r: nat) {
    match st
    case Greedy => vacant
    case Conservative(_, _, delay, _) =>
      if st.Waits(now) then 0
      else if delay == 0 then Parallel(vacant) + 1
      else 1
  }

  /** A third of the vacant places, rounded up. */
  function Third(vacant: nat): nat {
    (vacant + 2) / 3
  }

  /**
    The unsigned expression computes a third of the vacancy, rounded up, exactly when the vacancy is
    positive and not one of the two largest `size_t` values; otherwise it wraps to 2^64 attempts.
   */
  lemma ParallelIsExact(vacant: nat)
    requires vacant < WORD
    ensures 0 < vacant && vacant + 2 < WORD ==>
      && Parallel(vacant) + 1 == Third(vacant) && 1 <= Third(vacant) <= vacant
      && vacant <= 3 * (Parallel(vacant) + 1) < vacant + 3
    ensures vacant == 0 || WORD <= vacant + 2 ==> Parallel(vacant) + 1 == WORD
    ensures 1 <= Parallel(vacant) + 1 <= vacant <==> 0 < vacant && vacant + 2 < WORD
  {
  }

  /**
    Every refill of the watcher opens between one session and as many as are vacant: all of them, a third
    rounded up, or one after a failure; and none exactly before the wait is over.
   */
  lemma AttemptsFitVacancy(st: Strategy, vacant: nat, now: Time)
    requires 0 < vacant && vacant + 2 < WORD
    ensures Attempts(st, vacant, now) <= vacant
    ensures Attempts(st, vacant, now) == 0 <==> st.Conservative? && now < st.waitUntil
    ensures st.Greedy? ==> Attempts(st, vacant, now) == vacant
    ensures st.Conservative? && st.waitUntil <= now ==>
      if st.currentDelay == 0 then vacant <= 3 * Attempts(st, vacant, now) < vacant + 3
      else Attempts(st, vacant, now) == 1
  {
  }

  /**
    The documentation promises that a conservative refill adds up to two thirds of the vacant places.
    Every refill of the watcher keeps to that if and only if more than one place is vacant or it backs
    off: with a single vacant place it makes one attempt.
   */
  lemma DocumentedShareIff(st: Strategy, vacant: nat, now: Time)
    requires st.Conservative? && 0 < vacant && vacant + 2 < WORD
    ensures 3 * Attempts(st, vacant, now) <= 2 * vacant <==> 2 <= vacant || st.Waits(now)
  {
    ParallelIsExact(vacant);
  }

  // ------------------------------------------------------------------------------------------
  // Back-off

  /** The delay after one more failed refill. */
  function NextDelay(initial: nat, multiplier: nat, current: nat, f: Factor): (r: nat)
    requires f.Valid()
    ensures r <= MAX_BACKOFF_MS
  {
    Min(MAX_BACKOFF_MS, f.Scale(Wrap(if current == 0 then initial else current * multiplier)))
  }

  /**
    The end of a refill: `added` says whether some attempt handed its session to the pool. A success ends
    the delay; a failure makes the wait end as many milliseconds from now as the new delay has.
   */
  function Finish(st: Strategy, added: bool, now: Time, f: Factor): (r: Strategy)
    requires f.Valid()
    ensures st.Valid() ==> r.Valid()
    ensures st.Greedy? ==> r.Greedy?
    ensures st.Conservative? ==>
      && r.Conservative? && r.initialDelay == st.initialDelay && r.multiplier == st.multiplier
      && (added ==> r.currentDelay == 0 && r.waitUntil == st.waitUntil)
      && (!added ==> r.waitUntil == now + r.currentDelay * 1_000_000)
  {
    match st
    case Greedy => st
    case Conservative(initial, multiplier, delay, until) =>
      if added then st.(currentDelay := 0)
      else
        var next := NextDelay(initial, multiplier, delay, f);
        st.(currentDelay := next, waitUntil := now + next * TICKS_PER_MS)
  }

  lemma AfterSuccess(st: Strategy, now: Time, f: Factor)
    requires st.Conservative? && f.Valid()
    ensures Finish(st, true, now, f) == st.(currentDelay := 0)
  {
  }

  /** Growing a capped delay by the multiplier stays far below 2^64. */
  lemma DelayNeverWraps(multiplier: nat, current: nat)
    requires multiplier < HALF_WORD && current <= MAX_BACKOFF_MS
    ensures Wrap(current * multiplier) == current * multiplier
  {
    MulMono(current, MAX_BACKOFF_MS, multiplier);
  }

  /** Scaling and truncating reaches a whole number exactly if the product does. */
  lemma ScaleReaches(delay: nat, f: Factor, bound: nat)
    requires f.Valid()
    ensures bound <= f.Scale(delay) <==> bound * f.den <= delay * f.num
  {
    var product := delay * f.num;
    var q := product / f.den;
    assert product == f.den * q + product % f.den;
    if bound <= q {
      MulMono(bound, q, f.den);
      assert f.den * q == q * f.den;
    } else {
      MulMono(q + 1, bound, f.den);
      assert (q + 1) * f.den == f.den * q + f.den;
    }
  }

  lemma CancelPositive(c: nat, a: nat, b: nat)
    requires 0 < c
    ensures c * a <= c * b <==> a <= b
  {
    if a <= b {
      MulMono(a, b, c);
    } else {
      MulMono(b + 1, a, c);
      assert (b + 1) * c == c * b + c;
    }
  }

  /** The delay before scaling: the initial one, or the present one times the multiplier. */
  lemma FullDelay(st: Strategy)
    requires st.Conservative? && st.Valid()
    ensures Wrap(if st.currentDelay == 0 then st.initialDelay else st.currentDelay * st.multiplier)
         == if st.currentDelay == 0 then st.initialDelay else st.currentDelay * st.multiplier
  {
    DelayNeverWraps(st.multiplier, st.currentDelay);
  }

  /**
    The delay a failed refill leaves, exactly: it reaches d milliseconds if and only if d is within ten
    seconds and the random factor times the full delay reaches d.
   */
  lemma DelayReaches(st: Strategy, now: Time, f: Factor, d: nat)
    requires st.Conservative? && st.Valid() && f.Valid()
    ensures var full := if st.currentDelay == 0 then st.initialDelay else st.currentDelay * st.multiplier;
      d <= Finish(st, false, now, f).currentDelay <==> d <= 10_000 && d * f.den <= full * f.num
  {
    FullDelay(st);
    var full := if st.currentDelay == 0 then st.initialDelay else st.currentDelay * st.multiplier;
    ScaleReaches(full, f, d);
  }

  /**
    The documentation promises that each further failure multiplies the delay by a number in
    [1, multiplier). The delay does not shrink if and only if the random factor is at least
    1 / multiplier, and it stays below the full multiple if and only if the factor is below one or the
    cap cuts it off.
   */
  lemma DocumentedGrowthIff(initial: nat, multiplier: nat, current: nat, f: Factor)
    requires f.Valid() && 1 <= multiplier < HALF_WORD && 0 < current <= MAX_BACKOFF_MS
    ensures current <= NextDelay(initial, multiplier, current, f) <==> f.den <= multiplier * f.num
    ensures NextDelay(initial, multiplier, current, f) < current * multiplier <==>
      f.num < f.den || MAX_BACKOFF_MS < current * multiplier
  {
    DelayNeverWraps(multiplier, current);
    var full := current * multiplier;
    hide Wrap;
    assert 1 <= full by {
      MulMono(1, current, multiplier);
    }
    ScaleReaches(full, f, current);
    assert full * f.num == current * (multiplier * f.num);
    CancelPositive(current, f.den, multiplier * f.num);
    ScaleReaches(full, f, full);
    CancelPositive(full, f.den, f.num);
  }

  /** The documentation promises that the delay starts at the initial one. */
  lemma DocumentedStartIff(initial: nat, multiplier: nat, f: Factor)
    requires f.Valid() && initial < WORD
    ensures NextDelay(initial, multiplier, 0, f) == initial <==>
      initial == 0 || (f.num == f.den && initial <= MAX_BACKOFF_MS)
  {
    assert Wrap(initial) == initial;
    hide Wrap;
    ScaleReaches(initial, f, initial);
    if 0 < initial {
      CancelPositive(initial, f.den, f.num);
    }
  }

  /** A failed refill leaves no delay at all exactly if the factor scales the full delay below one. */
  lemma DelayVanishesIff(initial: nat, multiplier: nat, current: nat, f: Factor)
    requires f.Valid()
    ensures NextDelay(initial, multiplier, current, f) == 0 <==>
      Wrap(if current == 0 then initial else current * multiplier) * f.num < f.den
    ensures NextDelay(initial, multiplier, current, Factor(0, 1)) == 0
  {
    ScaleReaches(Wrap(if current == 0 then initial else current * multiplier), f, 1);
  }

  /** A refill that added nothing: when it ended and the random factor it drew. */
  datatype Failure = Failure(at: Time, f: Factor)

  /** The strategy after consecutive failed refills. */
  function AfterFailures(st: Strategy, failures: seq<Failure>): (r: Strategy)
    requires forall x :: x in failures ==> x.f.Valid()
    ensures st.Valid() ==> r.Valid()
    ensures st.Conservative? ==>
      r.Conservative? && r.initialDelay == st.initialDelay && r.multiplier == st.multiplier
  {
    if failures == [] then st
    else
      var n := |failures| - 1;
      Finish(AfterFailures(st, failures[..n]), false, failures[n].at, failures[n].f)
  }

  function Pow(base: nat, exp: nat): nat {
    if exp == 0 then 1 else base * Pow(base, exp - 1)
  }

  lemma {:induction false} PowPositive(base: nat, exp: nat)
    requires 1 <= base
    ensures 1 <= Pow(base, exp)
  {
    if exp != 0 {
      PowPositive(base, exp - 1);
      assert 1 <= base * Pow(base, exp - 1);
    }
  }

  lemma OneFailure(st: Strategy, x: Failure)
    requires st.Conservative? && st.Valid() && x.f.Valid()
    ensures var r := Finish(st, false, x.at, x.f);
      && r.Conservative? && r.currentDelay <= MAX_BACKOFF_MS
      && r.currentDelay <= (if st.currentDelay == 0 then st.initialDelay else st.currentDelay * st.multiplier)
      && r.waitUntil == x.at + r.currentDelay * TICKS_PER_MS
  {
    DelayNeverWraps(st.multiplier, st.currentDelay);
  }

  /**
    After k consecutive failures from no delay, the delay is at most initial * multiplier^(k-1) and at
    most ten seconds, whatever the random factors were, and the next attempt is at most that far off.
   */
  lemma {:induction false} BackoffBound(st: Strategy, failures: seq<Failure>)
    requires st.Conservative? && st.Valid() && st.currentDelay == 0 && failures != []
    requires forall x :: x in failures ==> x.f.Valid()
    ensures var r := AfterFailures(st, failures);
      && r.currentDelay <= Min(MAX_BACKOFF_MS, st.initialDelay * Pow(st.multiplier, |failures| - 1))
      && r.waitUntil == failures[|failures| - 1].at + r.currentDelay * TICKS_PER_MS
  {
    hide Finish, Pow;
    var k := |failures| - 1;
    var before := AfterFailures(st, failures[..k]);
    OneFailure(before, failures[k]);
    PowPositive(st.multiplier, k);
    MulMono(1, Pow(st.multiplier, k), st.initialDelay);
    if before.currentDelay != 0 {
      assert failures[..k] != [];
      BackoffBound(st, failures[..k]);
      GrowBound(st.initialDelay, st.multiplier, k, before.currentDelay);
    }
  }

  lemma GrowBound(initial: nat, multiplier: nat, k: nat, before: nat)
    requires 1 <= k && before <= initial * Pow(multiplier, k - 1)
    ensures before * multiplier <= initial * Pow(multiplier, k)
  {
    var p := Pow(multiplier, k - 1);
    MulMono(before, initial * p, multiplier);
    assert initial * p * multiplier == initial * (multiplier * p);
  }

  // ------------------------------------------------------------------------------------------
  // Convergence of the conservative fill

  /** The vacancy left after `rounds` conservative refills that all succeed. */
  function VacancyAfter(vacant: nat, rounds: nat): nat {
    if rounds == 0 then vacant
    else var v := VacancyAfter(vacant, rounds - 1); v - Third(v)
  }

  /** The vacancy decays geometrically: 3^k v_k <= 2^k v_0. */
  lemma {:induction false} VacancyDecays(vacant: nat, rounds: nat)
    ensures Pow(3, rounds) * VacancyAfter(vacant, rounds) <= Pow(2, rounds) * vacant
  {
    if rounds != 0 {
      VacancyDecays(vacant, rounds - 1);
      DecayStep(Pow(3, rounds - 1), Pow(2, rounds - 1), VacancyAfter(vacant, rounds - 1), vacant);
    }
  }

  lemma DecayStep(p: nat, q: nat, v: nat, vacant: nat)
    requires p * v <= q * vacant
    ensures 3 * p * (v - Third(v)) <= 2 * q * vacant
  {
    var w := v - Third(v);
    MulMono(3 * w, 2 * v, p);
    assert 3 * p * w == 3 * w * p;
    assert 2 * v * p == 2 * (p * v);
    assert 2 * q * vacant == 2 * (q * vacant);
  }

  /** It strictly decreases until it is zero, which takes at most `vacant` rounds. */
  lemma {:induction false} VacancyVanishes(vacant: nat, rounds: nat)
    ensures VacancyAfter(vacant, rounds) == 0
         || VacancyAfter(vacant, rounds + 1) < VacancyAfter(vacant, rounds) <= vacant - rounds
    ensures vacant <= rounds ==> VacancyAfter(vacant, rounds) == 0
  {
    if rounds != 0 {
      VacancyVanishes(vacant, rounds - 1);
    }
  }
}

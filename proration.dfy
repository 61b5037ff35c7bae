/**
 * The arithmetic of plans.calculateProratedUpgrade: the days left in the current activation
 * window and the days in the whole window (both rounded up, as `Math.ceil` does), and the price
 * difference between the new plan and the subscription scaled by their ratio, rounded to cents as
 * `toFixed(2)` does.
 */
module Proration {

  /** 1000 * 60 * 60 * 24 */
  const MillisPerDay: int := 86400000

  /** `Math.ceil(a / b)` for b > 0. Dafny's `/` floors when b > 0, so ceil(a/b) = -((-a)/b). */
  function CeilDiv(a: int, b: int): (q: int)
    requires b > 0
    ensures (q - 1) * b < a <= q * b
  {
    -((-a) / b)
  }

  /** Rounding up is monotone. */
  lemma CeilDivMonotone(a: int, c: int, b: int)
    requires b > 0 && a <= c
    ensures CeilDiv(a, b) <= CeilDiv(c, b)
  {
  }

  function Abs(x: int): nat {
    if x < 0 then -x else x
  }

  /** Floor division by a positive divisor brackets the dividend. */
  lemma FloorDivBounds(x: int, y: int)
    requires y > 0
    ensures (x / y) * y <= x < (x / y + 1) * y
  {
  }

  /** |a|/|b| + 1/2 rounded down: the largest m with m * 2b <= 2a + b. */
  function HalfUpMagnitude(a: nat, b: nat): (m: nat)
    requires b > 0
    ensures m * (2 * b) <= 2 * a + b < (m + 1) * (2 * b)
  {
    FloorDivBounds(2 * a + b, 2 * b);
    (2 * a + b) / (2 * b)
  }

  /**
   * The whole number of cents nearest to n / d, halves rounded away from zero: `toFixed(2)` on
   * an exact amount (it rounds the magnitude and takes the larger candidate on a tie).
   */
  function RoundHalfAway(n: int, d: int): (r: int)
    requires d != 0
    ensures Abs(r) * (2 * Abs(d)) <= 2 * Abs(n) + Abs(d) < (Abs(r) + 1) * (2 * Abs(d))
    ensures (n < 0) == (d < 0) ==> r >= 0
    ensures (n < 0) != (d < 0) ==> r <= 0
  {
    var m: int := HalfUpMagnitude(Abs(n), Abs(d));
    if (n < 0) != (d < 0) then -m else m
  }

  /** Multiplying by a non-negative factor keeps an order. */
  lemma MulMonotone(a: int, b: int, c: int)
    requires a >= 0 && b <= c
    ensures a * b <= a * c
  {
    assert a * c - a * b == a * (c - b);
  }

  /** A non-negative amount of at most k whole cents per unit rounds to between 0 and k. */
  lemma RoundWithin(n: int, d: int, k: int)
    requires d > 0 && 0 <= n <= k * d
    ensures 0 <= RoundHalfAway(n, d) <= k
  {
    var m := RoundHalfAway(n, d);
    if m > k {
      MulMonotone(2 * d, k + 1, m);
      assert false;
    }
  }

  /** A quotient of a non-negative amount of at most k per unit lies between 0 and k. */
  lemma RealQuotientWithin(n: int, d: int, k: int)
    requires d > 0 && 0 <= n <= k * d
    ensures 0.0 <= n as real / d as real <= k as real
  {
    var x := n as real / d as real;
    assert x * d as real == n as real;
  }

  /** Rounding is symmetric about zero. */
  lemma RoundHalfAwayNegate(n: int, d: int)
    requires d > 0
    ensures RoundHalfAway(-n, d) == -RoundHalfAway(n, d)
  {
    assert Abs(-n) == Abs(n);
  }

  /**
   * A non-negative price difference scaled by a ratio rem/all between 0 and 1 lies between 0 and
   * that difference, exactly and once rounded to cents.
   */
  lemma ScaledWithinUp(diff: int, rem: int, all: int)
    requires diff >= 0 && 0 <= rem <= all && all > 0
    ensures 0.0 <= (diff * rem) as real / all as real <= diff as real
    ensures 0 <= RoundHalfAway(diff * rem, all) <= diff
  {
    MulMonotone(diff, rem, all);
    MulMonotone(diff, 0, rem);
    RealQuotientWithin(diff * rem, all, diff);
    RoundWithin(diff * rem, all, diff);
  }

  /** The same for a negative difference, between the difference and 0. */
  lemma ScaledWithinDown(diff: int, rem: int, all: int)
    requires diff < 0 && 0 <= rem <= all && all > 0
    ensures diff as real <= (diff * rem) as real / all as real <= 0.0
    ensures diff <= RoundHalfAway(diff * rem, all) <= 0
  {
    var n := (-diff) * rem;
    ScaledWithinUp(-diff, rem, all);
    assert diff * rem == -n;
    assert (-n) as real / all as real == -(n as real / all as real);
    RoundHalfAwayNegate(n, all);
  }

  /**
   * A price difference scaled by a ratio rem/all between 0 and 1 lies between 0 and that
   * difference, exactly and once rounded to cents.
   */
  lemma ScaledWithin(diff: int, rem: int, all: int)
    requires 0 <= rem <= all && all > 0
    ensures var x := (diff * rem) as real / all as real;
            if diff >= 0 then 0.0 <= x <= diff as real else diff as real <= x <= 0.0
    ensures var c := RoundHalfAway(diff * rem, all);
            if diff >= 0 then 0 <= c <= diff else diff <= c <= 0
  {
    if diff >= 0 {
      ScaledWithinUp(diff, rem, all);
    } else {
      ScaledWithinDown(diff, rem, all);
    }
  }

  datatype Amount = Cents(value: int) | NotFinite

  /**
   * What the upgrade quote holds. `NotFinite` stands for the Infinity or NaN that JavaScript
   * produces when the window is zero days long.
   */
  datatype Quote = Quote(proratedPrice: Amount, remainingDays: int)

  function RemainingDays(end: int, now: int): int {
    CeilDiv(end - now, MillisPerDay)
  }

  function AllDays(start: int, end: int): int {
    CeilDiv(end - start, MillisPerDay)
  }

  /**
   * The quote for moving a subscription bought at `currentPrice` to a plan priced `newPrice`. It
   * is not a finite amount exactly when the window rounds to zero days.
   */
  function Prorate(currentPrice: int, newPrice: int, start: int, end: int, now: int): (q: Quote)
    ensures q.remainingDays == RemainingDays(end, now)
    ensures q.proratedPrice.NotFinite? <==> AllDays(start, end) == 0
  {
    var remaining := RemainingDays(end, now);
    var all := AllDays(start, end);
    if all == 0 then Quote(NotFinite, remaining)
    else Quote(Cents(RoundHalfAway((newPrice - currentPrice) * remaining, all)), remaining)
  }

  /** The prorated amount before rounding, in cents. */
  function Unrounded(currentPrice: int, newPrice: int, start: int, end: int, now: int): real
    requires AllDays(start, end) != 0
  {
    ((newPrice - currentPrice) * RemainingDays(end, now)) as real / AllDays(start, end) as real
  }

  /** Inside a window of positive length, the days left lie between 0 and the days of the window. */
  lemma DaysWithinWindow(start: int, end: int, now: int)
    requires start <= now <= end && AllDays(start, end) > 0
    ensures 0 <= RemainingDays(end, now) <= AllDays(start, end)
  {
    CeilDivMonotone(0, end - now, MillisPerDay);
    CeilDivMonotone(end - now, end - start, MillisPerDay);
  }

  /**
   * Inside the window, the prorated amount lies between 0 and the price difference, before and
   * after rounding, whichever the sign of the difference.
   */
  lemma ProratedWithinDifference(currentPrice: int, newPrice: int, start: int, end: int, now: int)
    requires start <= now <= end && AllDays(start, end) > 0
    ensures var diff, x := newPrice - currentPrice, Unrounded(currentPrice, newPrice, start, end, now);
            if diff >= 0 then 0.0 <= x <= diff as real else diff as real <= x <= 0.0
    ensures var diff, q := newPrice - currentPrice, Prorate(currentPrice, newPrice, start, end, now);
            q.proratedPrice.Cents? &&
            if diff >= 0 then 0 <= q.proratedPrice.value <= diff else diff <= q.proratedPrice.value <= 0
  {
    DaysWithinWindow(start, end, now);
    ScaledWithin(newPrice - currentPrice, RemainingDays(end, now), AllDays(start, end));
  }

  /** Moving to a plan of the same price costs nothing. */
  lemma SamePriceCostsNothing(price: int, start: int, end: int, now: int)
    requires AllDays(start, end) != 0
    ensures Prorate(price, price, start, end, now).proratedPrice == Cents(0)
  {
  }

  /** Upgrading to a dearer plan before the window ends costs a positive amount (before rounding). */
  lemma UpgradeCostsSomething(currentPrice: int, newPrice: int, start: int, end: int, now: int)
    requires newPrice > currentPrice && start <= now < end
    ensures AllDays(start, end) > 0
    ensures Unrounded(currentPrice, newPrice, start, end, now) > 0.0
  {
    CeilDivMonotone(1, end - now, MillisPerDay);
    CeilDivMonotone(end - now, end - start, MillisPerDay);
    PositiveQuotient(newPrice - currentPrice, RemainingDays(end, now), AllDays(start, end));
  }

  lemma PositiveQuotient(diff: int, rem: int, all: int)
    requires diff > 0 && rem > 0 && all > 0
    ensures (diff * rem) as real / all as real > 0.0
  {
    assert diff * rem > 0;
  }

  /**
   * The worked example: a subscription bought at 400.00, moved to a 900.00 plan at
   * 2024-05-20T20:55Z, inside the window 2024-05-05T20:55Z to 2024-06-05T20:55Z: 16 of 31 days
   * remain, and 500.00 * 16 / 31 = 258.06.
   */
  lemma WorkedExample()
    ensures AllDays(1714942500000, 1717620900000) == 31
    ensures Prorate(40000, 90000, 1714942500000, 1717620900000, 1716238500000) == Quote(Cents(25806), 16)
  {
  }
}

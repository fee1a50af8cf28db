/**
 Reconnect delays (src/client-runtime.js). The random factor is a parameter; delays are
 exact reals, so the rounding of doubles is not part of this model.
 */
module Backoff {

  function Pow22(k: nat): real {
    if k == 0 then 1.0 else 2.2 * Pow22(k - 1)
  }

  function Capped(base: real, maxDelay: real, attempt: nat): real {
    var grown := base * Pow22(attempt);
    if grown <= maxDelay then grown else maxDelay
  }

  function NextReconnectDelay(base: real, maxDelay: real, attempt: nat, randFactor: real): real {
    Capped(base, maxDelay, attempt) * (0.75 + randFactor * 0.5)
  }

  /** A drain delay lies in the advertised window, whatever the advisory and the die say. */
  function DispersedReconnectDelay(afterMs: real, windowMs: real, randFactor: real): (d: real)
    ensures d >= 0.0
    ensures afterMs >= 0.0 && windowMs > 0.0 ==> afterMs <= d < afterMs + windowMs
    ensures windowMs <= 0.0 ==> d == if afterMs > 0.0 then afterMs else 0.0
  {
    var floor := if afterMs > 0.0 then afterMs else 0.0;
    var width := if windowMs > 0.0 then windowMs else 0.0;
    var r := if 0.0 <= randFactor < 1.0 then randFactor else 0.0;
    floor + Scaled(width, r)
  }

  // A part of a window.
  function Scaled(width: real, f: real): (part: real)
    requires width >= 0.0 && 0.0 <= f < 1.0
    ensures 0.0 <= part <= width && (width > 0.0 ==> part < width)
  {
    MulOrdered(width, 0.0, f);
    MulOrdered(width, f, 1.0);
    width * f
  }

  lemma MulOrdered(b: real, x: real, y: real)
    requires b >= 0.0
    ensures x <= y ==> b * x <= b * y
    ensures b > 0.0 && x < y ==> b * x < b * y
  {
    if x <= y { assert b * (y - x) >= 0.0; }
    if b > 0.0 && x < y { assert b * (y - x) > 0.0; }
  }

  /** The jittered delay stays within a quarter of the capped one, exactly when that is positive. */
  lemma DelayInBand(base: real, maxDelay: real, attempt: nat, r: real)
    requires 0.0 <= r < 1.0
    ensures
      var c := Capped(base, maxDelay, attempt);
      var d := NextReconnectDelay(base, maxDelay, attempt, r);
      && (c == 0.0 ==> d == 0.0)
      && ((0.75 * c <= d && d < 1.25 * c) <==> c > 0.0)
  {
    var c := Capped(base, maxDelay, attempt);
    var d := NextReconnectDelay(base, maxDelay, attempt, r);
    assert d == 0.75 * c + 0.5 * (c * r);
    if c > 0.0 {
      MulOrdered(c, 0.0, r);
      MulOrdered(c, r, 1.0);
    } else {
      MulOrdered(-c, 0.0, r);
      MulOrdered(-c, r, 1.0);
      assert -c * r == -(c * r);
    }
  }

  /** And every delay of that band is some roll of the die. */
  lemma DelayCoversBand(base: real, maxDelay: real, attempt: nat, d: real)
    requires
      var c := Capped(base, maxDelay, attempt);
      0.75 * c <= d < 1.25 * c
    ensures exists r | 0.0 <= r < 1.0 :: NextReconnectDelay(base, maxDelay, attempt, r) == d
  {
    var c := Capped(base, maxDelay, attempt);
    assert c > 0.0;
    var r := 2.0 * (d / c) - 1.5;
    assert c * (d / c) == d;
    assert c * (0.75 + r * 0.5) == d;
    if r < 0.0 { MulOrdered(c, d / c, 0.75); }
    if r >= 1.0 { MulOrdered(c, 1.25, d / c); }
    assert NextReconnectDelay(base, maxDelay, attempt, r) == d;
  }

  /** The curve: it starts at the base, each step is 2.2 times the last, and the cap cuts it off. */
  lemma CurveSteps(base: real, maxDelay: real, k: nat)
    requires base >= 0.0 && maxDelay >= 0.0
    ensures Capped(base, maxDelay, 0) == if base <= maxDelay then base else maxDelay
    ensures
      var next := 2.2 * Capped(base, maxDelay, k);
      Capped(base, maxDelay, k + 1) == if next <= maxDelay then next else maxDelay
  {
    var grown := base * Pow22(k);
    assert base * Pow22(k + 1) == 2.2 * grown;
  }

  lemma {:induction false} Pow22Grows(j: nat, k: nat)
    requires j <= k
    ensures 1.0 <= Pow22(j) <= Pow22(k)
    decreases k
  {
    if k == 0 {
    } else if j == k {
      Pow22Grows(0, k - 1);
    } else {
      Pow22Grows(j, k - 1);
    }
  }

  /** Backing off further never shortens the capped delay, and it never passes the cap. */
  lemma BackoffMonotone(base: real, maxDelay: real, j: nat, k: nat)
    requires base >= 0.0 && j <= k
    ensures Capped(base, maxDelay, j) <= Capped(base, maxDelay, k) <= maxDelay
  {
    Pow22Grows(j, k);
    var x, y := Pow22(j), Pow22(k);
    MulOrdered(base, x, y);
    assert Capped(base, maxDelay, j) == if base * x <= maxDelay then base * x else maxDelay;
    assert Capped(base, maxDelay, k) == if base * y <= maxDelay then base * y else maxDelay;
  }

  /** The default curve (3 s base, 5 min cap) reaches its cap at attempt 6 and not before. */
  lemma DefaultCurve(k: nat)
    ensures Capped(3000.0, 300000.0, k) == 300000.0 <==> k >= 6
  {
    assert Pow22(1) == 2.2;
    assert Pow22(2) == 4.84;
    assert Pow22(3) == 10.648;
    assert Pow22(4) == 23.4256;
    assert Pow22(5) == 51.53632;
    assert Pow22(6) == 113.379904;
    if k >= 6 {
      BackoffMonotone(3000.0, 300000.0, 6, k);
    } else {
      BackoffMonotone(3000.0, 300000.0, k, 5);
    }
  }

  /** Every delay of an advertised window is some roll of the die: the jitter covers the window. */
  lemma DispersedCoversWindow(afterMs: real, windowMs: real, d: real)
    requires afterMs >= 0.0 && windowMs > 0.0 && afterMs <= d < afterMs + windowMs
    ensures exists r | 0.0 <= r < 1.0 :: DispersedReconnectDelay(afterMs, windowMs, r) == d
  {
    var r := (d - afterMs) / windowMs;
    assert r * windowMs == d - afterMs;
    if r < 0.0 { assert r * windowMs < 0.0; }
    if r >= 1.0 { MulOrdered(windowMs, 1.0, r); }
    assert DispersedReconnectDelay(afterMs, windowMs, r) == d;
  }
}

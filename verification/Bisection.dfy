/** Binary search for a large fitting value under a fit test that need not be monotone. */
module Bisection {
  function Midpoint(low: nat, high: nat): (m: nat)
    requires low < high
    ensures low < m <= high
  {
    low + (high - low + 1) / 2
  }

  /** Where the search ends: a fitting midpoint becomes the lower end, any other ends the upper half. */
  ghost function Bisect(fits: nat -> bool, low: nat, high: nat): (r: nat)
    requires low <= high
    ensures low <= r <= high
    decreases high - low
  {
    if low == high then low
    else
      var m := Midpoint(low, high);
      if fits(m) then Bisect(fits, m, high) else Bisect(fits, low, m - 1)
  }

  lemma BisectStep(fits: nat -> bool, low: nat, high: nat)
    requires low <= high
    ensures low == high ==> Bisect(fits, low, high) == low
    ensures low < high ==>
      var m := low + (high - low + 1) / 2;
      Bisect(fits, low, high) == if fits(m) then Bisect(fits, m, high) else Bisect(fits, low, m - 1)
  {
  }

  /** The midpoints a search probes on its way to `target`; they do not depend on the fit test. */
  ghost function Probes(low: nat, high: nat, target: nat): set<nat>
    requires low <= high
    decreases high - low
  {
    if low == high then {}
    else
      var m := Midpoint(low, high);
      {m} + if target >= m then Probes(m, high, target) else Probes(low, m - 1, target)
  }

  ghost predicate IsGreatestFit(fits: nat -> bool, high: nat, g: nat) {
    g <= high && fits(g) && forall s :: g < s <= high ==> !fits(s)
  }

  /** Every midpoint at or below the target on the way to it fits. */
  ghost predicate LowerProbesFit(fits: nat -> bool, low: nat, high: nat, target: nat)
    requires low <= high
  {
    forall m :: m in Probes(low, high, target) && m <= target ==> fits(m)
  }

  /** The search finds the greatest fitting value exactly when the midpoints below it on the way fit. */
  lemma {:induction false} BisectIsGreatestIff(fits: nat -> bool, low: nat, high: nat, g: nat)
    requires low <= g && IsGreatestFit(fits, high, g)
    ensures Bisect(fits, low, high) == g <==> LowerProbesFit(fits, low, high, g)
    decreases high - low
  {
    if low < high {
      var m := Midpoint(low, high);
      var probes := Probes(low, high, g);
      if g < m {
        assert probes == {m} + Probes(low, m - 1, g);
        BisectIsGreatestIff(fits, low, m - 1, g);
      } else {
        assert probes == {m} + Probes(m, high, g);
        if fits(m) {
          BisectIsGreatestIff(fits, m, high, g);
        } else {
          assert m in probes;
        }
      }
    }
  }

  /** Whatever the fit test, the search ends at a fitting value whose successor does not fit. */
  lemma {:induction false} BisectIsEdge(fits: nat -> bool, low: nat, high: nat)
    requires low <= high && fits(low)
    ensures var r := Bisect(fits, low, high); fits(r) && (r < high ==> !fits(r + 1))
    decreases high - low
  {
    if low < high {
      var m := Midpoint(low, high);
      if fits(m) {
        BisectIsEdge(fits, m, high);
      } else {
        BisectIsEdge(fits, low, m - 1);
      }
    }
  }

  lemma {:induction false} BisectOverFitting(fits: nat -> bool, low: nat, high: nat)
    requires low <= high && forall s :: low <= s <= high ==> fits(s)
    ensures Bisect(fits, low, high) == high
    decreases high - low
  {
    if low < high { BisectOverFitting(fits, Midpoint(low, high), high); }
  }
}

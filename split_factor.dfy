/** The split factor `math.ceil(math.sqrt(est / max))`, stated over the
    integers: the least `f` whose square grid brings the estimated tile count
    per cell within the maximum. */
module SplitFactor {

  /** A grid of `f` by `f` cells fits `est` tiles when each cell gets at most `max`. */
  predicate Fits(f: nat, est: nat, max: nat) {
    f * f * max >= est
  }

  lemma FitsMonotone(f: nat, g: nat, est: nat, max: nat)
    requires f <= g && Fits(f, est, max)
    ensures Fits(g, est, max)
  {
    assert f * f <= g * g by {
      assert f * f <= f * g <= g * g;
    }
    assert f * f * max <= g * g * max;
  }

  /** The least fitting factor, searched upwards from `f`. */
  function LeastFitFrom(est: nat, max: nat, f: nat): (r: nat)
    requires max > 0
    requires forall g: nat :: g < f ==> !Fits(g, est, max)
    ensures f <= r && Fits(r, est, max)
    ensures forall g: nat :: g < r ==> !Fits(g, est, max)
    decreases est - f
  {
    if Fits(f, est, max) then f
    else
      UnfitBelowEst(f, est, max);
      LeastFitFrom(est, max, f + 1)
  }

  /** A factor that does not fit is smaller than the estimate, which bounds
      the upward search. */
  lemma UnfitBelowEst(f: nat, est: nat, max: nat)
    requires max > 0
    ensures !Fits(f, est, max) ==> f < est
  {
    if f > 0 {
      assert f * f >= f;
      assert f * f * max >= f * f;
    }
  }

  /** `math.ceil(math.sqrt(est / max))` over exact arithmetic, for `max > 0`. */
  function Factor(est: nat, max: nat): (f: nat)
    requires max > 0
    ensures Fits(f, est, max)
    ensures forall g: nat :: g < f ==> !Fits(g, est, max)
  {
    LeastFitFrom(est, max, 0)
  }

  /** With the factor chosen, each of the `f * f` cells is estimated to hold
      at most the maximum tile count. */
  lemma FactorWithinBudget(est: nat, max: nat)
    requires max > 0 && est > 0
    ensures var f := Factor(est, max);
      f >= 1 && (est as real) / ((f * f) as real) <= max as real
  {
    var f := Factor(est, max);
    var sq := (f * f) as real;
    assert sq > 0.0;
    assert est as real <= sq * max as real;
  }

  /** An overflow (`est > max`) always forces a real split: at least 2 by 2. */
  lemma FactorSplitsOverflow(est: nat, max: nat)
    requires est > max > 0
    ensures Factor(est, max) >= 2
  {
    assert !Fits(1, est, max);
    if Factor(est, max) < 2 {
      assert Factor(est, max) <= 1;
      FitsMonotone(Factor(est, max), 1, est, max);
    }
  }

  /** The factor is the ceiling of the square root of `est / max`: its square
      reaches the ratio and the square of its predecessor stays below it. */
  lemma FactorIsCeilSqrt(est: nat, max: nat)
    requires max > 0
    ensures var f := Factor(est, max); var ratio := (est as real) / (max as real);
      && (f == 0 <==> est == 0)
      && ratio <= (f * f) as real
      && (f > 0 ==> ((f - 1) * (f - 1)) as real < ratio)
  {
    var f := Factor(est, max);
    RatioAtMost(est, f * f, max);
    if f > 0 {
      assert !Fits(f - 1, est, max);
      RatioAtMost(est, (f - 1) * (f - 1), max);
    }
    assert est > 0 ==> f != 0 by {
      assert !Fits(0, est, max) <== est > 0;
    }
  }

  /** `est / max <= s` exactly when `est <= s * max`. */
  lemma RatioAtMost(est: nat, s: nat, max: nat)
    requires max > 0
    ensures (est as real) / (max as real) <= s as real <==> est <= s * max
  {
    var m := max as real;
    var ratio := (est as real) / m;
    assert ratio * m == est as real;
    assert (s * max) as real == (s as real) * m;
    if ratio <= s as real {
      assert ratio * m <= (s as real) * m;
    }
    if est <= s * max {
      assert ratio * m <= (s as real) * m;
    }
  }

  /** The overflow of 15000 estimated tiles against a maximum of 5000 gives a
      factor of 2, hence 4 sub-extents. */
  lemma FactorExample()
    ensures Factor(15000, 5000) == 2
  {
    assert !Fits(0, 15000, 5000) && !Fits(1, 15000, 5000) && Fits(2, 15000, 5000);
  }
}

// class EqualWeights of algorithms/equal_weights.py: the 1/N benchmark
// allocation that the DFO portfolio is compared against.
module EqualWeighting {
  import opened Helpers

  datatype EqualWeights = EqualWeights(portfolioSize: nat)
  {
    /** get_weights: np.ones(portfolio_size) / portfolio_size. */
    function GetWeights(): (w: seq<real>)
      ensures |w| == portfolioSize
      ensures forall i :: 0 <= i < |w| ==> w[i] == 1.0 / (portfolioSize as real)
      ensures portfolioSize >= 1 ==> Sum(w) == 1.0 && forall i :: 0 <= i < |w| ==> w[i] > 0.0
    {
      Uniform(portfolioSize)
    }
  }

  /**
   * The equal-weight allocation is the portfolio enforce_constraints falls
   * back to when the clipped weights sum to (almost) nothing.
   */
  lemma EqualWeightsIsFallback(z: seq<real>, dimensions: nat)
    requires Sum(Clip(z)) <= Epsilon
    ensures ClipAndNormalise(z, dimensions) == EqualWeights(dimensions).GetWeights()
  {
  }

  /**
   * The equal-weight allocation is already a valid portfolio: clipping and
   * normalising leaves it as it is, and so does the whole of
   * enforce_constraints when the cardinality allows every asset.
   */
  lemma EqualWeightsFeasible(n: nat, cardinality: nat, z: seq<real>)
    requires n >= 1
    requires Selection(EqualWeights(n).GetWeights(), z, n, cardinality)
    requires n <= cardinality
    ensures z == EqualWeights(n).GetWeights()
    ensures ClipAndNormalise(z, n) == EqualWeights(n).GetWeights()
  {
    var w := EqualWeights(n).GetWeights();
    WithinCardinality(w, z, n, cardinality);
    ProjectionFixedPoint(w, n);
  }
}

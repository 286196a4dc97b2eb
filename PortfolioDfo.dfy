// class DFO of algorithms/dfo.py: the maximising DFO engine that scores every
// fly on its projected portfolio.
//
// Its evaluation calls enforce_constraints on each stored row, and that call
// zeroes the row's smallest entries in place: evaluating a generation does
// change the stored flies whenever dimensions > cardinality, although the
// method's own description says the positions are kept unchanged.
module PortfolioDfo {
  import opened Helpers
  import opened Swarm
  import opened RandomSource

  /**
   * Division of one drawn row by its own row sum (the row normalisation of
   * __init__). A row whose draws sum to exactly zero is kept as drawn (numpy
   * would produce NaN).
   */
  function NormaliseRow(row: seq<real>): (r: seq<real>)
    ensures |r| == |row|
    ensures Sum(row) != 0.0 ==> Sum(r) == 1.0 && forall d :: 0 <= d < |row| ==> r[d] == row[d] / Sum(row)
    ensures Sum(row) == 0.0 ==> r == row
  {
    if Sum(row) != 0.0 then
      SumScale(row, Sum(row));
      assert Sum(row) / Sum(row) == 1.0;
      Scale(row, Sum(row))
    else row
  }

  /** Divides one drawn row by its own sum, in place. */
  method NormaliseInPlace(row: array<real>)
    modifies row
    ensures row[..] == NormaliseRow(old(row[..]))
  {
    var total := Sum(row[..]);
    if total != 0.0 {
      ghost var drawn := row[..];
      forall d | 0 <= d < row.Length {
        row[d] := row[d] / total;
      }
      assert row[..] == Scale(drawn, total);
    }
  }

  /** Divides each of the distinct drawn rows by its own sum, in place, row by row. */
  method NormaliseRows(rows: seq<array<real>>, lower: seq<real>, upper: seq<real>) returns (ghost draws: seq<seq<real>>)
    requires forall i, j :: 0 <= i < j < |rows| ==> rows[i] != rows[j]
    requires forall i :: 0 <= i < |rows| ==> InBounds(rows[i][..], lower, upper)
    modifies set i | 0 <= i < |rows| :: rows[i]
    ensures |draws| == |rows|
    ensures forall i :: 0 <= i < |rows| ==> InBounds(draws[i], lower, upper) && rows[i][..] == NormaliseRow(draws[i])
  {
    draws := seq(|rows|, k requires 0 <= k < |rows| reads set j | 0 <= j < |rows| :: rows[j] => rows[k][..]);
    for i := 0 to |rows|
      invariant forall k :: 0 <= k < i ==> rows[k][..] == NormaliseRow(draws[k])
      invariant forall k :: i <= k < |rows| ==> rows[k][..] == draws[k]
    {
      NormaliseInPlace(rows[i]);
    }
  }

  /**
   * One step of the evaluation loop: the row is projected (and zeroed in
   * place), and its fitness is stored at index i; nothing else changes.
   */
  method EvaluateRow(row: array<real>, fitness: array<real>, i: nat,
                     fitnessFunction: seq<real> -> real, dimensions: nat, cardinality: nat)
    requires i < fitness.Length && row != fitness
    modifies row, fitness
    ensures Selection(old(row[..]), row[..], dimensions, cardinality)
    ensures fitness[..] == old(fitness[..])[i := fitnessFunction(ClipAndNormalise(row[..], dimensions))]
  {
    var validPortfolio := EnforceConstraints(row, dimensions, cardinality);
    fitness[i] := fitnessFunction(validPortfolio);
  }

  /** Every fly has been through the cardinality step of enforce_constraints. */
  ghost predicate Zeroed(before: seq<seq<real>>, after: seq<seq<real>>, dimensions: nat, cardinality: nat)
  {
    |after| == |before| && forall j :: 0 <= j < |before| ==> Selection(before[j], after[j], dimensions, cardinality)
  }

  /** The fitness vector scores every fly on the projection of its current row. */
  ghost predicate Scored(pop: seq<seq<real>>, fitness: seq<real>, fitnessFunction: seq<real> -> real, dimensions: nat)
  {
    |fitness| == |pop| && forall j :: 0 <= j < |pop| ==> fitness[j] == fitnessFunction(ClipAndNormalise(pop[j], dimensions))
  }

  /** Every entry of every row is either as before or zeroed. */
  ghost predicate KeptOrZeroed(before: seq<seq<real>>, after: seq<seq<real>>)
  {
    |after| == |before| &&
    forall j :: 0 <= j < |before| ==>
      |after[j]| == |before[j]| && forall d :: 0 <= d < |before[j]| ==> after[j][d] == before[j][d] || after[j][d] == 0.0
  }

  /**
   * The last evaluation of run() followed by the second projection of the
   * best fly: the fitness vector still scores every fly's current projection,
   * the portfolio returned holds at most `cardinality` assets when it does not
   * degenerate, and every entry is either untouched or zeroed.
   */
  lemma FinalProjection(unevaluated: seq<seq<real>>, evaluated: seq<seq<real>>, final: seq<seq<real>>,
                        fitness: seq<real>, k: nat, fitnessFunction: seq<real> -> real,
                        dimensions: nat, cardinality: nat)
    requires |final| == |evaluated| && k < |fitness|
    requires Zeroed(unevaluated, evaluated, dimensions, cardinality)
    requires Scored(evaluated, fitness, fitnessFunction, dimensions)
    requires Selection(evaluated[k], final[k], dimensions, cardinality)
    requires forall j :: 0 <= j < |fitness| && j != k ==> final[j] == evaluated[j]
    ensures Scored(final, fitness, fitnessFunction, dimensions)
    ensures dimensions > cardinality >= 1 && |final[k]| == dimensions && Sum(Clip(final[k])) > Epsilon ==>
              |Support(ClipAndNormalise(final[k], dimensions))| <= cardinality
    ensures KeptOrZeroed(unevaluated, final)
  {
    ReprojectionStable(unevaluated[k], evaluated[k], final[k], dimensions, cardinality);
    if dimensions > cardinality >= 1 && |final[k]| == dimensions && Sum(Clip(final[k])) > Epsilon {
      ProjectionCardinality(evaluated[k], final[k], dimensions, cardinality);
    }
    forall j | 0 <= j < |final|
      ensures |final[j]| == |unevaluated[j]|
      ensures forall d :: 0 <= d < |final[j]| ==> final[j][d] == unevaluated[j][d] || final[j][d] == 0.0
    {
      SelectionOnlyZeroes(unevaluated[j], evaluated[j], dimensions, cardinality);
      if j == k {
        SelectionOnlyZeroes(evaluated[j], final[j], dimensions, cardinality);
      }
    }
  }

  class Dfo {
    const fitnessFunction: seq<real> -> real
    const cardinality: nat
    const population: nat
    const dimensions: nat
    const disturbance: real
    const maxIterations: nat
    const lowerBounds: seq<real>
    const upperBounds: seq<real>
    const rng: Rng
    const flies: array<array<real>>
    const fitness: array<real>
    var constrainedFly: seq<real>
    /** The uniform draws of construction, before each row was normalised. */
    ghost const initialDraws: seq<seq<real>>

    ghost predicate Valid()
      reads flies, rng
    {
      && population >= 1
      && flies.Length == population && fitness.Length == population
      && RowsValid(flies, dimensions)
      && (forall i :: 0 <= i < population ==> flies[i] != fitness)
      && |lowerBounds| == dimensions && BoundsOrdered(lowerBounds, upperBounds)
      && rng.Valid()
    }

    /**
     * __init__: bounds repeated over all dimensions, every fly drawn
     * uniformly within them and then divided by its own sum.
     */
    constructor (fitnessFunction: seq<real> -> real, cardinality: nat, population: nat, dimensions: nat,
                 disturbance: real, maxIterations: nat, lowerBound: real, upperBound: real, rng: Rng)
      requires population >= 1 && lowerBound <= upperBound && rng.Valid()
      modifies rng
      ensures Valid()
      ensures this.fitnessFunction == fitnessFunction && this.cardinality == cardinality
      ensures this.population == population && this.dimensions == dimensions
      ensures this.disturbance == disturbance && this.maxIterations == maxIterations && this.rng == rng
      ensures lowerBounds == Full(dimensions, lowerBound) && upperBounds == Full(dimensions, upperBound)
      ensures fresh(flies) && fresh(fitness) && fresh(Rows(flies))
      ensures |initialDraws| == population
      ensures forall i :: 0 <= i < population ==> InBounds(initialDraws[i], lowerBounds, upperBounds)
      ensures forall i :: 0 <= i < population ==> flies[i][..] == NormaliseRow(initialDraws[i])
      ensures forall i :: 0 <= i < population && Sum(initialDraws[i]) != 0.0 ==> Sum(flies[i][..]) == 1.0
    {
      var lower, upper := Full(dimensions, lowerBound), Full(dimensions, upperBound);
      var rows := DrawPopulation(population, lower, upper, rng);
      ghost var draws := NormaliseRows(rows, lower, upper);
      this.fitnessFunction := fitnessFunction;
      this.cardinality := cardinality;
      this.population := population;
      this.dimensions := dimensions;
      this.disturbance := disturbance;
      this.maxIterations := maxIterations;
      this.rng := rng;
      lowerBounds, upperBounds := lower, upper;
      flies := new array<real>[population](i requires 0 <= i < population => rows[i]);
      fitness := new real[population];
      constrainedFly := [];
      initialDraws := draws;
    }

    /**
     * _evaluate_fitness: each fly is scored on its projected portfolio.
     * As a side effect every stored row is zeroed outside its top `cardinality`
     * entries when dimensions > cardinality.
     */
    method EvaluateFitness()
      requires Valid()
      modifies Rows(flies), fitness
      ensures Valid()
      ensures Zeroed(old(Population(flies)), Population(flies), dimensions, cardinality)
      ensures Scored(Population(flies), fitness[..], fitnessFunction, dimensions)
    {
      ghost var before := Population(flies);
      ghost var current := before;
      for i := 0 to population
        invariant Valid()
        invariant Population(flies) == current && |current| == population
        invariant forall k :: 0 <= k < i ==> Selection(before[k], current[k], dimensions, cardinality)
        invariant forall k :: 0 <= k < i ==> fitness[k] == fitnessFunction(ClipAndNormalise(current[k], dimensions))
        invariant forall k :: i <= k < population ==> current[k] == before[k]
      {
        EvaluateRow(flies[i], fitness, i, fitnessFunction, dimensions, cardinality);
        current := current[i := flies[i][..]];
      }
    }

    /**
     * One generation of run(), on values: evaluation zeroes the flies `pre`
     * in place into `evaluated` and scores their projections; the first
     * argmax of those scores is the elite; one update pass against the frozen
     * scores takes `evaluated` to `post`.
     */
    ghost predicate Generation(pre: seq<seq<real>>, evaluated: seq<seq<real>>, scores: seq<real>,
                               states: seq<seq<seq<real>>>, moves: seq<seq<Step>>, post: seq<seq<real>>)
    {
      && |scores| > 0
      && Zeroed(pre, evaluated, dimensions, cardinality)
      && Scored(evaluated, scores, fitnessFunction, dimensions)
      && PassTrace(states, moves, scores, FirstBest(scores, true), lowerBounds, upperBounds, disturbance, true)
      && states[0] == evaluated && states[|scores|] == post
    }

    /**
     * Generations in sequence: pops[g] is the population at the start of
     * generation g and evaluated[g] the same flies after its evaluation.
     */
    ghost predicate History(pops: seq<seq<seq<real>>>, evaluated: seq<seq<seq<real>>>, scores: seq<seq<real>>,
                            states: seq<seq<seq<seq<real>>>>, moves: seq<seq<seq<Step>>>)
    {
      && |pops| == |scores| + 1 && |evaluated| == |scores| && |states| == |scores| && |moves| == |scores|
      && forall g :: 0 <= g < |scores| ==>
           Generation(pops[g], evaluated[g], scores[g], states[g], moves[g], pops[g + 1])
    }

    /** A history extended by one more generation is still a history. */
    lemma HistoryExtend(pops: seq<seq<seq<real>>>, evaluated: seq<seq<seq<real>>>, scores: seq<seq<real>>,
                        states: seq<seq<seq<seq<real>>>>, moves: seq<seq<seq<Step>>>,
                        ev: seq<seq<real>>, sc: seq<real>, st: seq<seq<seq<real>>>, mv: seq<seq<Step>>,
                        post: seq<seq<real>>)
      requires History(pops, evaluated, scores, states, moves)
      requires Generation(pops[|scores|], ev, sc, st, mv, post)
      ensures History(pops + [post], evaluated + [ev], scores + [sc], states + [st], moves + [mv])
    {
      var pops', evaluated', scores' := pops + [post], evaluated + [ev], scores + [sc];
      var states', moves' := states + [st], moves + [mv];
      forall g | 0 <= g < |scores'|
        ensures Generation(pops'[g], evaluated'[g], scores'[g], states'[g], moves'[g], pops'[g + 1])
      {
        if g < |scores| {
          assert Generation(pops[g], evaluated[g], scores[g], states[g], moves[g], pops[g + 1]);
        }
      }
    }

    /**
     * The end of run(), on values: one more evaluation takes `pre` to
     * `evaluated` with `scores`, and the row of the first argmax goes through
     * the cardinality step once more; no other fly changes.
     */
    ghost predicate FinalStep(pre: seq<seq<real>>, evaluated: seq<seq<real>>, scores: seq<real>, post: seq<seq<real>>)
    {
      && |scores| > 0
      && Zeroed(pre, evaluated, dimensions, cardinality)
      && Scored(evaluated, scores, fitnessFunction, dimensions)
      && |post| == |evaluated|
      && Selection(evaluated[FirstBest(scores, true)], post[FirstBest(scores, true)], dimensions, cardinality)
      && forall j :: 0 <= j < |post| && j != FirstBest(scores, true) ==> post[j] == evaluated[j]
    }

    /**
     * What one generation does: the elite is the first fly of highest
     * fitness on its projected portfolio, its (evaluated) row comes through
     * the pass unchanged, and every other fly ends within the bounds.
     */
    lemma GenerationKeepsElite(pre: seq<seq<real>>, evaluated: seq<seq<real>>, scores: seq<real>,
                               states: seq<seq<seq<real>>>, moves: seq<seq<Step>>, post: seq<seq<real>>)
      requires Generation(pre, evaluated, scores, states, moves, post)
      ensures |post| == |evaluated| == |pre| == |scores|
      ensures var e := FirstBest(scores, true);
              && post[e] == evaluated[e]
              && (forall j :: 0 <= j < |scores| ==> scores[j] <= scores[e])
              && (forall j :: 0 <= j < e ==> scores[j] < scores[e])
      ensures forall j :: 0 <= j < |scores| && j != FirstBest(scores, true) ==>
                InBounds(post[j], lowerBounds, upperBounds)
    {
      var e := FirstBest(scores, true);
      EliteKept(states, moves, scores, e, lowerBounds, upperBounds, disturbance, true);
      WrittenWithinBounds(states, moves, scores, e, lowerBounds, upperBounds, disturbance, true);
    }

    /**
     * What run() returns, on values: the first argmax of the final scores,
     * its fitness, and its projected portfolio, which holds at most
     * `cardinality` assets when it does not degenerate. The scores rate the
     * projection of every fly in `pop`, and none beats the one returned.
     */
    ghost predicate Outcome(pop: seq<seq<real>>, scores: seq<real>, bestFitness: real, bestPortfolio: seq<real>)
    {
      && |scores| > 0 && Scored(pop, scores, fitnessFunction, dimensions)
      && bestFitness == scores[FirstBest(scores, true)]
      && bestPortfolio == ClipAndNormalise(pop[FirstBest(scores, true)], dimensions)
      && (forall j :: 0 <= j < |scores| ==> scores[j] <= bestFitness)
      && bestFitness == fitnessFunction(bestPortfolio)
      && (dimensions > cardinality >= 1 && Sum(Clip(pop[FirstBest(scores, true)])) > Epsilon ==>
            |Support(bestPortfolio)| <= cardinality)
    }

    /** The max_iterations generations of run(): evaluate, pick the elite, update. */
    method Generations()
        returns (ghost pops: seq<seq<seq<real>>>, ghost evaluated: seq<seq<seq<real>>>, ghost scores: seq<seq<real>>,
                 ghost states: seq<seq<seq<seq<real>>>>, ghost moves: seq<seq<seq<Step>>>)
      requires Valid()
      modifies Rows(flies), fitness, rng
      ensures Valid()
      ensures History(pops, evaluated, scores, states, moves) && |scores| == maxIterations
      ensures pops[0] == old(Population(flies)) && pops[maxIterations] == Population(flies)
    {
      pops, evaluated, scores, states, moves := [Population(flies)], [], [], [], [];
      for i := 0 to maxIterations
        invariant Valid()
        invariant History(pops, evaluated, scores, states, moves) && |scores| == i
        invariant pops[0] == old(Population(flies)) && pops[i] == Population(flies)
      {
        EvaluateFitness();
        ghost var ev := Population(flies);
        var frozen := fitness[..];
        var bestFly := FirstBest(frozen, true);
        ghost var passStates: seq<seq<seq<real>>>, passMoves: seq<seq<Step>>;
        passStates, passMoves := UpdatePass(flies, frozen, bestFly, lowerBounds, upperBounds, disturbance, rng, true);
        assert Generation(pops[i], ev, frozen, passStates, passMoves, Population(flies));
        HistoryExtend(pops, evaluated, scores, states, moves, ev, frozen, passStates, passMoves, Population(flies));
        pops, evaluated, scores := pops + [Population(flies)], evaluated + [ev], scores + [frozen];
        states, moves := states + [passStates], moves + [passMoves];
      }
    }

    /**
     * The second enforce_constraints call of run(), on fly k: its row goes
     * through the cardinality step again; no other row and no score changes.
     */
    method ProjectBest(k: nat) returns (projected: seq<real>)
      requires Valid() && k < population
      modifies flies[k]
      ensures Valid() && fitness[..] == old(fitness[..])
      ensures Population(flies) == old(Population(flies))[k := flies[k][..]]
      ensures Selection(old(flies[k][..]), flies[k][..], dimensions, cardinality)
      ensures projected == ClipAndNormalise(flies[k][..], dimensions)
    {
      ghost var before := Population(flies);
      projected := EnforceConstraints(flies[k], dimensions, cardinality);
      assert Population(flies) == before[k := flies[k][..]];
    }

    /**
     * The end of run(): a last evaluation, then the first argmax projected
     * once more.
     */
    method Finish() returns (bestFitness: real, bestPortfolio: seq<real>, ghost evaluated: seq<seq<real>>)
      requires Valid()
      modifies Rows(flies), fitness
      ensures Valid()
      ensures FinalStep(old(Population(flies)), evaluated, fitness[..], Population(flies))
      ensures Outcome(Population(flies), fitness[..], bestFitness, bestPortfolio)
      ensures KeptOrZeroed(old(Population(flies)), Population(flies))
    {
      ghost var unevaluated := Population(flies);
      EvaluateFitness();
      evaluated := Population(flies);
      var scores := fitness[..];
      var bestFlyIdx := FirstBest(scores, true);
      var projected := ProjectBest(bestFlyIdx);
      ghost var final := Population(flies);
      FinalProjection(unevaluated, evaluated, final, scores, bestFlyIdx,
                      fitnessFunction, dimensions, cardinality);
      bestFitness, bestPortfolio := scores[bestFlyIdx], projected;
    }

    /** The last assignment of run(): the projected best fly is kept in constrained_fly. */
    method KeepBest(portfolio: seq<real>)
      requires Valid()
      modifies this
      ensures Valid() && constrainedFly == portfolio
      ensures Population(flies) == old(Population(flies)) && fitness[..] == old(fitness[..])
    {
      constrainedFly := portfolio;
    }

    /**
     * run: max_iterations generations of evaluate, pick the first argmax as
     * elite, update every other fly; then a last evaluation, and the best fly
     * projected once more. Returns its fitness and that portfolio.
     */
    method Run()
        returns (bestFitness: real, bestPortfolio: seq<real>,
                 ghost pops: seq<seq<seq<real>>>, ghost evaluated: seq<seq<seq<real>>>, ghost scores: seq<seq<real>>,
                 ghost states: seq<seq<seq<seq<real>>>>, ghost moves: seq<seq<seq<Step>>>,
                 ghost lastEvaluated: seq<seq<real>>)
      requires Valid()
      modifies Rows(flies), fitness, rng, this
      ensures Valid()
      ensures History(pops, evaluated, scores, states, moves) && |scores| == maxIterations
      ensures pops[0] == old(Population(flies))
      ensures FinalStep(pops[maxIterations], lastEvaluated, fitness[..], Population(flies))
      ensures maxIterations == 0 ==> FinalStep(old(Population(flies)), lastEvaluated, fitness[..], Population(flies))
      ensures bestPortfolio == constrainedFly
      ensures Outcome(Population(flies), fitness[..], bestFitness, bestPortfolio)
    {
      pops, evaluated, scores, states, moves := Generations();
      bestFitness, bestPortfolio, lastEvaluated := Finish();
      KeepBest(bestPortfolio);
    }
  }
}

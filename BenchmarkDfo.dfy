// class DFO of optimisers/dfo.py: the minimising DFO engine on raw positions,
// the benchmark version of the algorithm (sphere function and the like).
// Fitness is taken on the flies as they are, so evaluating never changes
// them, and every fly stays within the box bounds from construction on.
module BenchmarkDfo {
  import opened Swarm
  import opened RandomSource

  /** The fitness vector scores every fly on its current raw position. */
  ghost predicate Scored(pop: seq<seq<real>>, fitness: seq<real>, fitnessFunction: seq<real> -> real)
  {
    |fitness| == |pop| && forall j :: 0 <= j < |pop| ==> fitness[j] == fitnessFunction(pop[j])
  }

  class Dfo {
    const fitnessFunction: seq<real> -> real
    const population: nat
    const dimensions: nat
    const disturbance: real
    const maxIterations: nat
    const lowerBounds: seq<real>
    const upperBounds: seq<real>
    const rng: Rng
    const flies: array<array<real>>
    var fitness: seq<real>

    ghost predicate Valid()
      reads this, flies, Rows(flies), rng
    {
      && population >= 1
      && flies.Length == population && |fitness| == population
      && RowsValid(flies, dimensions)
      && |lowerBounds| == dimensions && BoundsOrdered(lowerBounds, upperBounds)
      && (forall i :: 0 <= i < population ==> InBounds(flies[i][..], lowerBounds, upperBounds))
      && rng.Valid()
    }

    /**
     * __init__: the bounds given per dimension (np.full of the constructor's
     * `lower_bounds` and `upper_bounds`: a scalar bound arrives here as
     * Full(dimensions, x), an array of length `dimensions` as itself), and
     * every fly drawn uniformly within them. The fitness vector starts with
     * one (meaningless) entry per fly.
     */
    constructor (fitnessFunction: seq<real> -> real, population: nat, dimensions: nat,
                 disturbance: real, maxIterations: nat, lowerBounds: seq<real>, upperBounds: seq<real>, rng: Rng)
      requires population >= 1 && rng.Valid()
      requires |lowerBounds| == dimensions && BoundsOrdered(lowerBounds, upperBounds)
      modifies rng
      ensures Valid()
      ensures this.fitnessFunction == fitnessFunction
      ensures this.population == population && this.dimensions == dimensions
      ensures this.disturbance == disturbance && this.maxIterations == maxIterations && this.rng == rng
      ensures this.lowerBounds == lowerBounds && this.upperBounds == upperBounds
      ensures fresh(flies) && fresh(Rows(flies))
      ensures forall i :: 0 <= i < population ==> InBounds(flies[i][..], lowerBounds, upperBounds)
    {
      var rows := DrawPopulation(population, lowerBounds, upperBounds, rng);
      this.fitnessFunction := fitnessFunction;
      this.population := population;
      this.dimensions := dimensions;
      this.disturbance := disturbance;
      this.maxIterations := maxIterations;
      this.rng := rng;
      this.lowerBounds, this.upperBounds := lowerBounds, upperBounds;
      flies := new array<real>[population](i requires 0 <= i < population => rows[i]);
      fitness := seq(population, _ => 0.0);
    }

    /** _evaluate_fitness: a new fitness list, one score per fly on its raw row. */
    method EvaluateFitness()
      requires Valid()
      modifies this
      ensures Valid()
      ensures Scored(Population(flies), fitness, fitnessFunction)
      ensures Population(flies) == old(Population(flies))
    {
      var scores: seq<real> := [];
      for i := 0 to population
        invariant |scores| == i
        invariant forall k :: 0 <= k < i ==> scores[k] == fitnessFunction(flies[k][..])
      {
        scores := scores + [fitnessFunction(flies[i][..])];
      }
      fitness := scores;
    }

    /**
     * One generation of run(), on values: the flies `pre` are scored, the
     * first argmin of those scores is the elite, and one update pass against
     * the frozen scores takes `pre` to `post`.
     */
    ghost predicate Generation(pre: seq<seq<real>>, scores: seq<real>, states: seq<seq<seq<real>>>,
                               moves: seq<seq<Step>>, post: seq<seq<real>>)
    {
      && |scores| > 0 && Scored(pre, scores, fitnessFunction)
      && PassTrace(states, moves, scores, FirstBest(scores, false), lowerBounds, upperBounds, disturbance, false)
      && states[0] == pre && states[|scores|] == post
    }

    /** Generations in sequence: pops[g] is the population at the start of generation g. */
    ghost predicate History(pops: seq<seq<seq<real>>>, scores: seq<seq<real>>,
                            states: seq<seq<seq<seq<real>>>>, moves: seq<seq<seq<Step>>>)
    {
      && |pops| == |scores| + 1 && |states| == |scores| && |moves| == |scores|
      && forall g :: 0 <= g < |scores| ==> Generation(pops[g], scores[g], states[g], moves[g], pops[g + 1])
    }

    /** A history extended by one more generation is still a history. */
    lemma HistoryExtend(pops: seq<seq<seq<real>>>, scores: seq<seq<real>>,
                        states: seq<seq<seq<seq<real>>>>, moves: seq<seq<seq<Step>>>,
                        sc: seq<real>, st: seq<seq<seq<real>>>, mv: seq<seq<Step>>, post: seq<seq<real>>)
      requires History(pops, scores, states, moves)
      requires Generation(pops[|scores|], sc, st, mv, post)
      ensures History(pops + [post], scores + [sc], states + [st], moves + [mv])
    {
      var pops', scores', states', moves' := pops + [post], scores + [sc], states + [st], moves + [mv];
      forall g | 0 <= g < |scores'|
        ensures Generation(pops'[g], scores'[g], states'[g], moves'[g], pops'[g + 1])
      {
        if g < |scores| {
          assert Generation(pops[g], scores[g], states[g], moves[g], pops[g + 1]);
        }
      }
    }

    /**
     * What one generation does: the elite is the first fly of lowest fitness,
     * its row comes through unchanged, and every other fly ends within the
     * bounds.
     */
    lemma GenerationKeepsElite(pre: seq<seq<real>>, scores: seq<real>, states: seq<seq<seq<real>>>,
                               moves: seq<seq<Step>>, post: seq<seq<real>>)
      requires Generation(pre, scores, states, moves, post)
      ensures |post| == |pre| == |scores|
      ensures var e := FirstBest(scores, false);
              && post[e] == pre[e]
              && (forall j :: 0 <= j < |scores| ==> scores[e] <= scores[j])
              && (forall j :: 0 <= j < e ==> scores[e] < scores[j])
      ensures forall j :: 0 <= j < |scores| && j != FirstBest(scores, false) ==>
                InBounds(post[j], lowerBounds, upperBounds)
    {
      var e := FirstBest(scores, false);
      EliteKept(states, moves, scores, e, lowerBounds, upperBounds, disturbance, false);
      WrittenWithinBounds(states, moves, scores, e, lowerBounds, upperBounds, disturbance, false);
    }

    /**
     * The max_iterations generations of run(): evaluate, pick the first
     * argmin as elite, update every other fly. The flies stay within bounds.
     */
    method Generations()
        returns (ghost pops: seq<seq<seq<real>>>, ghost scores: seq<seq<real>>,
                 ghost states: seq<seq<seq<seq<real>>>>, ghost moves: seq<seq<seq<Step>>>)
      requires Valid()
      modifies this, Rows(flies), rng
      ensures Valid()
      ensures History(pops, scores, states, moves) && |scores| == maxIterations
      ensures pops[0] == old(Population(flies)) && pops[maxIterations] == Population(flies)
    {
      pops, scores, states, moves := [Population(flies)], [], [], [];
      for i := 0 to maxIterations
        invariant Valid()
        invariant History(pops, scores, states, moves) && |scores| == i
        invariant pops[0] == old(Population(flies)) && pops[i] == Population(flies)
      {
        EvaluateFitness();
        var bestFly := FirstBest(fitness, false);
        ghost var passStates: seq<seq<seq<real>>>, passMoves: seq<seq<Step>>;
        passStates, passMoves := UpdatePass(flies, fitness, bestFly, lowerBounds, upperBounds, disturbance, rng, false);
        PassKeepsBounds(passStates, passMoves, fitness, bestFly, lowerBounds, upperBounds, disturbance, false);
        assert Generation(pops[i], fitness, passStates, passMoves, Population(flies));
        HistoryExtend(pops, scores, states, moves, fitness, passStates, passMoves, Population(flies));
        pops, scores := pops + [Population(flies)], scores + [fitness];
        states, moves := states + [passStates], moves + [passMoves];
      }
    }

    /**
     * run: the generations, then a last evaluation; returns the lowest
     * fitness (its first occurrence) and that fly's position.
     */
    method Run()
        returns (bestFitness: real, bestPosition: seq<real>,
                 ghost pops: seq<seq<seq<real>>>, ghost scores: seq<seq<real>>,
                 ghost states: seq<seq<seq<seq<real>>>>, ghost moves: seq<seq<seq<Step>>>)
      requires Valid()
      modifies this, Rows(flies), rng
      ensures Valid()
      ensures History(pops, scores, states, moves) && |scores| == maxIterations
      ensures pops[0] == old(Population(flies)) && pops[maxIterations] == Population(flies)
      ensures Scored(Population(flies), fitness, fitnessFunction)
      ensures bestFitness == fitness[FirstBest(fitness, false)]
      ensures bestPosition == flies[FirstBest(fitness, false)][..]
      ensures forall j :: 0 <= j < population ==> bestFitness <= fitness[j]
      ensures bestFitness == fitnessFunction(bestPosition)
      ensures InBounds(bestPosition, lowerBounds, upperBounds)
      ensures maxIterations == 0 ==> Population(flies) == old(Population(flies))
    {
      pops, scores, states, moves := Generations();
      EvaluateFitness();
      var bestFly := FirstBest(fitness, false);
      bestFitness, bestPosition := fitness[bestFly], flies[bestFly][..];
    }
  }
}

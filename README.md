# Cardinality-constrained portfolio DFO, modelled in Dafny

This project models the optimisation core of a portfolio-selection repository.
It has three parts:

- **The portfolio projection** `enforce_constraints` of `utils/helpers.py`:
  - it keeps the `cardinality` largest weights and zeroes the rest, in place on the caller's array;
  - it clips negative weights to zero;
  - it renormalises to sum one;
  - it falls back to the equal-weight vector over all dimensions when the clipped weights sum to at most 0.000001.
- **Dispersive Flies Optimisation (DFO)**, in two engines:
  - `algorithms/dfo.py` maximises the fitness of each fly's projected portfolio. Evaluating a fly projects its stored row, and that projection zeroes the row in place.
  - `optimisers/dfo.py` minimises the fitness of the raw position. It has no projection.
  - Both run the same generational loop:
    - evaluate every fly;
    - take the first best fly as the elite;
    - for every other fly, in index order, pick the better ring neighbour and update each dimension. The update is either a disturbance resample or a pull towards the neighbour and the elite, resampled when it leaves the bounds.
- **The equal-weight benchmark** `EqualWeights.get_weights` of `algorithms/equal_weights.py`.

Modules:

- `Helpers`: the projection.
  - `EnforceConstraints` is a method on an `array<real>`. It zeroes in place, and its ensures are the tie-agnostic relation `Selection`. That relation says that exactly `ZeroCount` positions are zeroed and that each of them holds a value no larger than any kept one. Because `np.argsort` is not a stable sort, no tie rule is fixed.
  - The result is the pure function `ClipAndNormalise` of the zeroed array.
- `Swarm`: the parts the two engines share.
  - `FirstBest` models argmax/argmin. `BestNeighbour` is the ring-neighbour choice.
  - The population is an array of row arrays, so a projected row is the stored row.
  - `MoveDimension`, `MoveFly` and `UpdatePass` are the three nested loops of `run`.
  - `UpdatePass` is specified by a ghost trace. The trace holds the population before each fly's turn and the draws used for that fly. Each fly reads its neighbour as it stands at that moment, possibly already moved in the same pass.
- `PortfolioDfo` and `BenchmarkDfo`: the two `DFO` classes, as Dafny classes with the same fields.
- `EqualWeighting`: the equal-weight allocator.
- `RandomSource`: the random source, injected as an object. Its draws are known only by their ranges: `Rand` lies in [0, 1) and `Uniform(lo, hi)` in [lo, hi].

The fitness function is a constructor parameter of arrow type `seq<real> -> real`.

Choices the code makes, which the model follows:

- A neighbour tie goes to the LEFT neighbour. Lines `algorithms/dfo.py:65` and `optimisers/dfo.py:55` take the right neighbour only when it is strictly better.
- Ties in the cardinality ranking are not resolved by any rule. `np.argsort` at `utils/helpers.py:9` uses numpy's default sort, which is not stable.
- The projection zeroes the caller's row in place (`utils/helpers.py:10`). The portfolio engine's evaluation therefore changes the stored flies, although the docstring at `algorithms/dfo.py:41` says the positions are kept unchanged.
- No construction parameter is checked by the code. The assumptions it needs become preconditions: at least one fly (numpy's argmax/argmin fail on an empty vector) and lower bounds no larger than upper bounds.
- A population of one fly is allowed. That fly is always the elite and never moves.

## Model

| member | source | states |
|---|---|---|
| Helpers.Uniform | utils/helpers.py:18 | the fallback has `dimensions` entries, each 1/dimensions, summing to one when dimensions >= 1 |
| Helpers.Argsort | utils/helpers.py:9 | the sorted indices are a permutation of 0..n-1, listed in ascending order of value (ties in any order) |
| Helpers.SortIndices | utils/helpers.py:9 | sorting a distinct index list gives a distinct permutation of it in ascending order of value |
| Helpers.DropLast | utils/helpers.py:10 | the slice drops the last c indices, and drops everything when c == 0 (a `[:-0]` slice is empty) |
| Helpers.ZeroCount | utils/helpers.py:8-10 | dimensions - cardinality positions are zeroed when dimensions > cardinality >= 1, and none when dimensions <= cardinality or cardinality == 0 |
| Helpers.ClipAndNormalise | utils/helpers.py:12-20 | entries are never negative; above the threshold each entry is its clipped value over the clipped sum and they sum to one; otherwise the result is the uniform vector over `dimensions`; when not degenerate, no asset outside the input's support is held |
| Helpers.EnforceConstraints | utils/helpers.py:6-20 | the caller's array changes only by zeroing exactly ZeroCount positions whose values are no larger than any kept value; the result is clip-and-normalise of the zeroed array |
| Helpers.SmallestZeroed | utils/helpers.py:9-10 | the indices before the slice point form a set of the right size holding values no larger than every other index |
| Helpers.SelectionOnlyZeroes | utils/helpers.py:10 | the zeroing keeps the length, and each entry is either left alone or set to 0 |
| Helpers.ProjectionCardinality | utils/helpers.py:8-16 | a non-degenerate result holds at most `cardinality` assets when dimensions > cardinality >= 1 |
| Helpers.WithinCardinality | utils/helpers.py:8-16 | when dimensions <= cardinality nothing is zeroed and the result is clip-then-normalise of the whole input |
| Helpers.ReprojectionStable | utils/helpers.py:8-16 | zeroing an already zeroed array a second time changes neither its clipped weights nor the projected portfolio |
| Helpers.ProjectionFixedPoint | utils/helpers.py:12-16 | a non-negative vector that sums to one is returned unchanged by the clip-and-normalise step |
| Helpers.ProjectionIdempotent | utils/helpers.py:8-16 | projecting a non-degenerate result again leaves both the array and the result unchanged |
| Swarm.FirstBest | algorithms/dfo.py:51 | the elite index is in range; no fitness is strictly better than it, and every earlier index is strictly worse (np.argmax, or np.argmin when minimising) |
| Swarm.LeftOf | algorithms/dfo.py:63 | the ring's left neighbour is i-1, wrapping 0 to population-1 |
| Swarm.RightOf | algorithms/dfo.py:64 | the ring's right neighbour is i+1, wrapping population-1 to 0 |
| Swarm.BestNeighbour | algorithms/dfo.py:63-65 | the choice is one of the two ring neighbours and at least as good as both; it is right only when right is strictly better, so ties go left |
| Swarm.Full | optimisers/dfo.py:22-23 | `np.full(n, x)` with a scalar x: n entries, each equal to x |
| Swarm.DrawRow | algorithms/dfo.py:29-33 | a fresh row with one draw per dimension, each entry within that dimension's bounds |
| Swarm.DrawPopulation | algorithms/dfo.py:29-33 | `population` fresh, distinct rows, every entry within its dimension's bounds |
| Swarm.MoveDimension | algorithms/dfo.py:68-89 | dimension d of fly i becomes a disturbance resample, the pull value when it lies in bounds, or an in-bounds resample otherwise; no other entry of the row changes |
| Swarm.MoveFly | algorithms/dfo.py:67-89 | every dimension of the fly is updated in that way, against the neighbour's and the elite's rows as they were when the fly's turn began |
| Swarm.UpdatePass | algorithms/dfo.py:58-89 | the pass is a trace of one transition per fly in index order: the elite stays put, each other fly moves against its best neighbour (chosen on the frozen fitness vector) and the elite as they currently stand, and nothing else changes |
| Swarm.RowHistory | algorithms/dfo.py:58-89 | when fly k's turn comes, flies before k hold their moved rows and flies from k on still hold their rows from the start of the pass |
| Swarm.EliteKept | algorithms/dfo.py:58-60 | the elite's row is identical at every point of the pass |
| Swarm.NeighbourReadIsCurrent | algorithms/dfo.py:62-78 | fly k's move reads its best neighbour b already moved when b < k and as it was otherwise, and the elite as it was |
| Swarm.WrittenWithinBounds | algorithms/dfo.py:67-89 | every row the pass writes lies within the bounds in every dimension |
| Swarm.PassKeepsBounds | optimisers/dfo.py:57-76 | a population that starts within the bounds is still within them after a pass |
| RandomSource.Rng.Rand | algorithms/dfo.py:68 | a random draw lies in [0, 1) |
| RandomSource.Rng.Uniform | algorithms/dfo.py:69-72 | a uniform draw between the bounds lies within them |
| PortfolioDfo.NormaliseRow | algorithms/dfo.py:36 | a row with a non-zero sum is divided entrywise by that sum and then sums to one |
| PortfolioDfo.NormaliseInPlace | algorithms/dfo.py:36 | the stored row becomes its normalised form |
| PortfolioDfo.NormaliseRows | algorithms/dfo.py:36 | each drawn row becomes its own normalised form, and the drawn rows are kept as ghost values |
| PortfolioDfo.EvaluateRow | algorithms/dfo.py:43-46 | one fly's row goes through the cardinality step, and only fitness[i] changes, to the fitness of that row's projection |
| PortfolioDfo.FinalProjection | algorithms/dfo.py:91-95 | after the last evaluation and the second projection of the best fly, the fitness vector still scores every fly's current projection, the returned portfolio holds at most `cardinality` assets when dimensions > cardinality >= 1 and it is not degenerate, and every entry is either as before or zeroed |
| PortfolioDfo.Dfo.constructor | algorithms/dfo.py:16-38 | bounds are repeated over all dimensions; every fly is a uniform draw within them divided by its own sum, so it sums to one when that sum is non-zero |
| PortfolioDfo.Dfo.EvaluateFitness | algorithms/dfo.py:40-46 | every stored fly is zeroed by the cardinality step, and fitness[i] is the fitness of the projection of fly i |
| PortfolioDfo.Dfo.HistoryExtend | algorithms/dfo.py:49-89 | a generation appended to a history of generations gives a history one generation longer |
| PortfolioDfo.Dfo.GenerationKeepsElite | algorithms/dfo.py:49-89 | in one generation the elite is the first fly of highest fitness, its evaluated row is not moved, and every other fly ends within the bounds |
| PortfolioDfo.Dfo.Generations | algorithms/dfo.py:49-89 | the history starts at the initial flies and ends at the current ones; each generation g zeroes pops[g] into evaluated[g], scores every fly on its projection, and is one update pass from evaluated[g] to pops[g+1] with the first argmax of those scores as elite |
| PortfolioDfo.Dfo.ProjectBest | algorithms/dfo.py:92-95 | the chosen fly's row goes through the cardinality step again, the result is its projection, and no other row and no score changes |
| PortfolioDfo.Dfo.Finish | algorithms/dfo.py:91-95 | one last evaluation (zeroing and scoring), then the first argmax fly projected again with no other fly changing; returns its score, which no score exceeds, and its projected portfolio, which holds at most `cardinality` assets when not degenerate |
| PortfolioDfo.Dfo.KeepBest | algorithms/dfo.py:93-95 | constrainedFly holds the portfolio, and the flies and scores are unchanged |
| PortfolioDfo.Dfo.Run | algorithms/dfo.py:48-97 | the generations' history from the initial flies, then the final step from the last generation's result; with max_iterations == 0 that final step starts from the initial flies; returns the maximum final score and the projected first-argmax fly, stored as constrainedFly |
| BenchmarkDfo.Dfo.constructor | optimisers/dfo.py:5-32 | the bounds are one value per dimension (a scalar repeated by `Full`, or a per-dimension sequence), and every fly starts within them |
| BenchmarkDfo.Dfo.EvaluateFitness | optimisers/dfo.py:34-36 | fitness[i] is the fitness of the raw row of fly i, and the flies are left unchanged |
| BenchmarkDfo.Dfo.HistoryExtend | optimisers/dfo.py:39-76 | a generation appended to a history of generations gives a history one generation longer |
| BenchmarkDfo.Dfo.GenerationKeepsElite | optimisers/dfo.py:39-76 | in one generation the elite is the first fly of lowest fitness, its row is not moved, and every other fly ends within the bounds |
| BenchmarkDfo.Dfo.Generations | optimisers/dfo.py:39-76 | the history starts at the initial flies and ends at the current ones; each generation g scores the raw rows of pops[g] and is one update pass from pops[g] to pops[g+1] with the first argmin as elite; the flies stay within the bounds |
| BenchmarkDfo.Dfo.Run | optimisers/dfo.py:38-81 | the generations' history, then a last scoring; returns the minimum final fitness and the raw first-argmin fly, which lies within bounds; with max_iterations == 0 the flies are the initial ones |
| EqualWeighting.EqualWeights.GetWeights | algorithms/equal_weights.py:8-9 | `portfolio_size` entries, each 1/portfolio_size, all positive and summing to one when portfolio_size >= 1 |
| EqualWeighting.EqualWeightsIsFallback | algorithms/equal_weights.py:9 | the equal-weight vector is the projection's fallback for the same size |
| EqualWeighting.EqualWeightsFeasible | algorithms/equal_weights.py:9 | with cardinality >= portfolio_size the equal-weight vector passes through the projection unchanged |

## Left out

- Printing: the progress lines of both `run` methods (`algorithms/dfo.py:53-56`, `optimisers/dfo.py:43-46`) are output only. They are not modelled.
- Random distribution: `RandomSource.Rng` is a linear congruential stand-in for numpy's generator. Only the ranges of the draws are used, and no distribution or convergence property is claimed.
- `RandomSource.Rng.Uniform`: it also says nothing about `lo > hi`, which numpy accepts. Its callers require each lower bound to be no larger than the matching upper bound.
- Floating point: weights and fitness are `real`. Rounding, NaN and infinities are not modelled. That includes the rationale behind the 0.000001 threshold.
- `PortfolioDfo.NormaliseRow`: a drawn row whose entries sum to exactly zero is kept as drawn. numpy divides by zero there and produces NaN or infinities: NaN at the zero entries, plus or minus infinity at the others.
- Fitness callback: it is a total, side-effect-free function. Exceptions it may raise, and their propagation out of `run`, are not modelled.
- `PortfolioDfo.Dfo.constructor` and `BenchmarkDfo.Dfo.constructor`: the contents of `np.empty` are arbitrary. The model fills the initial fitness vector with zeros, and nothing reads it before the first evaluation.
- `BenchmarkDfo.Dfo.Run`: it returns a copy of the best row, whereas the source returns a numpy view that aliases the stored fly.
- `BenchmarkDfo.Dfo.EvaluateFitness`: the source rebinds `_fitness` to a Python list. The model keeps it as a sequence field, which has the same contents.
- Parameter validation: none exists in the source. The disturbance probability is any real, as in the code. Cardinality, dimensions, population and max_iterations are non-negative by type (`nat`).
- Negative cardinality: it is not modelled. The code accepts it, and then `dimensions > cardinality` always holds and `sorted_indices[:-cardinality]` at `utils/helpers.py:10` zeroes the |cardinality| smallest entries instead of keeping the largest ones.
- The rest of the repository is not part of this model: data loading, the PSO wrapper, Monte Carlo weights, and the display and plotting helpers.

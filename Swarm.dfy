// The generational update of Dispersive Flies Optimisation, shared by the two
// DFO classes of the source (algorithms/dfo.py maximises, optimisers/dfo.py
// minimises; their update passes are otherwise the same code).
//
// The population is an array of row arrays: a numpy row `flies[i]` is a view
// on the stored data, and an array of arrays lets the model pass one row to
// code that changes it in place, as the source does.
//
// The update pass is specified by a ghost trace: states[k] is the population
// just before fly k is considered, moves[k] the draws used for fly k. Each
// fly's move reads the population AS IT IS at that moment, so a neighbour
// that was moved earlier in the same pass is read in its moved position.
module Swarm {
  import opened RandomSource

  // ---------------------------------------------------------------------
  // Comparisons on fitness: maximising (algorithms/dfo.py) or minimising
  // (optimisers/dfo.py)
  // ---------------------------------------------------------------------

  /** `a` is strictly better than `b`. */
  predicate Better(a: real, b: real, maximise: bool)
  {
    if maximise then a > b else a < b
  }

  /**
   * np.argmax (maximise) or np.argmin (minimise): the first index of a best
   * fitness value.
   */
  function FirstBest(fitness: seq<real>, maximise: bool): (k: nat)
    requires |fitness| > 0
    ensures k < |fitness|
    ensures forall j :: 0 <= j < |fitness| ==> !Better(fitness[j], fitness[k], maximise)
    ensures forall j :: 0 <= j < k ==> Better(fitness[k], fitness[j], maximise)
    decreases |fitness|
  {
    if |fitness| == 1 then 0
    else
      var k := FirstBest(fitness[..|fitness| - 1], maximise);
      if Better(fitness[|fitness| - 1], fitness[k], maximise) then |fitness| - 1 else k
  }

  /** `(i - 1) % n`; Python's `%` and Dafny's agree for a positive modulus. */
  function LeftOf(i: nat, n: nat): (l: nat)
    requires i < n
    ensures l < n
    ensures i == 0 ==> l == n - 1
    ensures i > 0 ==> l == i - 1
  {
    (i - 1) % n
  }

  /** `(i + 1) % n`. */
  function RightOf(i: nat, n: nat): (r: nat)
    requires i < n
    ensures r < n
    ensures i == n - 1 ==> r == 0
    ensures i < n - 1 ==> r == i + 1
  {
    (i + 1) % n
  }

  /**
   * The better of fly i's two ring neighbours. The right neighbour is chosen
   * only when it is strictly better than the left one; ties go left.
   */
  function BestNeighbour(fitness: seq<real>, i: nat, maximise: bool): (b: nat)
    requires i < |fitness|
    ensures b == LeftOf(i, |fitness|) || b == RightOf(i, |fitness|)
    ensures !Better(fitness[LeftOf(i, |fitness|)], fitness[b], maximise)
    ensures !Better(fitness[RightOf(i, |fitness|)], fitness[b], maximise)
    ensures fitness[LeftOf(i, |fitness|)] == fitness[RightOf(i, |fitness|)] ==> b == LeftOf(i, |fitness|)
    ensures Better(fitness[RightOf(i, |fitness|)], fitness[LeftOf(i, |fitness|)], maximise) ==> b == RightOf(i, |fitness|)
  {
    var left := LeftOf(i, |fitness|);
    var right := RightOf(i, |fitness|);
    if Better(fitness[right], fitness[left], maximise) then right else left
  }

  // ---------------------------------------------------------------------
  // One dimension, one fly, one pass: the specifications
  // ---------------------------------------------------------------------

  /** The draws behind the update of one dimension of one fly. */
  datatype Step =
    | Disturbed(draw: real)           // draw < disturbance: resampled within the bounds
    | Pulled(draw: real, r: real)      // the pulled value lies within the bounds and is kept
    | Repaired(draw: real, r: real)    // the pulled value left the bounds and was resampled

  /** The pulled value: the neighbour's coordinate plus r times the gap from the fly to the elite. */
  function Pull(neighbour: real, elite: real, current: real, r: real): real
  {
    neighbour + r * (elite - current)
  }

  predicate StepOutcome(step: Step, current: real, neighbour: real, elite: real,
                        lo: real, hi: real, disturbance: real, updated: real)
  {
    match step
    case Disturbed(draw) =>
      0.0 <= draw < 1.0 && draw < disturbance && lo <= updated <= hi
    case Pulled(draw, r) =>
      && 0.0 <= draw < 1.0 && !(draw < disturbance) && 0.0 <= r < 1.0
      && lo <= Pull(neighbour, elite, current, r) <= hi
      && updated == Pull(neighbour, elite, current, r)
    case Repaired(draw, r) =>
      && 0.0 <= draw < 1.0 && !(draw < disturbance) && 0.0 <= r < 1.0
      && !(lo <= Pull(neighbour, elite, current, r) <= hi)
      && lo <= updated <= hi
  }

  /** Every dimension of a fly updated independently, from the given rows. */
  ghost predicate RowOutcome(steps: seq<Step>, current: seq<real>, neighbour: seq<real>, elite: seq<real>,
                             lower: seq<real>, upper: seq<real>, disturbance: real, updated: seq<real>)
  {
    && |steps| == |current| == |neighbour| == |elite| == |lower| == |upper| == |updated|
    && forall d :: 0 <= d < |lower| ==>
         StepOutcome(steps[d], current[d], neighbour[d], elite[d], lower[d], upper[d], disturbance, updated[d])
  }

  /**
   * Fly i's turn in the pass: the elite stays as it is; any other fly moves
   * against its best neighbour and the elite, as they stand in `pre`; no other
   * fly changes.
   */
  ghost predicate FlyTransition(pre: seq<seq<real>>, post: seq<seq<real>>, i: nat, elite: nat,
                                fitness: seq<real>, lower: seq<real>, upper: seq<real>,
                                disturbance: real, maximise: bool, steps: seq<Step>)
  {
    && |pre| == |post| == |fitness|
    && i < |pre| && elite < |pre|
    && (forall j :: 0 <= j < |pre| && j != i ==> post[j] == pre[j])
    && (i == elite ==> post[i] == pre[i])
    && (i != elite ==>
          RowOutcome(steps, pre[i], pre[BestNeighbour(fitness, i, maximise)], pre[elite],
                     lower, upper, disturbance, post[i]))
  }

  /** A whole update pass, fly by fly in index order, against a frozen fitness vector. */
  ghost predicate PassTrace(states: seq<seq<seq<real>>>, moves: seq<seq<Step>>, fitness: seq<real>, elite: nat,
                            lower: seq<real>, upper: seq<real>, disturbance: real, maximise: bool)
  {
    && |states| == |fitness| + 1 && |moves| == |fitness|
    && elite < |fitness|
    && (forall k :: 0 <= k <= |fitness| ==> |states[k]| == |fitness|)
    && (forall k :: 0 <= k < |fitness| ==>
          FlyTransition(states[k], states[k + 1], k, elite, fitness, lower, upper, disturbance, maximise, moves[k]))
  }

  ghost predicate InBounds(row: seq<real>, lower: seq<real>, upper: seq<real>)
  {
    && |row| == |lower| == |upper|
    && forall d :: 0 <= d < |row| ==> lower[d] <= row[d] <= upper[d]
  }

  ghost predicate BoundsOrdered(lower: seq<real>, upper: seq<real>)
  {
    |lower| == |upper| && forall d :: 0 <= d < |lower| ==> lower[d] <= upper[d]
  }

  // ---------------------------------------------------------------------
  // The population in the heap
  // ---------------------------------------------------------------------

  ghost function Rows(flies: array<array<real>>): set<array<real>>
    reads flies
  {
    set i | 0 <= i < flies.Length :: flies[i]
  }

  /** Every row has `dimensions` entries and no two flies share a row. */
  ghost predicate RowsValid(flies: array<array<real>>, dimensions: nat)
    reads flies
  {
    && (forall i :: 0 <= i < flies.Length ==> flies[i].Length == dimensions)
    && (forall i, j :: 0 <= i < j < flies.Length ==> flies[i] != flies[j])
  }

  ghost function Population(flies: array<array<real>>): (pop: seq<seq<real>>)
    reads flies, Rows(flies)
    ensures |pop| == flies.Length
    ensures forall i :: 0 <= i < flies.Length ==> pop[i] == flies[i][..]
  {
    seq(flies.Length, i requires 0 <= i < flies.Length reads flies, Rows(flies) => flies[i][..])
  }

  // ---------------------------------------------------------------------
  // Construction: a population x dimensions matrix of uniform draws
  // ---------------------------------------------------------------------

  /** np.full(n, x): the scalar bound x repeated over n dimensions. */
  function Full(n: nat, x: real): (r: seq<real>)
    ensures |r| == n && forall d :: 0 <= d < n ==> r[d] == x
  {
    seq(n, _ => x)
  }

  /** One fresh row of uniform draws, dimension d within [lower[d], upper[d]]. */
  method DrawRow(lower: seq<real>, upper: seq<real>, rng: Rng) returns (row: array<real>)
    requires BoundsOrdered(lower, upper) && rng.Valid()
    modifies rng
    ensures rng.Valid() && fresh(row) && row.Length == |lower|
    ensures InBounds(row[..], lower, upper)
  {
    row := new real[|lower|];
    for d := 0 to |lower|
      invariant rng.Valid()
      invariant forall e :: 0 <= e < d ==> lower[e] <= row[e] <= upper[e]
    {
      row[d] := rng.Uniform(lower[d], upper[d]);
    }
  }

  /** `population` fresh, distinct rows of uniform draws within the bounds. */
  method DrawPopulation(population: nat, lower: seq<real>, upper: seq<real>, rng: Rng)
      returns (rows: seq<array<real>>)
    requires BoundsOrdered(lower, upper) && rng.Valid()
    modifies rng
    ensures rng.Valid() && |rows| == population
    ensures forall i :: 0 <= i < population ==> fresh(rows[i]) && rows[i].Length == |lower|
    ensures forall i, j :: 0 <= i < j < population ==> rows[i] != rows[j]
    ensures forall i :: 0 <= i < population ==> InBounds(rows[i][..], lower, upper)
  {
    rows := [];
    for i := 0 to population
      invariant rng.Valid() && |rows| == i
      invariant forall k :: 0 <= k < i ==> fresh(rows[k]) && rows[k].Length == |lower|
      invariant forall a, b :: 0 <= a < b < i ==> rows[a] != rows[b]
      invariant forall k :: 0 <= k < i ==> InBounds(rows[k][..], lower, upper)
    {
      var row := DrawRow(lower, upper, rng);
      rows := rows + [row];
    }
  }

  // ---------------------------------------------------------------------
  // The update loops of run()
  // ---------------------------------------------------------------------

  /**
   * The body of the innermost loop of run(): update dimension d of fly i,
   * either by a disturbance resample or by the pull towards the neighbour and
   * the elite, resampled when it leaves the bounds. Only flies[i][d] changes.
   */
  method MoveDimension(flies: array<array<real>>, i: nat, d: nat, bestN: nat, elite: nat,
                       lo: real, hi: real, disturbance: real, rng: Rng) returns (ghost step: Step)
    requires i < flies.Length && bestN < flies.Length && elite < flies.Length
    requires d < flies[i].Length && d < flies[bestN].Length && d < flies[elite].Length
    requires lo <= hi && rng.Valid()
    modifies flies[i], rng
    ensures rng.Valid()
    ensures StepOutcome(step, old(flies[i][d]), old(flies[bestN][d]), old(flies[elite][d]),
                        lo, hi, disturbance, flies[i][d])
    ensures forall e :: 0 <= e < flies[i].Length && e != d ==> flies[i][e] == old(flies[i][e])
  {
    var draw := rng.Rand();
    if draw < disturbance {
      flies[i][d] := rng.Uniform(lo, hi);
      step := Disturbed(draw);
      return;
    }
    var r := rng.Rand();
    flies[i][d] := flies[bestN][d] + r * (flies[elite][d] - flies[i][d]);
    if !(lo <= flies[i][d] <= hi) {
      flies[i][d] := rng.Uniform(lo, hi);
      step := Repaired(draw, r);
    } else {
      step := Pulled(draw, r);
    }
  }

  /** The loop over the dimensions of one non-elite fly. */
  method MoveFly(flies: array<array<real>>, i: nat, bestN: nat, elite: nat,
                 lower: seq<real>, upper: seq<real>, disturbance: real, rng: Rng) returns (ghost steps: seq<Step>)
    requires RowsValid(flies, |lower|) && BoundsOrdered(lower, upper)
    requires i < flies.Length && bestN < flies.Length && elite < flies.Length
    requires rng.Valid()
    modifies flies[i], rng
    ensures rng.Valid()
    ensures RowOutcome(steps, old(flies[i][..]), old(flies[bestN][..]), old(flies[elite][..]),
                       lower, upper, disturbance, flies[i][..])
  {
    steps := [];
    for d := 0 to |lower|
      invariant rng.Valid() && |steps| == d
      invariant forall e :: 0 <= e < d ==>
                  StepOutcome(steps[e], old(flies[i][e]), old(flies[bestN][e]), old(flies[elite][e]),
                              lower[e], upper[e], disturbance, flies[i][e])
      invariant forall e :: d <= e < |lower| ==> flies[i][e] == old(flies[i][e])
      invariant forall e :: d <= e < |lower| ==>
                  flies[bestN][e] == old(flies[bestN][e]) && flies[elite][e] == old(flies[elite][e])
    {
      var step := MoveDimension(flies, i, d, bestN, elite, lower[d], upper[d], disturbance, rng);
      steps := steps + [step];
    }
  }

  /**
   * One update pass of run(): for every fly but the elite, in index order,
   * pick the better ring neighbour from the frozen fitness vector and move.
   */
  method UpdatePass(flies: array<array<real>>, fitness: seq<real>, elite: nat,
                    lower: seq<real>, upper: seq<real>, disturbance: real, rng: Rng, maximise: bool)
      returns (ghost states: seq<seq<seq<real>>>, ghost moves: seq<seq<Step>>)
    requires RowsValid(flies, |lower|) && BoundsOrdered(lower, upper)
    requires |fitness| == flies.Length && elite < flies.Length && rng.Valid()
    modifies Rows(flies), rng
    ensures rng.Valid()
    ensures PassTrace(states, moves, fitness, elite, lower, upper, disturbance, maximise)
    ensures states[0] == old(Population(flies)) && states[|fitness|] == Population(flies)
  {
    states := [Population(flies)];
    moves := [];
    for i := 0 to flies.Length
      invariant rng.Valid() && |states| == i + 1 && |moves| == i
      invariant states[0] == old(Population(flies))
      invariant states[i] == Population(flies)
      invariant forall k :: 0 <= k <= i ==> |states[k]| == flies.Length
      invariant forall k :: 0 <= k < i ==>
                  FlyTransition(states[k], states[k + 1], k, elite, fitness, lower, upper, disturbance, maximise, moves[k])
    {
      ghost var pre := Population(flies);
      ghost var steps: seq<Step> := [];
      if i != elite {
        var bestN := BestNeighbour(fitness, i, maximise);
        steps := MoveFly(flies, i, bestN, elite, lower, upper, disturbance, rng);
      }
      ghost var post := Population(flies);
      assert forall j :: 0 <= j < flies.Length && j != i ==> post[j] == pre[j];
      assert FlyTransition(pre, post, i, elite, fitness, lower, upper, disturbance, maximise, steps);
      states := states + [post];
      moves := moves + [steps];
    }
  }

  // ---------------------------------------------------------------------
  // What a pass does, proved from its trace
  // ---------------------------------------------------------------------

  /**
   * When fly k's turn comes, every fly before it holds its moved position and
   * every fly from k on still holds its position from the start of the pass.
   */
  lemma {:induction false} RowHistory(states: seq<seq<seq<real>>>, moves: seq<seq<Step>>, fitness: seq<real>, elite: nat,
                                      lower: seq<real>, upper: seq<real>, disturbance: real, maximise: bool, k: nat)
    requires PassTrace(states, moves, fitness, elite, lower, upper, disturbance, maximise)
    requires k <= |fitness|
    ensures |states[k]| == |fitness|
    ensures forall j :: 0 <= j < |fitness| ==> states[k][j] == if j < k then states[j + 1][j] else states[0][j]
    decreases k
  {
    if k > 0 {
      RowHistory(states, moves, fitness, elite, lower, upper, disturbance, maximise, k - 1);
      assert FlyTransition(states[k - 1], states[k], k - 1, elite, fitness, lower, upper, disturbance, maximise, moves[k - 1]);
    }
  }

  /** Elitism: the elite's row is the same after the pass as before it. */
  lemma EliteKept(states: seq<seq<seq<real>>>, moves: seq<seq<Step>>, fitness: seq<real>, elite: nat,
                  lower: seq<real>, upper: seq<real>, disturbance: real, maximise: bool)
    requires PassTrace(states, moves, fitness, elite, lower, upper, disturbance, maximise)
    ensures forall k :: 0 <= k <= |fitness| ==> |states[k]| == |fitness| && states[k][elite] == states[0][elite]
  {
    forall k | 0 <= k <= |fitness|
      ensures |states[k]| == |fitness| && states[k][elite] == states[0][elite]
    {
      RowHistory(states, moves, fitness, elite, lower, upper, disturbance, maximise, k);
      RowHistory(states, moves, fitness, elite, lower, upper, disturbance, maximise, elite);
      assert FlyTransition(states[elite], states[elite + 1], elite, elite, fitness, lower, upper, disturbance, maximise, moves[elite]);
    }
  }

  /**
   * Fly k's move in terms of the population at the start of the pass: its own
   * row and the elite's are read as they were, its best neighbour b as moved
   * already when b < k, and as it was otherwise.
   */
  lemma NeighbourReadIsCurrent(states: seq<seq<seq<real>>>, moves: seq<seq<Step>>, fitness: seq<real>, elite: nat,
                               lower: seq<real>, upper: seq<real>, disturbance: real, maximise: bool, k: nat)
    requires PassTrace(states, moves, fitness, elite, lower, upper, disturbance, maximise)
    requires k < |fitness| && k != elite
    ensures var b := BestNeighbour(fitness, k, maximise);
            RowOutcome(moves[k], states[0][k], if b < k then states[b + 1][b] else states[0][b], states[0][elite],
                       lower, upper, disturbance, states[k + 1][k])
  {
    RowHistory(states, moves, fitness, elite, lower, upper, disturbance, maximise, k);
    EliteKept(states, moves, fitness, elite, lower, upper, disturbance, maximise);
    assert FlyTransition(states[k], states[k + 1], k, elite, fitness, lower, upper, disturbance, maximise, moves[k]);
  }

  /** Every row the pass writes lies within the bounds, in every dimension. */
  lemma WrittenWithinBounds(states: seq<seq<seq<real>>>, moves: seq<seq<Step>>, fitness: seq<real>, elite: nat,
                            lower: seq<real>, upper: seq<real>, disturbance: real, maximise: bool)
    requires PassTrace(states, moves, fitness, elite, lower, upper, disturbance, maximise)
    ensures |states[|fitness|]| == |fitness|
    ensures forall j :: 0 <= j < |fitness| && j != elite ==> InBounds(states[|fitness|][j], lower, upper)
  {
    RowHistory(states, moves, fitness, elite, lower, upper, disturbance, maximise, |fitness|);
    forall j | 0 <= j < |fitness| && j != elite
      ensures InBounds(states[|fitness|][j], lower, upper)
    {
      var t := FlyTransition(states[j], states[j + 1], j, elite, fitness, lower, upper, disturbance, maximise, moves[j]);
      assert t;
      var s := moves[j];
      forall d | 0 <= d < |lower|
        ensures lower[d] <= states[j + 1][j][d] <= upper[d]
      {
        var b := BestNeighbour(fitness, j, maximise);
        assert StepOutcome(s[d], states[j][j][d], states[j][b][d], states[j][elite][d],
                           lower[d], upper[d], disturbance, states[j + 1][j][d]);
      }
    }
  }

  /** A population within the bounds stays within the bounds through a pass. */
  lemma PassKeepsBounds(states: seq<seq<seq<real>>>, moves: seq<seq<Step>>, fitness: seq<real>, elite: nat,
                        lower: seq<real>, upper: seq<real>, disturbance: real, maximise: bool)
    requires PassTrace(states, moves, fitness, elite, lower, upper, disturbance, maximise)
    requires |states[0]| == |fitness|
    requires forall j :: 0 <= j < |fitness| ==> InBounds(states[0][j], lower, upper)
    ensures |states[|fitness|]| == |fitness|
    ensures forall j :: 0 <= j < |fitness| ==> InBounds(states[|fitness|][j], lower, upper)
  {
    WrittenWithinBounds(states, moves, fitness, elite, lower, upper, disturbance, maximise);
    EliteKept(states, moves, fitness, elite, lower, upper, disturbance, maximise);
  }
}

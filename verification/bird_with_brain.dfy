/** The evolvable bird of src/birdWithBrain.ts: a bird (`body`) steered by a 4-5-1 network
    (`brain`), with the genome operations the genetic algorithm calls. `BirdWithBrain
    extends Bird` in the source; here the bird is a `body` field it owns. */
module BirdsWithBrains {
  import opened Utils
  import opened Matrices
  import opened NeuralNetworks
  import opened Birds

  /** Topology of every bird's brain: `new NeuralNetwork(4, 5, 1)`. */
  const INPUT_NODES: nat := 4
  const HIDDEN_NODES: nat := 5
  const OUTPUT_NODES: nat := 1

  /** The model has the shapes of a bird's brain. */
  predicate IsGenome(m: Model)
  {
    Fits(m, INPUT_NODES, HIDDEN_NODES, OUTPUT_NODES)
  }

  /** Two grids with the same number of rows and the same row lengths. */
  predicate SameGrid(a: seq<seq<real>>, b: seq<seq<real>>)
  {
    |a| == |b| && forall i :: 0 <= i < |a| ==> |a[i]| == |b[i]|
  }

  predicate Congruent(a: Model, b: Model)
  {
    SameGrid(a.weights_ih, b.weights_ih) && SameGrid(a.weights_ho, b.weights_ho) &&
    SameGrid(a.bias_h, b.bias_h) && SameGrid(a.bias_o, b.bias_o)
  }

  lemma GenomesAreCongruent(a: Model, b: Model)
    requires IsGenome(a) && IsGenome(b)
    ensures Congruent(a, b)
  {
  }

  /** A model shaped like a genome is a genome. */
  lemma CongruentToGenome(a: Model, b: Model)
    requires IsGenome(a) && Congruent(b, a)
    ensures IsGenome(b)
  {
  }

  /** Every entry of the grid lies in [lo, hi]. */
  predicate GridWithin(d: seq<seq<real>>, lo: real, hi: real)
  {
    forall i, j :: 0 <= i < |d| && 0 <= j < |d[i]| ==> lo <= d[i][j] <= hi
  }

  predicate Within(m: Model, lo: real, hi: real)
  {
    GridWithin(m.weights_ih, lo, hi) && GridWithin(m.weights_ho, lo, hi) &&
    GridWithin(m.bias_h, lo, hi) && GridWithin(m.bias_o, lo, hi)
  }

  /** Every entry of the grid is strictly below hi. */
  predicate GridBelow(d: seq<seq<real>>, hi: real)
  {
    forall i, j :: 0 <= i < |d| && 0 <= j < |d[i]| ==> d[i][j] < hi
  }

  predicate Below(m: Model, hi: real)
  {
    GridBelow(m.weights_ih, hi) && GridBelow(m.weights_ho, hi) &&
    GridBelow(m.bias_h, hi) && GridBelow(m.bias_o, hi)
  }

  // ---------------------------------------------------------------- crossover

  /** Elementwise (a + b) * 0.5. */
  function MeanGrid(a: seq<seq<real>>, b: seq<seq<real>>): (r: seq<seq<real>>)
    requires SameGrid(a, b)
    ensures SameGrid(r, a)
  {
    seq(|a|, i requires 0 <= i < |a| =>
      seq(|a[i]|, j requires 0 <= j < |a[i]| => (a[i][j] + b[i][j]) * 0.5))
  }

  /** The child's model in `crossover`: each of the four matrices averaged. */
  function Average(a: Model, b: Model): (r: Model)
    requires Congruent(a, b)
    ensures Congruent(r, a)
  {
    Model(MeanGrid(a.weights_ih, b.weights_ih), MeanGrid(a.weights_ho, b.weights_ho),
          MeanGrid(a.bias_h, b.bias_h), MeanGrid(a.bias_o, b.bias_o))
  }

  lemma MeanGridCommutes(a: seq<seq<real>>, b: seq<seq<real>>)
    requires SameGrid(a, b)
    ensures MeanGrid(a, b) == MeanGrid(b, a)
  {
    forall i | 0 <= i < |a| ensures MeanGrid(a, b)[i] == MeanGrid(b, a)[i] {
    }
  }

  lemma MeanGridSelf(a: seq<seq<real>>)
    ensures MeanGrid(a, a) == a
  {
    forall i | 0 <= i < |a| ensures MeanGrid(a, a)[i] == a[i] {
    }
  }

  lemma MeanGridWithin(a: seq<seq<real>>, b: seq<seq<real>>, lo: real, hi: real)
    requires SameGrid(a, b) && GridWithin(a, lo, hi) && GridWithin(b, lo, hi)
    ensures GridWithin(MeanGrid(a, b), lo, hi)
  {
    forall i, j | 0 <= i < |a| && 0 <= j < |a[i]|
      ensures lo <= MeanGrid(a, b)[i][j] <= hi
    {
      assert lo <= a[i][j] <= hi && lo <= b[i][j] <= hi;
    }
  }

  /** Crossover does not depend on which parent it is called on. */
  lemma {:induction false} AverageCommutes(a: Model, b: Model)
    requires Congruent(a, b)
    ensures Average(a, b) == Average(b, a)
  {
    MeanGridCommutes(a.weights_ih, b.weights_ih);
    MeanGridCommutes(a.weights_ho, b.weights_ho);
    MeanGridCommutes(a.bias_h, b.bias_h);
    MeanGridCommutes(a.bias_o, b.bias_o);
  }

  /** Crossing a model with itself gives it back. */
  lemma {:induction false} AverageSelf(a: Model)
    requires Congruent(a, a)
    ensures Average(a, a) == a
  {
    MeanGridSelf(a.weights_ih);
    MeanGridSelf(a.weights_ho);
    MeanGridSelf(a.bias_h);
    MeanGridSelf(a.bias_o);
  }

  /** A child of two parents whose weights lie in [lo, hi] has its weights there too. */
  lemma {:induction false} AverageWithin(a: Model, b: Model, lo: real, hi: real)
    requires Congruent(a, b) && Within(a, lo, hi) && Within(b, lo, hi)
    ensures Within(Average(a, b), lo, hi)
  {
    MeanGridWithin(a.weights_ih, b.weights_ih, lo, hi);
    MeanGridWithin(a.weights_ho, b.weights_ho, lo, hi);
    MeanGridWithin(a.bias_h, b.bias_h, lo, hi);
    MeanGridWithin(a.bias_o, b.bias_o, lo, hi);
  }

  /** `set(0)`, `add(a)`, `add(b)`, `multiply(0.5)` on a matrix of the parents' shape
      leaves exactly the parents' mean in it. */
  lemma CrossoverSteps(c: Matrix, a: Matrix, b: Matrix)
    requires Matrices.Valid(c) && Matrices.Valid(a) && Matrices.Valid(b)
    requires SameShape(c, a) && SameShape(a, b)
    ensures Scale(Add(Add(Fill(c, 0.0), a), b), 0.5) == c.(data := MeanGrid(a.data, b.data))
  {
    var r := Scale(Add(Add(Fill(c, 0.0), a), b), 0.5);
    forall i | 0 <= i < c.rows ensures r.data[i] == MeanGrid(a.data, b.data)[i] {
    }
  }

  // ---------------------------------------------------------------- mutation

  /** Random values for one mutation: per weight, the uniform draw `coin` compared with the
      rate and the gaussian `noise` added when it is below. */
  datatype MutationDraws = MutationDraws(coins: Model, noise: Model)

  /** The draws fit a bird's brain and every coin lies in [0, 1), as `p.random(1)` does. */
  predicate FairDraws(d: MutationDraws)
  {
    IsGenome(d.coins) && IsGenome(d.noise) && Within(d.coins, 0.0, 1.0) && Below(d.coins, 1.0)
  }

  /** One entry of `mutate`: replaced by clamp(v + noise, -1, 1) when the coin is below
      the rate, unchanged otherwise. */
  function MutateValue(v: real, rate: real, coin: real, noise: real): real
  {
    if coin < rate then Clamp(v + noise, -1.0, 1.0) else v
  }

  function MutateGrid(d: seq<seq<real>>, rate: real, coins: seq<seq<real>>, noise: seq<seq<real>>): (r: seq<seq<real>>)
    requires SameGrid(d, coins) && SameGrid(d, noise)
    ensures SameGrid(r, d)
  {
    seq(|d|, i requires 0 <= i < |d| =>
      seq(|d[i]|, j requires 0 <= j < |d[i]| => MutateValue(d[i][j], rate, coins[i][j], noise[i][j])))
  }

  /** The brain's model after `mutate(rate)` with the given draws. */
  function Mutated(m: Model, rate: real, draws: MutationDraws): (r: Model)
    requires Congruent(m, draws.coins) && Congruent(m, draws.noise)
    ensures Congruent(r, m)
  {
    Model(
      MutateGrid(m.weights_ih, rate, draws.coins.weights_ih, draws.noise.weights_ih),
      MutateGrid(m.weights_ho, rate, draws.coins.weights_ho, draws.noise.weights_ho),
      MutateGrid(m.bias_h, rate, draws.coins.bias_h, draws.noise.bias_h),
      MutateGrid(m.bias_o, rate, draws.coins.bias_o, draws.noise.bias_o))
  }

  lemma MutateGridRateZero(d: seq<seq<real>>, coins: seq<seq<real>>, noise: seq<seq<real>>)
    requires SameGrid(d, coins) && SameGrid(d, noise) && GridWithin(coins, 0.0, 1.0)
    ensures MutateGrid(d, 0.0, coins, noise) == d
  {
    forall i | 0 <= i < |d| ensures MutateGrid(d, 0.0, coins, noise)[i] == d[i] {
      forall j | 0 <= j < |d[i]| ensures MutateGrid(d, 0.0, coins, noise)[i][j] == d[i][j] {
        assert coins[i][j] >= 0.0;
      }
    }
  }

  /** With rate 0 no coin (all at least 0) is below the rate: nothing changes. */
  lemma {:induction false} MutateRateZero(m: Model, draws: MutationDraws)
    requires Congruent(m, draws.coins) && Congruent(m, draws.noise) && Within(draws.coins, 0.0, 1.0)
    ensures Mutated(m, 0.0, draws) == m
  {
    MutateGridRateZero(m.weights_ih, draws.coins.weights_ih, draws.noise.weights_ih);
    MutateGridRateZero(m.weights_ho, draws.coins.weights_ho, draws.noise.weights_ho);
    MutateGridRateZero(m.bias_h, draws.coins.bias_h, draws.noise.bias_h);
    MutateGridRateZero(m.bias_o, draws.coins.bias_o, draws.noise.bias_o);
  }

  /** Every entry of a mutated grid is either the old entry, or the clamped perturbation,
      which lies in [-1, 1]; it is the latter exactly when the coin is below the rate. */
  lemma MutateGridEntries(d: seq<seq<real>>, rate: real, coins: seq<seq<real>>, noise: seq<seq<real>>)
    requires SameGrid(d, coins) && SameGrid(d, noise)
    ensures forall i, j :: 0 <= i < |d| && 0 <= j < |d[i]| ==>
      var r := MutateGrid(d, rate, coins, noise)[i][j];
      (coins[i][j] < rate ==> r == Clamp(d[i][j] + noise[i][j], -1.0, 1.0) && -1.0 <= r <= 1.0) &&
      (coins[i][j] >= rate ==> r == d[i][j])
  {
  }

  /** Grid r has d's shape and every entry of it is clamp(d + noise, -1, 1). */
  predicate GridPerturbed(r: seq<seq<real>>, d: seq<seq<real>>, noise: seq<seq<real>>)
  {
    SameGrid(r, d) && SameGrid(d, noise) &&
    forall i, j :: 0 <= i < |d| && 0 <= j < |d[i]| ==> r[i][j] == Clamp(d[i][j] + noise[i][j], -1.0, 1.0)
  }

  /** Every weight and bias of r is the clamped perturbation of the one in m. */
  predicate Perturbed(r: Model, m: Model, noise: Model)
  {
    GridPerturbed(r.weights_ih, m.weights_ih, noise.weights_ih) &&
    GridPerturbed(r.weights_ho, m.weights_ho, noise.weights_ho) &&
    GridPerturbed(r.bias_h, m.bias_h, noise.bias_h) &&
    GridPerturbed(r.bias_o, m.bias_o, noise.bias_o)
  }

  /** When every coin is below the rate, every entry is replaced by its clamped
      perturbation and the whole grid lies in [-1, 1]. */
  lemma MutateGridAll(d: seq<seq<real>>, rate: real, coins: seq<seq<real>>, noise: seq<seq<real>>)
    requires SameGrid(d, coins) && SameGrid(d, noise)
    requires GridBelow(coins, rate)
    ensures GridPerturbed(MutateGrid(d, rate, coins, noise), d, noise)
    ensures GridWithin(MutateGrid(d, rate, coins, noise), -1.0, 1.0)
  {
    forall i, j | 0 <= i < |d| && 0 <= j < |d[i]|
      ensures MutateGrid(d, rate, coins, noise)[i][j] == Clamp(d[i][j] + noise[i][j], -1.0, 1.0)
      ensures -1.0 <= MutateGrid(d, rate, coins, noise)[i][j] <= 1.0
    {
      assert coins[i][j] < rate;
    }
  }

  /** With rate 1 every coin of [0, 1) is below it: every weight and bias is replaced by
      clamp(v + noise, -1, 1), so the mutated model lies in [-1, 1]. */
  lemma {:induction false} MutateRateOne(m: Model, draws: MutationDraws)
    requires Congruent(m, draws.coins) && Congruent(m, draws.noise)
    requires Below(draws.coins, 1.0)
    ensures Perturbed(Mutated(m, 1.0, draws), m, draws.noise)
    ensures Within(Mutated(m, 1.0, draws), -1.0, 1.0)
  {
    MutateGridAll(m.weights_ih, 1.0, draws.coins.weights_ih, draws.noise.weights_ih);
    MutateGridAll(m.weights_ho, 1.0, draws.coins.weights_ho, draws.noise.weights_ho);
    MutateGridAll(m.bias_h, 1.0, draws.coins.bias_h, draws.noise.bias_h);
    MutateGridAll(m.bias_o, 1.0, draws.coins.bias_o, draws.noise.bias_o);
  }

  // ---------------------------------------------------------------- the bird

  class BirdWithBrain {
    const body: Bird
    const brain: NeuralNetwork
    var fitness: real

    /** The brain is a well-shaped 4-5-1 network and the canvas is not empty. */
    predicate Valid()
      reads brain
    {
      brain.Valid() && brain.input_nodes == INPUT_NODES && brain.hidden_nodes == HIDDEN_NODES &&
      brain.output_nodes == OUTPUT_NODES && body.height > 0.0 && body.width > 0.0
    }

    /** `new BirdWithBrain(p)`; `init` holds the brain's random initial weights. */
    constructor (height: real, width: real, init: Model)
      requires IsGenome(init) && height > 0.0 && width > 0.0
      ensures Valid() && fresh(body) && fresh(brain)
      ensures body.height == height && body.width == width
      ensures body.y == height / 2.0 && body.x == 64.0 && body.velocity == 0.0
      ensures body.distance == 0.0 && !body.disabled && body.AtStart()
      ensures brain.SaveModel() == init && fitness == 0.0
    {
      body := new Bird(height, width);
      brain := new NeuralNetwork(INPUT_NODES, HIDDEN_NODES, OUTPUT_NODES, init);
      fitness := 0.0;
    }

    /** The network's input for a bird in motion m facing a pipe at pipeX whose upper
        part ends at pipeTop: the gap's height above the bird, the pipe's horizontal
        distance, the velocity, each mapped to about [0, 1], and a constant 1. */
    function JumpInputs(pipeX: real, pipeTop: real, m: Motion): (inputs: seq<real>)
      requires body.height > 0.0 && body.width > 0.0
      ensures |inputs| == INPUT_NODES && inputs[3] == 1.0
      ensures inputs[0] == (pipeTop - m.y) / (body.height / 2.0)
      ensures inputs[1] == (pipeX - body.x) / (body.width / 2.0)
      ensures inputs[2] == (m.velocity + 10.0) / 20.0
    {
      [ Remap(pipeTop - m.y, 0.0, body.height / 2.0, 0.0, 1.0),
        Remap(pipeX - body.x, 0.0, body.width / 2.0, 0.0, 1.0),
        Remap(m.velocity, -10.0, 10.0, 0.0, 1.0),
        1.0 ]
    }

    /** The decision rule of `shouldJump` for a bird in motion m. */
    predicate ShouldJumpAt(exp: ExpLike, pipeX: real, pipeTop: real, m: Motion)
      reads brain
      requires Valid()
    {
      brain.Feedforward(exp, JumpInputs(pipeX, pipeTop, m))[0] > 0.5
    }

    /** `shouldJump(index, pipeX, pipeTop)` for the bird as it is now. */
    predicate ShouldJump(exp: ExpLike, pipeX: real, pipeTop: real)
      reads brain, body
      requires Valid()
    {
      ShouldJumpAt(exp, pipeX, pipeTop, body.State())
    }

    /** The bird jumps exactly when the output neuron's weighted input is positive: the
        0.5 threshold on the sigmoid is a linear test on the hidden layer. */
    lemma ShouldJumpIsLinearTest(exp: ExpLike, pipeX: real, pipeTop: real, m: Motion)
      requires Valid()
      ensures IsGrid(brain.weights_ih.data, HIDDEN_NODES, INPUT_NODES)
      ensures var hidden := Layer(exp, brain.weights_ih.data, brain.bias_h.data, JumpInputs(pipeX, pipeTop, m));
        ShouldJumpAt(exp, pipeX, pipeTop, m) <==>
          Dot(brain.weights_ho.data[0], hidden) + brain.bias_o.data[0][0] > 0.0
    {
      var inputs := JumpInputs(pipeX, pipeTop, m);
      brain.FeedforwardLayers(exp, inputs);
      var hidden := Layer(exp, brain.weights_ih.data, brain.bias_h.data, inputs);
      SigmoidAboveHalf(exp, Dot(brain.weights_ho.data[0], hidden) + brain.bias_o.data[0][0]);
    }

    /** `calcFitness(target)`: the distance becomes the fitness and is cleared; the target
        is not used. */
    method CalcFitness(target: real)
      modifies this`fitness, body`distance
      ensures fitness == old(body.distance) && body.distance == 0.0
    {
      fitness := body.distance;
      body.distance := 0.0;
    }

    /** `reset()`: its body is commented out, so it changes nothing (fitness included). */
    method Reset()
      ensures unchanged(this, body, brain)
    {
    }

    /** `crossover(partner)`: a new bird whose brain averages the parents' brains. The
        parents cannot change (the method modifies nothing that existed before). */
    method Crossover(partner: BirdWithBrain, seed: Model) returns (child: BirdWithBrain)
      requires Valid() && partner.Valid() && IsGenome(seed)
      ensures fresh(child) && fresh(child.body) && fresh(child.brain) && child.Valid()
      ensures child.body.height == body.height && child.body.width == body.width
      ensures child.body.AtStart()
      ensures child.brain.SaveModel() == Average(brain.SaveModel(), partner.brain.SaveModel())
    {
      child := new BirdWithBrain(body.height, body.width, seed);
      var kid := child.brain;

      CrossoverSteps(kid.weights_ih, brain.weights_ih, partner.brain.weights_ih);
      kid.weights_ih := Fill(kid.weights_ih, 0.0);
      kid.weights_ih := Add(kid.weights_ih, brain.weights_ih);
      kid.weights_ih := Add(kid.weights_ih, partner.brain.weights_ih);
      kid.weights_ih := Scale(kid.weights_ih, 0.5);

      CrossoverSteps(kid.weights_ho, brain.weights_ho, partner.brain.weights_ho);
      kid.weights_ho := Fill(kid.weights_ho, 0.0);
      kid.weights_ho := Add(kid.weights_ho, brain.weights_ho);
      kid.weights_ho := Add(kid.weights_ho, partner.brain.weights_ho);
      kid.weights_ho := Scale(kid.weights_ho, 0.5);

      CrossoverSteps(kid.bias_h, brain.bias_h, partner.brain.bias_h);
      kid.bias_h := Fill(kid.bias_h, 0.0);
      kid.bias_h := Add(kid.bias_h, brain.bias_h);
      kid.bias_h := Add(kid.bias_h, partner.brain.bias_h);
      kid.bias_h := Scale(kid.bias_h, 0.5);

      CrossoverSteps(kid.bias_o, brain.bias_o, partner.brain.bias_o);
      kid.bias_o := Fill(kid.bias_o, 0.0);
      kid.bias_o := Add(kid.bias_o, brain.bias_o);
      kid.bias_o := Add(kid.bias_o, partner.brain.bias_o);
      kid.bias_o := Scale(kid.bias_o, 0.5);
    }

    /** `mutate(rate)` with the given draws: each weight and bias is passed through
        MutateValue; the shapes are kept. */
    method Mutate(rate: real, draws: MutationDraws)
      requires Valid() && IsGenome(draws.coins) && IsGenome(draws.noise)
      modifies brain
      ensures Valid()
      ensures brain.SaveModel() == Mutated(old(brain.SaveModel()), rate, draws)
    {
      GenomesAreCongruent(brain.SaveModel(), draws.coins);
      GenomesAreCongruent(brain.SaveModel(), draws.noise);
      brain.weights_ih := brain.weights_ih.(data :=
        MutateGrid(brain.weights_ih.data, rate, draws.coins.weights_ih, draws.noise.weights_ih));
      brain.weights_ho := brain.weights_ho.(data :=
        MutateGrid(brain.weights_ho.data, rate, draws.coins.weights_ho, draws.noise.weights_ho));
      brain.bias_h := brain.bias_h.(data :=
        MutateGrid(brain.bias_h.data, rate, draws.coins.bias_h, draws.noise.bias_h));
      brain.bias_o := brain.bias_o.(data :=
        MutateGrid(brain.bias_o.data, rate, draws.coins.bias_o, draws.noise.bias_o));
    }

    /** `getPhenotype()`: the brain's saved model. */
    function GetPhenotype(): (m: Model)
      reads brain
      requires Valid()
      ensures IsGenome(m)
    {
      brain.SaveModel()
    }
  }
}

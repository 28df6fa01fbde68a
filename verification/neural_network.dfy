/** The 3-layer feed-forward network of src/neuralnetwork.ts. `Math.exp` is not modelled:
    every function that needs it takes an `ExpLike` argument standing for it. */
module NeuralNetworks {
  import opened Matrices

  /** What the model needs to know about `Math.exp`: it is positive, and below 1 exactly
      on the negative reals. */
  type ExpLike = f: real -> real | forall x :: 0.0 < f(x) && (f(x) < 1.0 <==> x < 0.0)
    witness ExpStandIn

  /** A positive function that is below 1 exactly on the negatives (it only shows that
      ExpLike is inhabited). */
  function ExpStandIn(x: real): (r: real)
    ensures 0.0 < r && (r < 1.0 <==> x < 0.0)
  {
    if x < 0.0 then 1.0 / (1.0 - x) else 1.0 + x
  }

  /** sigmoid(x) = 1 / (1 + e^-x). */
  function Sigmoid(exp: ExpLike, x: real): (y: real)
    ensures 0.0 < y < 1.0
  {
    var e := exp(-x);
    assert 1.0 + e > 1.0;
    1.0 / (1.0 + e)
  }

  /** The sigmoid as the function `Matrix.map` applies. */
  function Activation(exp: ExpLike): real -> real
  {
    x => Sigmoid(exp, x)
  }

  /** The sigmoid crosses one half exactly at 0. */
  lemma SigmoidAboveHalf(exp: ExpLike, x: real)
    ensures Sigmoid(exp, x) > 0.5 <==> x > 0.0
  {
    var e := exp(-x);
    assert Sigmoid(exp, x) == 1.0 / (1.0 + e);
    assert e < 1.0 <==> -x < 0.0;
    if e < 1.0 {
      assert 1.0 / (1.0 + e) > 0.5;
    } else {
      assert 1.0 / (1.0 + e) <= 0.5;
    }
  }

  /** dsigmoid(y) = y (1 - y), the sigmoid's derivative written in terms of its value. */
  function DSigmoid(y: real): (d: real)
    ensures d == 0.25 - (y - 0.5) * (y - 0.5)
  {
    y * (1.0 - y)
  }

  /** On the sigmoid's range the derivative is positive and at most 1/4. */
  lemma DSigmoidRange(y: real)
    requires 0.0 < y < 1.0
    ensures 0.0 < DSigmoid(y) <= 0.25
  {
  }

  /** The four matrices' data as `saveModel` writes them out (the JSON record, before
      `JSON.stringify`). The same shape also carries one random draw per weight. */
  datatype Model = Model(
    weights_ih: seq<seq<real>>,
    weights_ho: seq<seq<real>>,
    bias_h: seq<seq<real>>,
    bias_o: seq<seq<real>>)

  /** The model's four grids have the shapes of an inputs-hidden-outputs network. */
  predicate Fits(m: Model, inputs: nat, hidden: nat, outputs: nat)
  {
    IsGrid(m.weights_ih, hidden, inputs) &&
    IsGrid(m.weights_ho, outputs, hidden) &&
    IsGrid(m.bias_h, hidden, 1) &&
    IsGrid(m.bias_o, outputs, 1)
  }

  /** One layer as a formula: node j is sigmoid(sum_i w[j][i] * v[i] + b[j][0]). */
  function Layer(exp: ExpLike, w: seq<seq<real>>, b: seq<seq<real>>, v: seq<real>): (out: seq<real>)
    requires IsGrid(w, |w|, |v|) && IsGrid(b, |w|, 1)
    ensures |out| == |w|
  {
    seq(|w|, j requires 0 <= j < |w| => Sigmoid(exp, Dot(w[j], v) + b[j][0]))
  }

  /** One layer computed with matrices, on a column c holding v, is the layer's formula. */
  lemma LayerOfColumn(exp: ExpLike, w: Matrix, b: Matrix, c: Matrix, v: seq<real>)
    requires Matrices.Valid(w) && Matrices.Valid(b) && Matrices.Valid(c)
    requires c.cols == 1 && w.cols == c.rows && b.rows == w.rows && b.cols == 1
    requires Column(c, 0) == v
    ensures IsGrid(w.data, |w.data|, |v|) && IsGrid(b.data, |w.data|, 1)
    ensures Column(Map(Add(Product(w, c), b), Activation(exp)), 0) == Layer(exp, w.data, b.data, v)
  {
    var sum := Add(Product(w, c), b);
    forall j | 0 <= j < w.rows
      ensures sum.data[j][0] == Dot(w.data[j], v) + b.data[j][0]
    {
    }
    ActivatedColumn(exp, w, b, sum, v);
  }

  /** The activated column of weighted sums is the layer. */
  lemma ActivatedColumn(exp: ExpLike, w: Matrix, b: Matrix, sum: Matrix, v: seq<real>)
    requires Matrices.Valid(w) && Matrices.Valid(b) && Matrices.Valid(sum)
    requires w.cols == |v| && b.rows == w.rows && b.cols == 1 && sum.rows == w.rows && sum.cols == 1
    requires forall j :: 0 <= j < w.rows ==> sum.data[j][0] == Dot(w.data[j], v) + b.data[j][0]
    ensures Column(Map(sum, Activation(exp)), 0) == Layer(exp, w.data, b.data, v)
  {
    var out := Map(sum, Activation(exp));
    var col := Column(out, 0);
    var layer := Layer(exp, w.data, b.data, v);
    hide Sigmoid;
    assert |col| == w.rows == |layer|;
    forall j | 0 <= j < w.rows
      ensures col[j] == layer[j]
    {
      var s := sum.data[j][0];
      assert col[j] == out.data[j][0] == Activation(exp)(s);
      assert Activation(exp)(s) == Sigmoid(exp, s);
      assert layer[j] == Sigmoid(exp, Dot(w.data[j], v) + b.data[j][0]);
    }
  }

  class NeuralNetwork {
    const input_nodes: nat
    const hidden_nodes: nat
    const output_nodes: nat
    var weights_ih: Matrix
    var weights_ho: Matrix
    var bias_h: Matrix
    var bias_o: Matrix
    const learning_rate: real

    /** Every matrix has the shape the topology gives it. */
    predicate Valid()
      reads this
    {
      Matrices.Valid(weights_ih) && weights_ih.rows == hidden_nodes && weights_ih.cols == input_nodes &&
      Matrices.Valid(weights_ho) && weights_ho.rows == output_nodes && weights_ho.cols == hidden_nodes &&
      Matrices.Valid(bias_h) && bias_h.rows == hidden_nodes && bias_h.cols == 1 &&
      Matrices.Valid(bias_o) && bias_o.rows == output_nodes && bias_o.cols == 1
    }

    /** `new NeuralNetwork(i, h, o)`; `init` holds the values `randomize()` draws. */
    constructor (input_nodes: nat, hidden_nodes: nat, output_nodes: nat, init: Model)
      requires Fits(init, input_nodes, hidden_nodes, output_nodes)
      ensures Valid()
      ensures this.input_nodes == input_nodes && this.hidden_nodes == hidden_nodes
      ensures this.output_nodes == output_nodes && learning_rate == 0.1
      ensures SaveModel() == init
    {
      this.input_nodes := input_nodes;
      this.hidden_nodes := hidden_nodes;
      this.output_nodes := output_nodes;
      weights_ih := Zero(hidden_nodes, input_nodes).(data := init.weights_ih);
      weights_ho := Zero(output_nodes, hidden_nodes).(data := init.weights_ho);
      bias_h := Zero(hidden_nodes, 1).(data := init.bias_h);
      bias_o := Zero(output_nodes, 1).(data := init.bias_o);
      learning_rate := 0.1;
    }

    /** The forward pass; it reads the weights and changes nothing. */
    function Feedforward(exp: ExpLike, input: seq<real>): (output: seq<real>)
      reads this
      requires Valid() && |input| == input_nodes
      ensures |output| == output_nodes
      ensures forall k :: 0 <= k < |output| ==> 0.0 < output[k] < 1.0
    {
      var inputs := FromArray(input);
      var hidden := Map(Add(Product(weights_ih, inputs), bias_h), Activation(exp));
      var output := Map(Add(Product(weights_ho, hidden), bias_o), Activation(exp));
      FlattenColumn(output.data);
      ToArray(output)
    }

    /** `saveModel()`: the four matrices' data. */
    function SaveModel(): (m: Model)
      reads this
      ensures Valid() ==> Fits(m, input_nodes, hidden_nodes, output_nodes)
    {
      Model(weights_ih.data, weights_ho.data, bias_h.data, bias_o.data)
    }

    /** `loadModel(model)` on an already parsed model: only the four `data` fields change. */
    method LoadModel(model: Model)
      modifies this
      ensures SaveModel() == model
      ensures weights_ih.rows == old(weights_ih.rows) && weights_ih.cols == old(weights_ih.cols)
      ensures weights_ho.rows == old(weights_ho.rows) && weights_ho.cols == old(weights_ho.cols)
      ensures bias_h.rows == old(bias_h.rows) && bias_h.cols == old(bias_h.cols)
      ensures bias_o.rows == old(bias_o.rows) && bias_o.cols == old(bias_o.cols)
      ensures old(Valid()) ==> (Valid() <==> Fits(model, input_nodes, hidden_nodes, output_nodes))
      ensures model == old(SaveModel()) ==> unchanged(this)
    {
      weights_ih := weights_ih.(data := model.weights_ih);
      weights_ho := weights_ho.(data := model.weights_ho);
      bias_h := bias_h.(data := model.bias_h);
      bias_o := bias_o.(data := model.bias_o);
    }

    /** The forward pass is the two layers' formulas composed. */
    lemma FeedforwardLayers(exp: ExpLike, input: seq<real>)
      requires Valid() && |input| == input_nodes
      ensures IsGrid(weights_ih.data, hidden_nodes, |input|)
      ensures Feedforward(exp, input) ==
        Layer(exp, weights_ho.data, bias_o.data, Layer(exp, weights_ih.data, bias_h.data, input))
    {
      var inputs := FromArray(input);
      assert Column(inputs, 0) == input;
      LayerOfColumn(exp, weights_ih, bias_h, inputs, input);
      var hidden := Map(Add(Product(weights_ih, inputs), bias_h), Activation(exp));
      var h := Layer(exp, weights_ih.data, bias_h.data, input);
      LayerOfColumn(exp, weights_ho, bias_o, hidden, h);
      var output := Map(Add(Product(weights_ho, hidden), bias_o), Activation(exp));
      FlattenColumn(output.data);
      assert ToArray(output) == Column(output, 0);
    }

    /** Two networks of one topology with equal saved models compute the same outputs:
        the saved model determines inference. */
    lemma SameModelSameOutput(exp: ExpLike, other: NeuralNetwork, input: seq<real>)
      requires Valid() && other.Valid()
      requires other.input_nodes == input_nodes && other.hidden_nodes == hidden_nodes
      requires other.output_nodes == output_nodes
      requires other.SaveModel() == SaveModel() && |input| == input_nodes
      ensures other.Feedforward(exp, input) == Feedforward(exp, input)
    {
      FeedforwardLayers(exp, input);
      other.FeedforwardLayers(exp, input);
    }
  }
}

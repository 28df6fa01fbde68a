# Flappy-Bird neuro-evolution trainer, modelled in Dafny

This project models the training loop of a Flappy-Bird trainer. A population of 300 birds is flown through scrolling pipes. Each bird is steered by its own small 4-5-1 feed-forward network. When every bird has crashed, or the generation has flown 40000 frames, a generational genetic algorithm does the following:

- it scores each bird by the distance it flew, minus a penalty for how far from a pipe's middle it crashed;
- it ranks the birds by fitness;
- it keeps the best 5%;
- it breeds 90% new children by averaging the brains of two parents picked by quadratic rank selection, then mutating;
- it adds 5% newborns.

The model has one module per source file:

| module | file | what it holds |
|---|---|---|
| `Utils` | `utils.dfy` | `sumOfNSquares`, `Math.abs`, and p5's `constrain` and `map`, over exact reals |
| `Matrices` | `matrix.dfy` | a minimal value matrix with `rows`, `cols` and `data`, and the operations the network and the crossover use |
| `NeuralNetworks` | `neural_network.dfy` | the sigmoid, the class `NeuralNetwork` (shapes, `feedforward`, `saveModel`/`loadModel`), and the forward pass as two layer formulas |
| `Birds` | `bird.dfy` | the class `Bird`: clamped vertical motion and the distance counter |
| `Pipes` | `pipe.dfy` | the class `Pipe`: geometry, hit test, movement and expiry |
| `BirdsWithBrains` | `bird_with_brain.dfy` | the class `BirdWithBrain`, plus crossover, mutation, fitness and the jump rule |
| `Genetics` | `genetic_algorithm.dfy` | the class `GeneticAlgorithm`: counts, rank probabilities, the rank walk, the stable sort, `evaluate`, and `naturalSelection` |
| `Simulations` | `simulation.dfy` | the class `Simulation`: the per-tick update, collisions, pipe injection, generation end, and the bounded `update` loop |

Each source class whose fields change is a Dafny `class` with those fields. Its methods carry `modifies` clauses naming the objects and fields they may change, and their `ensures` give the new values. The few wrapper methods that state less are listed under "## Left out". The loops of the source are loops, or recursions in the same order over the same indices. Each loop is proved against a specification function on values:

- `Survivors`, `Penalty` and `Onscreen` for `updatePipes`;
- `Tick` for `updateBirds`;
- `SortByFitness`, `RankIndex`, `Offspring` and `Broods` for `naturalSelection`;
- `BestRecord` for `evaluate`;
- `Fall` for `Bird.update`.

The properties the trainer relies on are proved as lemmas about those functions:

- the sort is a permutation into non-increasing fitness, and it is stable: members of equal fitness keep their order;
- the rank probabilities are positive and sum to 1;
- the rank draw picks the first index whose prefix sum reaches it;
- `evaluate` finds the first strict maximum;
- a bird is removed exactly when some moved pipe hits it, and it loses the centre distance of the last pipe that hit it;
- a pipe is dropped exactly when it has passed the left edge;
- crossover is the elementwise mean, and mutation with rate 0 changes nothing;
- the forward pass is two sigmoid layers, and every output lies in (0, 1).

Inputs from outside the program are parameters:

- **Random draws:** new brains' weights, mutation coins and noise, the rank-walk draws, and pipe tops.
- **`Math.exp`:** a function of type `ExpLike`. It is positive and below 1 exactly on the negatives.
- **The 30 ms wall-clock budget:** the number `clock` of iterations begun before the budget runs out.
- **The `TypeError` that `updateBirds` throws** when birds fly with no pipe on screen becomes `ok == false`, which stops `update`.

Three points of the code are modelled exactly as written:

- **`reset()`:** both lines of its body are commented out (src/birdWithBrain.ts:35-38), so it changes nothing. It does not clear the distance; `calcFitness` does (src/birdWithBrain.ts:30-33).
- **`pickRandom`:** it has no fallback for a zero total (src/geneticAlgorithm.ts:74-86). Nothing calls it, and it is not modelled.
- **Order within a tick:** `updateBirds` first makes a bird fall (`update()`) and only then asks its network whether to jump (src/simulation.ts:111-117). The jump decision therefore sees the fallen position and velocity.

## Model

| member | source | states |
|---|---|---|
| Utils.SumOfNSquares | src/geneticAlgorithm.ts:56 | sumOfNSquares(n) is at least n², so the rank total is positive for a non-empty population |
| Utils.Abs | src/pipe.ts:31 | the result is non-negative and is x or -x |
| Utils.Remap | src/birdWithBrain.ts:17-19 | p5 `map`: the affine map sends a to c and b to d, and is constant when c = d |
| Utils.Clamp | src/birdWithBrain.ts:70 | p5 `constrain`: the result lies in [lo, hi], equals v inside the interval and the nearer end outside it |
| Matrices.Zero | src/neuralnetwork.ts:27-28 | `new Matrix(r, c)` is a well-formed r×c matrix |
| Matrices.Fill | src/birdWithBrain.ts:43 | `set(v)` keeps the shape |
| Matrices.Add | src/birdWithBrain.ts:44-45 | elementwise `add` of equal shapes keeps the shape |
| Matrices.Scale | src/birdWithBrain.ts:46 | `multiply(k)` keeps the shape |
| Matrices.Map | src/birdWithBrain.ts:75-78 | `map(f)` keeps the shape |
| Matrices.Product | src/neuralnetwork.ts:43 | `Matrix.multiply(a, b)` is a well-formed rows(a)×cols(b) matrix |
| Matrices.FromArray | src/neuralnetwork.ts:42 | `fromArray(v)` is a |v|×1 column |
| Matrices.ToArray | src/neuralnetwork.ts:54 | `toArray()`: the rows laid end to end (no contract of its own; FlattenColumn and ToArrayFromArray state its properties) |
| Matrices.FlattenColumn | src/neuralnetwork.ts:54 | `toArray` of a column has one entry per row, the row's only entry |
| Matrices.ToArrayFromArray | src/neuralnetwork.ts:42-54 | `toArray(fromArray(v)) == v` |
| Matrices.AddCommutes | src/birdWithBrain.ts:44-45 | elementwise addition is commutative |
| NeuralNetworks.Sigmoid | src/neuralnetwork.ts:3-5 | 1/(1+e^-x) lies strictly in (0, 1) |
| NeuralNetworks.SigmoidAboveHalf | src/neuralnetwork.ts:3-5 | sigmoid(x) > 0.5 exactly when x > 0 |
| NeuralNetworks.DSigmoid | src/neuralnetwork.ts:7-10 | y(1 - y) is 1/4 - (y - 1/2)², so it peaks at 1/4 for y = 1/2 |
| NeuralNetworks.DSigmoidRange | src/neuralnetwork.ts:7-10 | on (0, 1), y(1-y) lies in (0, 1/4] |
| NeuralNetworks.Layer | src/neuralnetwork.ts:43-46 | one layer has one output per weight row |
| NeuralNetworks.LayerOfColumn | src/neuralnetwork.ts:43-46 | multiply, add bias, map sigmoid on a column is the formula sigmoid(Σ w[j][i]·v[i] + b[j]) |
| NeuralNetworks.ActivatedColumn | src/neuralnetwork.ts:46 | mapping the sigmoid over the column of weighted sums gives the layer |
| NeuralNetworks.NeuralNetwork.constructor | src/neuralnetwork.ts:22-37 | weights_ih is hidden×input, weights_ho output×hidden, bias_h hidden×1, bias_o output×1; learning rate 0.1; the initial values are the draws |
| NeuralNetworks.NeuralNetwork.Feedforward | src/neuralnetwork.ts:39-55 | reads but changes nothing; returns output_nodes values, each strictly in (0, 1) |
| NeuralNetworks.NeuralNetwork.FeedforwardLayers | src/neuralnetwork.ts:39-55 | feedforward is the output layer applied to the hidden layer applied to the input |
| NeuralNetworks.NeuralNetwork.SameModelSameOutput | src/neuralnetwork.ts:39-73 | two networks of one topology with equal saved models give equal outputs on every input |
| NeuralNetworks.NeuralNetwork.SaveModel | src/neuralnetwork.ts:57-65 | the saved record of a well-formed network has the topology's shapes |
| NeuralNetworks.NeuralNetwork.LoadModel | src/neuralnetwork.ts:67-73 | afterwards saveModel() returns the loaded record; only the four data fields change; loading the saved record changes nothing |
| Birds.Fall | src/bird.ts:66-81 | one tick: the velocity is either 0 (clamped) or the old one plus gravity, and when it is not 0 the position moved by exactly the new velocity |
| Birds.FallStaysOnCanvas | src/bird.ts:70-80 | after a tick 0 ≤ y ≤ height |
| Birds.FallCases | src/bird.ts:68-80 | past the floor: y = height, velocity 0; past the ceiling: y = 0, velocity 0; otherwise velocity + gravity and y + new velocity |
| Birds.Bird.constructor | src/bird.ts:13-23 | y = height/2, x = 64, velocity 0, distance 0, enabled, gravity 0.7, lift -12 |
| Birds.Bird.Jump | src/bird.ts:54-56 | velocity becomes lift; y is unchanged and nothing else may change |
| Birds.Bird.IsEnabled | src/bird.ts:58-60 | `isEnabled()` is the negation of the disabled flag (no contract of its own; Disable states how it changes) |
| Birds.Bird.Disable | src/bird.ts:58-64 | afterwards isEnabled() is false; on a disabled bird nothing changes |
| Birds.Bird.Update | src/bird.ts:66-81 | distance + 1, the motion is one Fall step, and y stays in [0, height]; x cannot change |
| Pipes.HitIsNearCenter | src/pipe.ts:25-31 | a hit bird is less than w/2 from the pipe's middle |
| Pipes.Pipe.constructor | src/pipe.ts:16-23 | the drawn top; bottom = height - (top + 130), so the gap's lower edge is top + 130; x = width, w = 80, speed 6 |
| Pipes.Pipe.Hits | src/pipe.ts:25-40 | hit iff above or below the gap and strictly between the edges; distanceToCenter is the centre distance on a hit and 0 on a miss; highlight equals hit |
| Pipes.Pipe.Update | src/pipe.ts:52-54 | x decreases by exactly speed, nothing else changes |
| Pipes.Pipe.Offscreen | src/pipe.ts:56-62 | `x < -w` holds exactly when x + w < 0, the condition updatePipes drops a pipe on |
| BirdsWithBrains.MeanGrid | src/birdWithBrain.ts:43-46 | the elementwise mean keeps the parents' shape |
| BirdsWithBrains.Average | src/birdWithBrain.ts:43-61 | the child's model is congruent to the parents' |
| BirdsWithBrains.AverageCommutes | src/birdWithBrain.ts:40-64 | crossover does not depend on which parent it is called on |
| BirdsWithBrains.AverageSelf | src/birdWithBrain.ts:40-64 | crossing a brain with itself reproduces it |
| BirdsWithBrains.AverageWithin | src/birdWithBrain.ts:40-64 | parents with weights in [lo, hi] have a child with weights in [lo, hi] |
| BirdsWithBrains.CrossoverSteps | src/birdWithBrain.ts:43-46 | set(0), add(a), add(b), multiply(0.5) leaves exactly (a + b)·0.5 |
| BirdsWithBrains.MutateGrid | src/birdWithBrain.ts:75-78 | mutation keeps a grid's shape |
| BirdsWithBrains.Mutated | src/birdWithBrain.ts:66-80 | mutation keeps the model's shapes |
| BirdsWithBrains.MutateRateZero | src/birdWithBrain.ts:68-72 | with rate 0 and coins in [0, 1), nothing changes |
| BirdsWithBrains.MutateGridEntries | src/birdWithBrain.ts:68-73 | each entry is clamp(v + noise, -1, 1) in [-1, 1] when its coin is below the rate, and unchanged otherwise |
| BirdsWithBrains.MutateGridAll | src/birdWithBrain.ts:68-73 | when every coin is below the rate, every entry of the grid is clamp(v + noise, -1, 1), so the grid lies in [-1, 1] |
| BirdsWithBrains.MutateRateOne | src/birdWithBrain.ts:66-80 | with rate 1 and coins in [0, 1), every entry of all four matrices is clamp(v + noise, -1, 1) of the old entry, so the whole model lies in [-1, 1] |
| BirdsWithBrains.BirdWithBrain.constructor | src/birdWithBrain.ts:10-13 | a fresh bird in its start state (y = height/2, velocity 0, distance 0, enabled) with a fresh 4-5-1 brain holding the drawn weights; fitness 0, see "## Left out" |
| BirdsWithBrains.BirdWithBrain.JumpInputs | src/birdWithBrain.ts:16-21 | four inputs: (pipeTop - y)/(height/2), (pipeX - x)/(width/2), (velocity + 10)/20, and the constant 1 |
| BirdsWithBrains.BirdWithBrain.ShouldJumpAt | src/birdWithBrain.ts:15-27 | the decision rule: the network's output on JumpInputs is above 0.5 (no contract of its own; ShouldJumpIsLinearTest and Simulations.ShouldJumpIsJumpsWith state what it means) |
| BirdsWithBrains.BirdWithBrain.ShouldJump | src/birdWithBrain.ts:15-27 | `shouldJump` is the rule applied to the bird's current motion (no contract of its own) |
| BirdsWithBrains.BirdWithBrain.ShouldJumpIsLinearTest | src/birdWithBrain.ts:15-27 | the bird jumps iff the output neuron's weighted input, over the hidden layer, is positive |
| BirdsWithBrains.BirdWithBrain.CalcFitness | src/birdWithBrain.ts:30-33 | fitness becomes the old distance and distance becomes 0; nothing else of the bird, its body or its brain may change |
| BirdsWithBrains.BirdWithBrain.Reset | src/birdWithBrain.ts:35-38 | nothing changes, fitness included |
| BirdsWithBrains.BirdWithBrain.Crossover | src/birdWithBrain.ts:40-64 | a fresh child (bird, body and brain) whose brain is the parents' mean and whose body is in the start state (y = height/2, velocity 0, distance 0, enabled); nothing existing is modified, so the parents are untouched |
| BirdsWithBrains.BirdWithBrain.Mutate | src/birdWithBrain.ts:66-80 | the brain becomes Mutated(old brain, rate, draws) and stays a 4-5-1 network |
| BirdsWithBrains.BirdWithBrain.GetPhenotype | src/birdWithBrain.ts:82-84 | the phenotype has a 4-5-1 brain's shapes |
| Simulations.ShouldJumpIsJumpsWith | src/birdWithBrain.ts:16-26 | shouldJump is the two-layer formula on the saved brain, above 0.5 |
| Genetics.KeepCount | src/geneticAlgorithm.ts:97 | floor(N·0.05) is N / 20 |
| Genetics.NewCount | src/geneticAlgorithm.ts:98 | floor(N·0.05) is N / 20 |
| Genetics.CrossCount | src/geneticAlgorithm.ts:99 | keepCount + crossCount + newCount = N, with crossCount ≥ 0 |
| Genetics.FloorOfTwentieth | src/geneticAlgorithm.ts:97-98 | floor(n·0.05) == n / 20 in exact arithmetic |
| Genetics.CountsForPopulation | src/geneticAlgorithm.ts:97-99 | for 300 birds: 15 kept, 270 bred, 15 new |
| Genetics.RankProbabilities | src/geneticAlgorithm.ts:56-61 | N probabilities, each positive |
| Genetics.RankProbabilitiesSumToOne | src/geneticAlgorithm.ts:56-61 | the N probabilities sum to 1 |
| Genetics.WeightsSum | src/geneticAlgorithm.ts:56-60 | the weights (N - i)² sum to sumOfNSquares(N) |
| Genetics.RankBias | src/geneticAlgorithm.ts:58-61 | rank 0 is N² times as likely as rank N - 1 |
| Genetics.RankIndex | src/geneticAlgorithm.ts:63-71 | the selected rank lies in [0, N - 1] |
| Genetics.RankIndexIsFirstToReach | src/geneticAlgorithm.ts:63-71 | for r ≤ 1, RankIndex is the first index whose prefix sum reaches r, and the only such index |
| Genetics.RankIndexOfZero | src/geneticAlgorithm.ts:63-71 | the draw 0 selects the fittest rank |
| Genetics.RankWalk | src/geneticAlgorithm.ts:63-69 | the loop as written: for r = 0 the index is -1; for 0 < r < 1 it is RankIndex(N, r) |
| Genetics.SortByFitness | src/geneticAlgorithm.ts:94 | the sort keeps length and multiset |
| Genetics.SortIsSortedPermutation | src/geneticAlgorithm.ts:94 | the sort is a permutation in non-increasing fitness |
| Genetics.SortKeepsDistinct | src/geneticAlgorithm.ts:94 | the sort keeps the birds distinct |
| Genetics.InsertAfterEqual | src/geneticAlgorithm.ts:94 | inserting into a sorted sequence puts the new member after every member of the same fitness |
| Genetics.SortIsStable | src/geneticAlgorithm.ts:94 | for every fitness v, the members of fitness v appear in the sorted population in their old order (`Array.prototype.sort` is stable) |
| Genetics.FirstIsFittest | src/geneticAlgorithm.ts:94 | the first member after the sort is at least as fit as every member |
| Genetics.BestRecord | src/geneticAlgorithm.ts:131-136 | the record is never negative; when positive its index is in range and holds that fitness; when 0 the index is 0 |
| Genetics.BestRecordIsFirstMaximum | src/geneticAlgorithm.ts:131-136 | the fold's record bounds every fitness; when positive, its index is the first with that fitness; it is 0 with index 0 exactly when no fitness is positive |
| Genetics.Offspring | src/geneticAlgorithm.ts:108-111 | a child's brain, bred from two rank-picked parents, is a 4-5-1 genome |
| Genetics.Broods | src/geneticAlgorithm.ts:107-113 | one child brain per draw, the k-th bred from the k-th draws |
| Genetics.GeneticAlgorithm.constructor | src/geneticAlgorithm.ts:27-31 | an empty population, generation 0, mutation rate 0.01 |
| Genetics.GeneticAlgorithm.InitPopulation | src/geneticAlgorithm.ts:37-41 | exactly |seeds| fresh newborns appended after the old members |
| Genetics.GeneticAlgorithm.AddNewSpecimens | src/geneticAlgorithm.ts:123-128 | one fresh newborn per seed appended, and the phenotypes extended by the seeds |
| Genetics.GeneticAlgorithm.PushNewborn | src/geneticAlgorithm.ts:126 | one fresh newborn appended, distinct from every member |
| Genetics.GeneticAlgorithm.CalcFitness | src/geneticAlgorithm.ts:43-47 | each member's fitness is its old distance and its distance is 0; only fitness and the bodies' distance may change |
| Genetics.GeneticAlgorithm.PickRandomByRank | src/geneticAlgorithm.ts:52-72 | the member of rank RankIndex(N, r), with the walk's -1 for r = 0 read as rank 0 |
| Genetics.GeneticAlgorithm.Evaluate | src/geneticAlgorithm.ts:130-139 | best is the phenotype of the member the fold selects |
| Genetics.GeneticAlgorithm.Breed | src/geneticAlgorithm.ts:108-111 | a fresh child, sharing nothing with the population, whose brain is Offspring of the draws |
| Genetics.GeneticAlgorithm.AppendChild | src/geneticAlgorithm.ts:108-112 | one more fresh, well-formed child appended to the children, with its brain |
| Genetics.GeneticAlgorithm.BreedChildren | src/geneticAlgorithm.ts:106-113 | one fresh child per draw, distinct and apart from the population, with brains Broods(phenotypes, draws) |
| Genetics.GeneticAlgorithm.SortPopulation | src/geneticAlgorithm.ts:94 | the population becomes SortByFitness of the old one |
| Genetics.GeneticAlgorithm.ResetElites | src/geneticAlgorithm.ts:102-104 | the reset loop changes no phenotype |
| Genetics.GeneticAlgorithm.Install | src/geneticAlgorithm.ts:101-115 | the first keep members followed by the children |
| Genetics.GeneticAlgorithm.Renew | src/geneticAlgorithm.ts:97-115 | the first keepCount members kept in order, then crossCount fresh children with the Broods brains |
| Genetics.GeneticAlgorithm.Conclude | src/geneticAlgorithm.ts:118-120 | newCount newborns appended and generations + 1 |
| Genetics.GeneticAlgorithm.NaturalSelection | src/geneticAlgorithm.ts:91-121 | size kept; the first keepCount are the sorted population's first keepCount, in order; then crossCount children bred from the sorted phenotypes; then newCount newborns; generations + 1 |
| Simulations.TickCases | src/simulation.ts:110-118 | a tick leaves the bird on the canvas at the height of its fall; a jump sets the velocity to lift; no jump means the tick is the fall |
| Simulations.Moved | src/simulation.ts:122-124 | each pipe's gap as hits sees it, moved left by its speed |
| Simulations.SurvivorsMembers | src/simulation.ts:126-131 | a bird survives exactly when no moved pipe hits it |
| Simulations.SurvivorsSplit | src/simulation.ts:126-131 | survivors are picked bird by bird, so the survivors stay a subsequence of the birds in order |
| Simulations.SurvivorsStep | src/simulation.ts:122-132 | handling one more pipe first is clearing the earlier survivors by that pipe |
| Simulations.PenaltyIsLastHit | src/simulation.ts:126-131 | a bird that is not hit loses nothing; a bird that is hit loses the centre distance of the last pipe in array order that hits it, less than that pipe's w/2 |
| Simulations.OnscreenMembers | src/simulation.ts:134-136 | a pipe stays exactly when its moved x + w ≥ 0; the remaining pipes are distinct |
| Simulations.ClearStep | src/simulation.ts:127-131 | one step of the inner loop splices out the bird exactly when the pipe hits it |
| Simulations.PipeStep | src/simulation.ts:122-132 | one step of the outer loop clears the birds that survived the later pipes |
| Simulations.PenaltyCharge | src/simulation.ts:127-130 | a bird is charged a pipe's penalty only while it is still alive |
| Simulations.OnscreenStep | src/simulation.ts:134-136 | one step of the outer loop drops or keeps the pipe at that index |
| Simulations.Populate | src/simulation.ts:57-60 | a fresh genetic algorithm with generation 0 and one fresh newborn per seed |
| Simulations.Simulation.constructor | src/simulation.ts:56-64 | 300 newborns, the birds a copy of the population, one fresh pipe at the right edge, all counters 0, speed 1 |
| Simulations.Simulation.End | src/simulation.ts:66-68 | ended becomes true |
| Simulations.Simulation.SetSpeedMultiplier | src/simulation.ts:41-44 | the multiplier becomes the given value |
| Simulations.Simulation.Fly | src/simulation.ts:111-117 | distance + 1, and the motion is the Tick of the bird's own brain |
| Simulations.Simulation.JumpIfTold | src/simulation.ts:114-117 | the velocity becomes lift exactly when the network says jump; otherwise nothing changes |
| Simulations.Simulation.UpdateBirds | src/simulation.ts:107-119 | with a pipe (or no bird), every bird ticks steering by pipes[0]; with birds but no pipe, only the first bird falls and ok is false |
| Simulations.Simulation.FlyAll | src/simulation.ts:110-118 | every bird of the sequence has distance + 1 and motion Tick(...) |
| Simulations.Simulation.ClearBirds | src/simulation.ts:126-132 | the birds become the survivors of the pipe; each old bird loses the pipe's hit penalty |
| Simulations.Simulation.ClearFrom | src/simulation.ts:126-132 | the inner loop from index j down to 0 leaves the survivors and charges every penalty |
| Simulations.Simulation.HitOne | src/simulation.ts:127-131 | one hits call: splice and penalty on a hit, nothing on a miss; highlight is the hit test on that bird |
| Simulations.Simulation.PipeOne | src/simulation.ts:123-136 | one pass of the outer loop: move, clear, and drop the pipe when it is off the canvas |
| Simulations.Simulation.ClearPipe | src/simulation.ts:123-132 | the pipe moves by its speed, then clears the birds it hits |
| Simulations.Simulation.UpdatePipes | src/simulation.ts:121-138 | pipes = those whose moved gap is still on the canvas; birds = survivors of all moved gaps, in order; every pipe moved by speed; every bird's distance reduced by its Penalty |
| Simulations.Simulation.PipesFrom | src/simulation.ts:122-137 | the outer loop from index i down to 0 reaches the same final state |
| Simulations.Simulation.InjectPipe | src/simulation.ts:140-144 | when frameCount % 75 == 0, one fresh pipe at x = width is appended; otherwise pipes are unchanged |
| Simulations.Simulation.BuildNewGeneration | src/simulation.ts:180-193 | the first pipe goes; lastDistance = old distance; lastActiveBirds = old bird count; bestDistance = max(old best, distance); distance = 0; fitness = distance flown; the first 15 are the fittest in sorted order; generation + 1; birds = the new population |
| Simulations.Simulation.Record | src/simulation.ts:181-186 | the pipe and counter half of buildNewGeneration |
| Simulations.Simulation.NextPopulation | src/simulation.ts:188-192 | the genetic algorithm half of buildNewGeneration |
| Simulations.Simulation.Score | src/simulation.ts:188-189 | each member's fitness is its distance, its distance is 0, and a best is recorded |
| Simulations.Simulation.Select | src/simulation.ts:190-192 | the population keeps size 300, its first 15 are the sorted population's first 15, generation + 1, and the birds are a copy |
| Simulations.Simulation.HandleGenerationEnd | src/simulation.ts:174-178 | rebuilds iff there are no birds or distance ≥ 40000; on a rebuild, as buildNewGeneration: the first pipe goes, lastDistance and lastActiveBirds are recorded, bestDistance follows the max rule, distance is 0, fitness is the distance flown, the first 15 birds are the first 15 of the sorted population, generation + 1, and the bred children and newborns start in the start state; otherwise the simulation, the genetic algorithm and every member and body are unchanged |
| Simulations.Simulation.InternalUpdate | src/simulation.ts:100-105 | frameCount + 1 and distance + 1; ok iff there are no birds or some pipe; then pipes = Onscreen and birds = Survivors of the moved pipes |
| Simulations.Simulation.Steer | src/simulation.ts:103 | updateBirds keeps the invariant and throws exactly when there are birds but no pipe |
| Simulations.Simulation.Clear | src/simulation.ts:104 | updatePipes keeps the invariant and leaves the Onscreen pipes and the surviving birds |
| Simulations.Simulation.Sweep | src/simulation.ts:121-138 | updatePipes leaves the survivors and the pipes on screen, and no brain changes |
| Simulations.Simulation.Advance | src/simulation.ts:100-102 | frameCount + 1 and distance + 1 |
| Simulations.Simulation.Frame | src/simulation.ts:93-96 | one iteration is one more frame and keeps the invariant |
| Simulations.Simulation.EndFrame | src/simulation.ts:95-96 | handleGenerationEnd then injectPipe keep the invariant |
| Simulations.Simulation.Update | src/simulation.ts:89-98 | the iterations begun are at most frames ?? speedMultiplier (none when that is ≤ 0) and at most the clock; each adds one frame; the loop ends early only when the clock runs out or internalUpdate throws |

## Left out

- Rendering is not modelled because it is UI. This covers `show`, `showDebug`, `debugDisplay`, `setDebug`, p5 colours and text. `highlight` is a field because `hits` sets it, and Pipe.Hits states its value after one call; the methods that call `hits` many times do not state the final value, because only rendering reads it (one line each below).
- The canvas size is fixed when a bird or pipe is built: `height` and `width` are constants there, while the source reads `p.height` and `p.width` live and src/index.ts resizes the canvas while birds and pipes exist.
- Timers and scheduling are not modelled. This covers `setInterval`, `setTimeout`, `clearTimeout`, `nextFrame`, `restartLoop` and the `init` timer. `performance.now()` becomes the iteration count `clock`.
- src/index.ts (keyboard, local storage, canvas set-up) is I/O glue and is not part of this model.
- src/matrix.ts and src/utils.ts are not part of this model. The module `Matrices` is a minimal stand-in with the fields and operations used. `SumOfNSquares` is the sum of squares the name describes.
- `NeuralNetwork.train` (backpropagation) is never called by the training loop and is left out.
- Floating point is left out. Numbers are exact reals. The float round-off that could make the rank walk run past the array is not modelled.
- `Math.exp` is the parameter `exp: ExpLike`. Only its positivity and its being below 1 exactly on the negatives are used.
- `JSON.stringify`/`JSON.parse` are a foreign library. A phenotype is the record of the four matrices' data. `loadModel` takes the parsed record, so malformed JSON is not modelled.
- Randomness (`p.random`, `p.randomGaussian`, `Matrix.randomize`, the pipe's random top) becomes explicit draws passed in. Their distributions are not modelled.
- `pickRandom` is never called. It has no zero-total guard, and no fallback is invented for it.
- The `DNA`/`DNABuilder` interfaces are not modelled as interfaces. The genetic algorithm is specialised to its one implementation, `BirdWithBrain`. The builder's `getNew()` is a newborn built from a seed draw.
- BirdsWithBrains.BirdWithBrain.constructor: sets fitness to 0. The source declares `fitness` with no initial value (src/birdWithBrain.ts:7), so it is `undefined` until `calcFitness` assigns it. The trainer reads fitness only after `calcFitness` has run on every member, so the 0 is never observed. The predicate `Newborn` in `Genetics` carries the same 0 for newborns.
- `BirdWithBrain extends Bird` is modelled by composition: the bird is the `body` field.
- The getters `generation` and `getBest`, and `setPhenotype`, are plain field reads or a direct call of `loadModel`, and have no members of their own. `setPhenotype` is called only from src/index.ts.
- The `index` parameter of `shouldJump` only feeds the debug text and is not modelled.
- The loops of `updateBirds` and `updatePipes` are recursions (FlyAll, ClearFrom, PipesFrom) over the same indices in the same order, so that each step's frame stays small.
- Simulations.Simulation.ClearFrom: does not state the pipes' final `highlight`, which only rendering reads; Pipe.Hits states it for one call.
- Simulations.Simulation.ClearBirds: does not state the pipes' final `highlight`, which only rendering reads; Pipe.Hits states it for one call.
- Simulations.Simulation.ClearPipe: does not state the pipes' final `highlight`, which only rendering reads; Pipe.Hits states it for one call.
- Simulations.Simulation.PipeOne: does not state the pipes' final `highlight`, which only rendering reads; Pipe.Hits states it for one call.
- Simulations.Simulation.PipesFrom: does not state the pipes' final `highlight`, which only rendering reads; Pipe.Hits states it for one call.
- Simulations.Simulation.UpdatePipes: does not state the pipes' final `highlight`, which only rendering reads; Pipe.Hits states it for one call.
- Simulations.Simulation.Update: requires that every living bird is a member of the population. The constructor establishes this and every frame keeps it; the source's code assumes it without stating it.
- Simulations.Simulation.Update: states the number of iterations, the frame count and the invariant, but not the state after each iteration; InternalUpdate, HandleGenerationEnd and InjectPipe state that.
- Simulations.Simulation.Frame: states one more frame and the invariant, not the new birds and pipes; InternalUpdate, HandleGenerationEnd and InjectPipe state those.
- Simulations.Simulation.EndFrame: states only the invariant and the membership facts; HandleGenerationEnd and InjectPipe state the new state.
- Simulations.Simulation.InternalUpdate: does not restate each bird's tick or penalty; UpdateBirds, FlyAll and UpdatePipes state those.
- Simulations.Simulation.Steer: drops UpdateBirds' per-bird tick facts and keeps only the invariant and the throw condition.
- Simulations.Simulation.Clear: drops UpdatePipes' per-bird penalty and per-pipe movement facts.
- Simulations.Simulation.Sweep: drops UpdatePipes' per-bird penalty and per-pipe movement facts.
- Simulations.Simulation.NextPopulation: does not restate the children's and newborns' brains, nor which best is recorded; NaturalSelection and GeneticAlgorithm.Evaluate state them.
- Simulations.Simulation.Select: does not restate the children's and newborns' brains; NaturalSelection states them.
- Simulations.Simulation.BuildNewGeneration: does not restate the children's and newborns' brains, nor which best is recorded; NaturalSelection and GeneticAlgorithm.Evaluate state them.
- Simulations.Simulation.HandleGenerationEnd: on a rebuild, does not restate the children's and newborns' brains, nor which best is recorded; NaturalSelection and GeneticAlgorithm.Evaluate state them.
- Simulations.Simulation.Score: states that a best is recorded, not which; GeneticAlgorithm.Evaluate states which.

## Findings

| source | as written | input that shows it | evidently intended | confidence | as-written member | corrected member |
|---|---|---|---|---|---|---|
| src/geneticAlgorithm.ts:63-71 | `pickRandomByRank` runs `while (r > 0)` and then `index--`; when `p.random(1)` returns 0 the loop never runs, the index is -1, and `population[-1]` is `undefined`, which `crossover` then reads | the draw r = 0, which `p.random(1)` can return | the fittest member (rank 0), the smallest index whose prefix sum of probabilities reaches r | not executed | Genetics.RankWalk | Genetics.GeneticAlgorithm.PickRandomByRank |

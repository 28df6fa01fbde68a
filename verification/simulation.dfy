/** The training loop of src/simulation.ts: per tick the living birds fall and decide
    whether to flap, the pipes move and knock out the birds they hit, a pipe is added
    every 75 frames, and a generation ends when every bird is out or the distance reaches
    40000, at which point the genetic algorithm breeds the next population. Rendering,
    timers and the wall clock are not modelled; the random draws are parameters. */
module Simulations {
  import opened Utils
  import opened NeuralNetworks
  import opened Birds
  import opened Pipes
  import opened BirdsWithBrains
  import opened Genetics

  const POPULATION_SIZE: nat := 300
  const TARGET_DISTANCE: int := 40000
  const MAX_SPEED: int := 100
  /** `injectPipe` adds a pipe on every frame count divisible by this. */
  const PIPE_INTERVAL: nat := 75

  // ------------------------------------------------------------ birds in flight

  /** The bodies (the Bird parts) of the birds of s. */
  function Bodies(s: seq<BirdWithBrain>): set<Bird>
  {
    set b | b in s :: b.body
  }

  /** The jump rule of `shouldJump` on a saved brain: the output of the two layers on
      the inputs is above 0.5. */
  predicate JumpsWith(exp: ExpLike, brain: Model, inputs: seq<real>)
    requires IsGenome(brain) && |inputs| == INPUT_NODES
  {
    Layer(exp, brain.weights_ho, brain.bias_o, Layer(exp, brain.weights_ih, brain.bias_h, inputs))[0] > 0.5
  }

  /** `shouldJump` is the jump rule on the bird's saved brain. */
  lemma ShouldJumpIsJumpsWith(b: BirdWithBrain, exp: ExpLike, pipeX: real, pipeTop: real, m: Motion)
    requires b.Valid()
    ensures IsGenome(b.brain.SaveModel())
    ensures b.ShouldJumpAt(exp, pipeX, pipeTop, m) <==> JumpsWith(exp, b.brain.SaveModel(), b.JumpInputs(pipeX, pipeTop, m))
  {
    b.brain.FeedforwardLayers(exp, b.JumpInputs(pipeX, pipeTop, m));
  }

  /** The motion a bird of brain `brain` in motion m ends a tick of `updateBirds` with:
      it falls one step, and if the network then says jump, its velocity becomes the
      lift. */
  function Tick(b: BirdWithBrain, exp: ExpLike, brain: Model, m: Motion, pipeX: real, pipeTop: real): Motion
    requires IsGenome(brain) && b.body.height > 0.0 && b.body.width > 0.0
  {
    var f := Fall(m, b.body.gravity, b.body.height);
    if JumpsWith(exp, brain, b.JumpInputs(pipeX, pipeTop, f)) then Motion(f.y, b.body.lift) else f
  }

  /** A tick of a bird's own brain leaves the bird on the canvas at the height its fall
      gave it; a jump only sets the velocity to the lift, and without one the tick is
      the fall. */
  lemma TickCases(b: BirdWithBrain, exp: ExpLike, m: Motion, pipeX: real, pipeTop: real)
    requires b.Valid()
    ensures var f := Fall(m, b.body.gravity, b.body.height);
      var t := Tick(b, exp, b.brain.SaveModel(), m, pipeX, pipeTop);
      && 0.0 <= t.y <= b.body.height
      && t.y == f.y
      && (b.ShouldJumpAt(exp, pipeX, pipeTop, f) ==> t.velocity == b.body.lift)
      && (!b.ShouldJumpAt(exp, pipeX, pipeTop, f) ==> t == f)
  {
    FallStaysOnCanvas(m, b.body.gravity, b.body.height);
    ShouldJumpIsJumpsWith(b, exp, pipeX, pipeTop, Fall(m, b.body.gravity, b.body.height));
  }

  // ------------------------------------------------------------ collisions

  /** The pipes as `hits` sees them in a tick: each one moved left by its speed. */
  function Moved(ps: seq<Pipe>): (gs: seq<Gap>)
    reads (set p | p in ps)`x
    ensures |gs| == |ps|
    ensures forall k :: 0 <= k < |ps| ==>
      gs[k] == Gap(ps[k].x - ps[k].speed, ps[k].w, ps[k].top, ps[k].bottom, ps[k].height)
    decreases |ps|
  {
    if |ps| == 0 then []
    else [Gap(ps[0].x - ps[0].speed, ps[0].w, ps[0].top, ps[0].bottom, ps[0].height)] + Moved(ps[1..])
  }

  /** The birds' heights, remembered (collisions do not move a bird). */
  function Heights(s: seq<BirdWithBrain>): (ys: map<BirdWithBrain, real>)
    reads (Bodies(s))`y
    ensures forall b :: b in s ==> b in ys && ys[b] == b.body.y
  {
    map b | b in s :: b.body.y
  }

  /** No gap of gs hits a bird at (x, y). */
  predicate Survives(gs: seq<Gap>, x: real, y: real)
  {
    forall k :: 0 <= k < |gs| ==> !gs[k].HitsAt(x, y)
  }

  /** What one `hits` takes off a bird's distance: the distance to the gap's middle on a
      hit, nothing otherwise. */
  function HitPenalty(g: Gap, x: real, y: real): real
  {
    if g.HitsAt(x, y) then g.CenterDistance(x) else 0.0
  }

  /** What `updatePipes` takes off the distance of a bird at (x, y): the pipes are tried
      from the last to the first, and the first one in that order that hits the bird
      removes it and charges its penalty. */
  function Penalty(gs: seq<Gap>, x: real, y: real): real
    decreases |gs|
  {
    if |gs| == 0 then 0.0
    else if Survives(gs[1..], x, y) then HitPenalty(gs[0], x, y)
    else Penalty(gs[1..], x, y)
  }

  /** The birds of s no gap of gs hits, in their order. */
  function Survivors(gs: seq<Gap>, s: seq<BirdWithBrain>, ys: map<BirdWithBrain, real>): seq<BirdWithBrain>
    requires forall b :: b in s ==> b in ys
    decreases |s|
  {
    if |s| == 0 then []
    else (if Survives(gs, s[0].body.x, ys[s[0]]) then [s[0]] else []) + Survivors(gs, s[1..], ys)
  }

  /** The pipes of ps whose moved gap (in gs) is not yet past the left edge, in order. */
  function Onscreen(ps: seq<Pipe>, gs: seq<Gap>): seq<Pipe>
    requires |gs| == |ps|
    decreases |ps|
  {
    if |ps| == 0 then []
    else (if gs[0].x + gs[0].w < 0.0 then [] else [ps[0]]) + Onscreen(ps[1..], gs[1..])
  }

  /** Every element of s is one of t. */
  predicate Among<T(==)>(s: seq<T>, t: seq<T>)
  {
    forall x :: x in s ==> x in t
  }

  /** No pipe appears twice in ps. */
  predicate DistinctPipes(ps: seq<Pipe>)
  {
    forall i, j :: 0 <= i < j < |ps| ==> ps[i] != ps[j]
  }

  /** A bird survives exactly when no gap hits it, and survivors keep their order. */
  lemma {:induction false} SurvivorsMembers(gs: seq<Gap>, s: seq<BirdWithBrain>, ys: map<BirdWithBrain, real>)
    requires forall b :: b in s ==> b in ys
    ensures forall b :: b in Survivors(gs, s, ys) <==> b in s && Survives(gs, b.body.x, ys[b])
    decreases |s|
  {
    if |s| > 0 {
      SurvivorsMembers(gs, s[1..], ys);
      forall b ensures b in s <==> b == s[0] || b in s[1..] {
        if b in s {
          var k :| 0 <= k < |s| && s[k] == b;
          if k > 0 {
            assert s[1..][k - 1] == b;
          }
        }
      }
    }
  }

  /** A survivor is one of the birds it was picked from. */
  lemma SurvivorFrom(gs: seq<Gap>, s: seq<BirdWithBrain>, ys: map<BirdWithBrain, real>, b: BirdWithBrain)
    requires forall x :: x in s ==> x in ys
    requires b in Survivors(gs, s, ys)
    ensures b in s && Survives(gs, b.body.x, ys[b])
  {
    SurvivorsMembers(gs, s, ys);
  }

  /** Survivors are taken element by element: of a concatenation, the survivors of each part. */
  lemma {:induction false} SurvivorsSplit(gs: seq<Gap>, a: seq<BirdWithBrain>, b: seq<BirdWithBrain>, ys: map<BirdWithBrain, real>)
    requires forall x :: x in a + b ==> x in ys
    ensures Survivors(gs, a + b, ys) == Survivors(gs, a, ys) + Survivors(gs, b, ys)
    decreases |a|
  {
    if |a| > 0 {
      assert (a + b)[1..] == a[1..] + b;
      SurvivorsSplit(gs, a[1..], b, ys);
    } else {
      assert a + b == b;
    }
  }

  /** Surviving g followed by gs is surviving both. */
  lemma SurvivesCons(g: Gap, gs: seq<Gap>, x: real, y: real)
    ensures Survives([g] + gs, x, y) <==> !g.HitsAt(x, y) && Survives(gs, x, y)
  {
    var hs := [g] + gs;
    assert hs[0] == g;
    assert forall k :: 0 <= k < |gs| ==> hs[k + 1] == gs[k];
    if !g.HitsAt(x, y) && Survives(gs, x, y) {
      forall k | 0 <= k < |hs| ensures !hs[k].HitsAt(x, y) {
        if k > 0 {
          assert hs[k] == gs[k - 1];
        }
      }
    }
  }

  /** Trying one more gap, g before the gaps gs, is clearing the survivors of gs by g. */
  lemma {:induction false} SurvivorsStep(g: Gap, gs: seq<Gap>, s: seq<BirdWithBrain>, ys: map<BirdWithBrain, real>)
    requires forall b :: b in s ==> b in ys
    ensures forall b :: b in Survivors(gs, s, ys) ==> b in ys
    ensures Survivors([g] + gs, s, ys) == Survivors([g], Survivors(gs, s, ys), ys)
    decreases |s|
  {
    SurvivorsMembers(gs, s, ys);
    if |s| > 0 {
      var x := s[0];
      SurvivorsStep(g, gs, s[1..], ys);
      var rest := Survivors(gs, s[1..], ys);
      SurvivorsMembers(gs, s[1..], ys);
      SurvivesCons(g, gs, x.body.x, ys[x]);
      var head := if Survives(gs, x.body.x, ys[x]) then [x] else [];
      SurvivorsSplit([g], head, rest, ys);
    }
  }

  /** Surviving birds are still distinct. */
  lemma {:induction false} SurvivorsKeepDistinct(gs: seq<Gap>, s: seq<BirdWithBrain>, ys: map<BirdWithBrain, real>)
    requires forall b :: b in s ==> b in ys
    requires DistinctBirds(s)
    ensures DistinctBirds(Survivors(gs, s, ys))
    decreases |s|
  {
    if |s| > 0 {
      var t := s[1..];
      SurvivorsKeepDistinct(gs, t, ys);
      var rest := Survivors(gs, t, ys);
      forall k | 0 <= k < |rest| ensures rest[k] != s[0] && rest[k].body != s[0].body && rest[k].brain != s[0].brain {
        SurvivorFrom(gs, t, ys, rest[k]);
        var j :| 0 <= j < |t| && t[j] == rest[k];
        assert s[j + 1] == rest[k];
      }
    }
  }

  /** Surviving birds are still well formed. */
  lemma SurvivorsKeepValid(gs: seq<Gap>, s: seq<BirdWithBrain>, ys: map<BirdWithBrain, real>)
    requires forall b :: b in s ==> b in ys
    requires AllValid(s)
    ensures AllValid(Survivors(gs, s, ys))
  {
    var r := Survivors(gs, s, ys);
    forall i | 0 <= i < |r| ensures r[i].brain in Brains(r) && r[i].Valid() {
      SurvivorFrom(gs, s, ys, r[i]);
      var j :| 0 <= j < |s| && s[j] == r[i];
      assert s[j].Valid();
    }
  }

  /** A bird no gap hits loses nothing; a bird that is hit loses the center distance of
      the last gap of gs that hits it, which is less than half that gap's width. */
  lemma {:induction false} PenaltyIsLastHit(gs: seq<Gap>, x: real, y: real)
    ensures Survives(gs, x, y) ==> Penalty(gs, x, y) == 0.0
    ensures !Survives(gs, x, y) ==>
      (exists k :: 0 <= k < |gs| && gs[k].HitsAt(x, y) &&
        Survives(gs[k + 1..], x, y) && Penalty(gs, x, y) == gs[k].CenterDistance(x) &&
        0.0 <= Penalty(gs, x, y) < gs[k].w / 2.0)
    decreases |gs|
  {
    if |gs| > 0 {
      PenaltyIsLastHit(gs[1..], x, y);
      if Survives(gs[1..], x, y) {
        if gs[0].HitsAt(x, y) {
          HitIsNearCenter(gs[0], x, y);
        } else {
          forall k | 0 <= k < |gs| ensures !gs[k].HitsAt(x, y) {
            if k > 0 {
              assert gs[k] == gs[1..][k - 1];
            }
          }
        }
      } else {
        var k :| 0 <= k < |gs[1..]| && gs[1..][k].HitsAt(x, y) && Survives(gs[1..][k + 1..], x, y) &&
          Penalty(gs[1..], x, y) == gs[1..][k].CenterDistance(x) && 0.0 <= Penalty(gs[1..], x, y) < gs[1..][k].w / 2.0;
        assert gs[1..][k + 1..] == gs[k + 2..];
        assert gs[1..][k] == gs[k + 1];
      }
    }
  }

  /** A pipe stays exactly when its moved gap has not passed the left edge, and the pipes
      that stay are distinct. */
  lemma {:induction false} OnscreenMembers(ps: seq<Pipe>, gs: seq<Gap>)
    requires |gs| == |ps| && DistinctPipes(ps)
    ensures forall k :: 0 <= k < |ps| ==> (ps[k] in Onscreen(ps, gs) <==> gs[k].x + gs[k].w >= 0.0)
    ensures DistinctPipes(Onscreen(ps, gs)) && |Onscreen(ps, gs)| <= |ps|
    ensures forall p :: p in Onscreen(ps, gs) ==> p in ps
    decreases |ps|
  {
    if |ps| > 0 {
      OnscreenMembers(ps[1..], gs[1..]);
      var rest := Onscreen(ps[1..], gs[1..]);
      assert ps[0] !in rest;
      forall k | 0 <= k < |ps| ensures ps[k] in Onscreen(ps, gs) <==> gs[k].x + gs[k].w >= 0.0 {
        if k > 0 {
          assert ps[1..][k - 1] == ps[k] && gs[1..][k - 1] == gs[k];
          assert ps[k] != ps[0];
        }
      }
      forall p | p in rest ensures p in ps {
        var j :| 0 <= j < |ps[1..]| && ps[1..][j] == p;
        assert ps[j + 1] == p;
      }
    }
  }

  /** A suffix from i starts with s[i]. */
  lemma TailOf<T>(s: seq<T>, i: nat)
    requires i < |s|
    ensures s[i..] == [s[i]] + s[i + 1..] && s[i..][1..] == s[i + 1..]
  {
  }

  /** One step of the inner loop of `updatePipes` at index j, on values: the bird there
      is spliced out exactly when g hits it, and what is left is the unvisited prefix
      followed by the survivors of the visited suffix. */
  lemma ClearStep(g: Gap, cur: seq<BirdWithBrain>, j: nat, ys: map<BirdWithBrain, real>)
    requires j < |cur| && forall b :: b in cur ==> b in ys
    ensures forall b :: b in cur[j + 1..] ==> b in ys
    ensures var t := Survivors([g], cur[j + 1..], ys);
      var before := cur[..j + 1] + t;
      && before[j] == cur[j]
      && before[..j] + before[j + 1..] == cur[..j] + t
      && cur[..j] + Survivors([g], cur[j..], ys) ==
        (if g.HitsAt(cur[j].body.x, ys[cur[j]]) then cur[..j] + t else before)
  {
    TailOf(cur, j);
    var t := Survivors([g], cur[j + 1..], ys);
    assert cur[..j + 1] == cur[..j] + [cur[j]];
    SpliceOut(cur[..j], cur[j], t);
    assert [g] + [] == [g];
    SurvivesCons(g, [], cur[j].body.x, ys[cur[j]]);
  }

  /** The two cases of HitPenalty, for a caller that has it hidden. */
  lemma PenaltyOfHit(g: Gap, x: real, y: real)
    ensures g.HitsAt(x, y) ==> HitPenalty(g, x, y) == g.CenterDistance(x)
    ensures !g.HitsAt(x, y) ==> HitPenalty(g, x, y) == 0.0
  {
  }

  /** Cutting x out of a + [x] + c leaves a + c. */
  lemma SpliceOut<T>(a: seq<T>, x: T, c: seq<T>)
    ensures (a + [x] + c)[..|a|] + (a + [x] + c)[|a| + 1..] == a + c
  {
    var s := a + [x] + c;
    assert s[..|a|] == a;
    assert s[|a| + 1..] == c;
  }

  /** With no gap at all, every bird survives. */
  lemma {:induction false} SurvivorsOfNone(s: seq<BirdWithBrain>, ys: map<BirdWithBrain, real>)
    requires forall b :: b in s ==> b in ys
    ensures Survivors([], s, ys) == s
    decreases |s|
  {
    if |s| > 0 {
      SurvivorsOfNone(s[1..], ys);
      assert [s[0]] + s[1..] == s;
    }
  }

  /** Taking the gap at index i - 1 into account after those from i on: the birds that
      survived them are cleared by it. */
  lemma PipeStep(gs: seq<Gap>, i: nat, s: seq<BirdWithBrain>, ys: map<BirdWithBrain, real>)
    requires 0 < i <= |gs| && forall b :: b in s ==> b in ys
    ensures forall b :: b in Survivors(gs[i..], s, ys) <==> b in s && Survives(gs[i..], b.body.x, ys[b])
    ensures Survivors(gs[i - 1..], s, ys) == Survivors([gs[i - 1]], Survivors(gs[i..], s, ys), ys)
  {
    assert gs[i - 1..] == [gs[i - 1]] + gs[i..];
    assert gs[i - 1..][1..] == gs[i..];
    SurvivorsMembers(gs[i..], s, ys);
    SurvivorsStep(gs[i - 1], gs[i..], s, ys);
  }

  /** The distance of one bird after the gap at index i - 1: charged its hit penalty
      when it was still alive, that is, when no gap from i on had hit it. */
  lemma PenaltyCharge(gs: seq<Gap>, i: nat, x: real, y: real, d0: real, before: real, after: real, alive: bool)
    requires 0 < i <= |gs|
    requires alive <==> Survives(gs[i..], x, y)
    requires before == d0 - Penalty(gs[i..], x, y)
    requires alive ==> after == before - HitPenalty(gs[i - 1], x, y)
    requires !alive ==> after == before
    ensures after == d0 - Penalty(gs[i - 1..], x, y)
  {
    assert gs[i - 1..][1..] == gs[i..];
    PenaltyIsLastHit(gs[i..], x, y);
  }

  /** Dropping or keeping the pipe at index i - 1 after those from i on have been
      sorted out: ps before i, then the pipes that stay. */
  lemma OnscreenStep(ps: seq<Pipe>, gs: seq<Gap>, i: nat)
    requires 0 < i <= |ps| == |gs|
    ensures var t := Onscreen(ps[i..], gs[i..]); var cur := ps[..i] + t;
      && cur[i - 1] == ps[i - 1]
      && ps[..i - 1] + Onscreen(ps[i - 1..], gs[i - 1..]) ==
        if gs[i - 1].x + gs[i - 1].w < 0.0 then cur[..i - 1] + cur[i..] else cur
  {
    var t := Onscreen(ps[i..], gs[i..]);
    assert ps[i - 1..][1..] == ps[i..] && gs[i - 1..][1..] == gs[i..];
    assert ps[..i] == ps[..i - 1] + [ps[i - 1]];
    SpliceOut(ps[..i - 1], ps[i - 1], t);
  }

  /** A bird of B that is not among s (itself drawn from B) keeps its body out of s's
      bodies. */
  lemma BodyOutside(bs: seq<BirdWithBrain>, s: seq<BirdWithBrain>, b: BirdWithBrain)
    requires DistinctBirds(bs) && b in bs && b !in s && forall c :: c in s ==> c in bs
    ensures b.body !in Bodies(s)
  {
  }

  /** The first keep members of a population built on a permutation of s are members of s. */
  lemma KeptAreOld(bred: seq<BirdWithBrain>, sorted: seq<BirdWithBrain>, s: seq<BirdWithBrain>, keep: nat)
    requires keep <= |bred| && keep <= |sorted| && bred[..keep] == sorted[..keep]
    requires multiset(sorted) == multiset(s)
    ensures forall k :: 0 <= k < keep ==> bred[k] in s
  {
    forall k | 0 <= k < keep ensures bred[k] in s {
      assert bred[k] == sorted[k] && sorted[k] in multiset(sorted);
    }
  }

  // ------------------------------------------------------------ the draws

  /** The draws `buildNewGeneration` consumes: the crossover loop's and the newborns'. */
  datatype GenerationDraws = GenerationDraws(breedings: seq<Breeding>, newSeeds: seq<Model>)

  /** Draws of the sizes and shapes `naturalSelection` consumes on a full population. */
  predicate FitGeneration(d: GenerationDraws)
  {
    |d.breedings| == CrossCount(POPULATION_SIZE) &&
    (forall k :: 0 <= k < |d.breedings| ==> FairBreeding(d.breedings[k])) &&
    |d.newSeeds| == NewCount(POPULATION_SIZE) &&
    (forall k :: 0 <= k < |d.newSeeds| ==> IsGenome(d.newSeeds[k]))
  }

  /** The draws one iteration of `update` may consume: a new pipe's top, and a
      generation's draws. */
  datatype TickDraws = TickDraws(pipeTop: real, generation: GenerationDraws)

  /** A pipe top in the range the Pipe constructor draws from, and fit generation draws. */
  predicate FitTick(d: TickDraws, height: real)
  {
    height / 6.0 <= d.pipeTop < 3.0 / 4.0 * height && FitGeneration(d.generation)
  }

  // ------------------------------------------------------------ the simulation

  /** The genetic algorithm of `new Simulation(p)` and `init()`: a new one, with one
      newborn per seed. */
  method Populate(height: real, width: real, seeds: seq<Model>) returns (ga: GeneticAlgorithm)
    requires height > 0.0 && width > 0.0 && forall k :: 0 <= k < |seeds| ==> IsGenome(seeds[k])
    ensures fresh(ga) && ga.Valid() && ga.height == height && ga.width == width
    ensures |ga.population| == |seeds| && ga.generations == 0
    ensures forall k :: 0 <= k < |seeds| ==> fresh(ga.population[k]) && Newborn(ga.population[k], seeds[k])
  {
    ga := new GeneticAlgorithm(height, width);
    ga.InitPopulation(seeds);
  }

  class Simulation {
    var birds: seq<BirdWithBrain>
    var pipes: seq<Pipe>
    const geneticAlgorithm: GeneticAlgorithm
    var frameCount: nat
    var distance: int
    var lastDistance: int
    var lastActiveBirds: nat
    var bestDistance: int
    var speedMultiplier: int
    var ended: bool
    /** The canvas, and `Math.exp`. */
    const height: real
    const width: real
    const exp: ExpLike

    /** The population has its full size, the living birds are distinct well-formed
        birds, the pipes are distinct, and the distances are never negative with the best
        at least the last. */
    predicate Valid()
      reads this`birds, this`pipes, this`distance, this`lastDistance, this`bestDistance
      reads geneticAlgorithm`population, Brains(geneticAlgorithm.population), Brains(birds)
    {
      height > 0.0 && width > 0.0 &&
      geneticAlgorithm.Valid() && geneticAlgorithm.height == height && geneticAlgorithm.width == width &&
      |geneticAlgorithm.population| == POPULATION_SIZE &&
      DistinctBirds(birds) && AllValid(birds) && DistinctPipes(pipes) &&
      0 <= distance && 0 <= lastDistance <= bestDistance
    }

    /** `new Simulation(p)` followed by `init()`: a genetic algorithm with 300 newborns
        (seeds holds their brains), the birds a copy of them, and one pipe whose top is
        pipeTop. */
    constructor (height: real, width: real, exp: ExpLike, seeds: seq<Model>, pipeTop: real)
      requires height > 0.0 && width > 0.0
      requires |seeds| == POPULATION_SIZE && forall k :: 0 <= k < |seeds| ==> IsGenome(seeds[k])
      requires height / 6.0 <= pipeTop < 3.0 / 4.0 * height
      ensures Valid() && fresh(geneticAlgorithm)
      ensures birds == geneticAlgorithm.population && geneticAlgorithm.generations == 0
      ensures forall k :: 0 <= k < |birds| ==> fresh(birds[k]) && Newborn(birds[k], seeds[k])
      ensures |pipes| == 1 && fresh(pipes[0]) && pipes[0].x == width && pipes[0].top == pipeTop
      ensures frameCount == 0 && distance == 0 && lastDistance == 0 && lastActiveBirds == 0
      ensures bestDistance == 0 && speedMultiplier == 1 && !ended
    {
      this.height := height;
      this.width := width;
      this.exp := exp;
      frameCount := 0;
      distance := 0;
      lastDistance := 0;
      lastActiveBirds := 0;
      bestDistance := 0;
      speedMultiplier := 1;
      ended := false;
      var ga := Populate(height, width, seeds);
      var pipe := new Pipe(height, width, pipeTop);
      geneticAlgorithm := ga;
      pipes := [pipe];
      birds := ga.population;
    }

    /** `end()`. */
    method End()
      modifies this`ended
      ensures ended
    {
      ended := true;
    }

    /** The `speedMultiplier` setter (restarting the timer is not modelled). */
    method SetSpeedMultiplier(speedMultiplier: int)
      modifies this`speedMultiplier
      ensures this.speedMultiplier == speedMultiplier
    {
      this.speedMultiplier := speedMultiplier;
    }

    /** The body of the loop of `updateBirds` for one bird: `update()`, then `jump()` if
        the network says so. */
    method Fly(bird: BirdWithBrain, pipeX: real, pipeTop: real)
      requires bird.Valid()
      modifies bird.body`distance, bird.body`velocity, bird.body`y
      ensures bird.body.distance == old(bird.body.distance) + 1.0
      ensures bird.body.State() == Tick(bird, exp, bird.brain.SaveModel(), old(bird.body.State()), pipeX, pipeTop)
    {
      bird.body.Update();
      JumpIfTold(bird, pipeX, pipeTop);
    }

    /** The `if (shouldJump) jump()` of the loop of `updateBirds`: the velocity becomes
        the lift exactly when the saved brain says jump for the bird as it is now. */
    method JumpIfTold(bird: BirdWithBrain, pipeX: real, pipeTop: real)
      requires bird.Valid()
      modifies bird.body`velocity
      ensures IsGenome(bird.brain.SaveModel())
      ensures bird.body.State() == if JumpsWith(exp, bird.brain.SaveModel(), bird.JumpInputs(pipeX, pipeTop, old(bird.body.State())))
        then Motion(old(bird.body.y), bird.body.lift) else old(bird.body.State())
    {
      ShouldJumpIsJumpsWith(bird, exp, pipeX, pipeTop, bird.body.State());
      if bird.ShouldJump(exp, pipeX, pipeTop) {
        bird.body.Jump();
      }
    }

    /** `updateBirds()`: every bird ticks, steering by the first pipe. With no pipe and at
        least one bird, reading `pipes[0].x` throws once the first bird has fallen: ok is
        false and no other bird has moved. */
    method UpdateBirds() returns (ok: bool)
      requires Valid()
      modifies (Bodies(birds))`distance, (Bodies(birds))`velocity, (Bodies(birds))`y
      ensures ok <==> (|birds| == 0 || |pipes| > 0)
      ensures ok ==> forall k :: 0 <= k < |birds| ==>
        birds[k].body.distance == old(birds[k].body.distance) + 1.0 &&
        birds[k].body.State() == Tick(birds[k], exp, birds[k].brain.SaveModel(), old(birds[k].body.State()), pipes[0].x, pipes[0].top)
      ensures !ok ==>
        birds[0].body.distance == old(birds[0].body.distance) + 1.0 &&
        birds[0].body.State() == old(Fall(birds[0].body.State(), birds[0].body.gravity, birds[0].body.height))
      ensures !ok ==> forall k :: 1 <= k < |birds| ==>
        birds[k].body.distance == old(birds[k].body.distance) && birds[k].body.State() == old(birds[k].body.State())
    {
      hide Tick;
      if |birds| == 0 {
        return true;
      }
      if |pipes| == 0 {
        var first := birds[0];
        assert forall k :: 1 <= k < |birds| ==> birds[k].body != first.body;
        first.body.Update();
        return false;
      }
      FlyAll(birds, pipes[0].x, pipes[0].top);
      return true;
    }

    /** The loop of `updateBirds` once a pipe is there to steer by: each bird of bs, in
        order, ticks (the first one, then the rest). */
    method FlyAll(bs: seq<BirdWithBrain>, pipeX: real, pipeTop: real)
      requires DistinctBirds(bs) && AllValid(bs)
      modifies (Bodies(bs))`distance, (Bodies(bs))`velocity, (Bodies(bs))`y
      ensures forall k :: 0 <= k < |bs| ==>
        bs[k].body.distance == old(bs[k].body.distance) + 1.0 &&
        bs[k].body.State() == Tick(bs[k], exp, bs[k].brain.SaveModel(), old(bs[k].body.State()), pipeX, pipeTop)
      decreases |bs|
    {
      hide Tick;
      if |bs| > 0 {
        assert bs[0].brain in Brains(bs) && bs[0].Valid();
        Fly(bs[0], pipeX, pipeTop);
        var rest := bs[1..];
        assert forall k :: 0 <= k < |rest| ==> rest[k] == bs[k + 1];
        assert AllValid(rest);
        FlyAll(rest, pipeX, pipeTop);
      }
    }

    /** The inner loop of `updatePipes` for one pipe: from the last bird to the first,
        a bird the pipe hits is spliced out and loses the hit's center distance. ys holds
        the birds' heights. */
    method ClearBirds(pipe: Pipe, ghost ys: map<BirdWithBrain, real>)
      requires DistinctBirds(birds)
      requires forall b :: b in birds ==> b in ys && ys[b] == b.body.y
      modifies this`birds, pipe`highlight, (Bodies(birds))`distance
      ensures birds == Survivors([pipe.Geometry()], old(birds), ys)
      ensures forall b :: b in old(birds) ==>
        b.body.distance == old(b.body.distance) - HitPenalty(pipe.Geometry(), b.body.x, ys[b])
    {
      ghost var cur := birds;
      ghost var g := pipe.Geometry();
      ghost var d0: map<BirdWithBrain, real> := map b: BirdWithBrain | b in cur :: b.body.distance;
      assert cur[|cur|..] == [] && Survivors([g], [], ys) == [];
      assert cur[..|cur|] + [] == cur;
      hide Survivors, HitPenalty;
      ClearFrom(pipe, |birds|, cur, g, ys, d0);
      assert cur[0..] == cur && cur[..0] == [];
      forall b | b in cur ensures b.body.distance == d0[b] - HitPenalty(g, b.body.x, ys[b]) {
        var k :| 0 <= k < |cur| && cur[k] == b;
      }
      assert forall b :: b in cur ==> d0[b] == old(b.body.distance);
    }

    /** The inner loop of `updatePipes` from index j down to 0, as a recursion in the same
        order: the birds from j on have been checked, those before j not yet. */
    method ClearFrom(pipe: Pipe, j: nat, ghost cur: seq<BirdWithBrain>, ghost g: Gap,
                     ghost ys: map<BirdWithBrain, real>, ghost d0: map<BirdWithBrain, real>)
      requires j <= |cur| && DistinctBirds(cur)
      requires forall b :: b in cur ==> b in ys && b in d0 && ys[b] == b.body.y
      requires pipe.Geometry() == g
      requires birds == cur[..j] + Survivors([g], cur[j..], ys)
      requires forall k :: j <= k < |cur| ==>
        cur[k].body.distance == d0[cur[k]] - HitPenalty(g, cur[k].body.x, ys[cur[k]])
      requires forall k :: 0 <= k < j ==> cur[k].body.distance == d0[cur[k]]
      modifies this`birds, pipe`highlight, (Bodies(cur))`distance
      ensures pipe.Geometry() == g
      ensures birds == cur[..0] + Survivors([g], cur[0..], ys)
      ensures forall k :: 0 <= k < |cur| ==>
        cur[k].body.distance == d0[cur[k]] - HitPenalty(g, cur[k].body.x, ys[cur[k]])
      decreases j
    {
      if j > 0 {
        hide Survivors, HitPenalty;
        assert cur[j - 1].body in Bodies(cur);
        HitOne(pipe, j - 1, cur, g, ys, d0);
        ClearFrom(pipe, j - 1, cur, g, ys, d0);
      }
    }

    /** One step of the inner loop of `updatePipes`: `hits` on the bird at index j and,
        on a hit, the splice and the penalty. cur are the birds before the loop, d0 their
        distances then. */
    method HitOne(pipe: Pipe, j: nat, ghost cur: seq<BirdWithBrain>, ghost g: Gap,
                  ghost ys: map<BirdWithBrain, real>, ghost d0: map<BirdWithBrain, real>)
      requires j < |cur| && DistinctBirds(cur)
      requires forall b :: b in cur ==> b in ys && b in d0 && ys[b] == b.body.y
      requires pipe.Geometry() == g
      requires birds == cur[..j + 1] + Survivors([g], cur[j + 1..], ys)
      requires forall k :: j < k < |cur| ==>
        cur[k].body.distance == d0[cur[k]] - HitPenalty(g, cur[k].body.x, ys[cur[k]])
      requires forall k :: 0 <= k <= j ==> cur[k].body.distance == d0[cur[k]]
      modifies this`birds, pipe`highlight, cur[j].body`distance
      ensures pipe.Geometry() == g
      ensures birds == cur[..j] + Survivors([g], cur[j..], ys)
      ensures forall k :: j <= k < |cur| ==>
        cur[k].body.distance == d0[cur[k]] - HitPenalty(g, cur[k].body.x, ys[cur[k]])
      ensures forall k :: 0 <= k < j ==> cur[k].body.distance == d0[cur[k]]
      ensures pipe.highlight == g.HitsAt(cur[j].body.x, ys[cur[j]])
    {
      ClearStep(g, cur, j, ys);
      var bird := birds[j];
      var hit, distanceToCenter := pipe.Hits(bird.body);
      PenaltyOfHit(g, bird.body.x, ys[bird]);
      if hit {
        birds := birds[..j] + birds[j + 1..];
        bird.body.distance := bird.body.distance - distanceToCenter;
      }
    }

    /** One pass of the outer loop of `updatePipes`, for the pipe at index i: it moves,
        clears the birds it hits, and is dropped once off the canvas. P, G, B, ys and d0
        are the pipes, their moved gaps, the birds, their heights and their distances
        before the loop. */
    method PipeOne(i: nat, ghost P: seq<Pipe>, ghost G: seq<Gap>, ghost B: seq<BirdWithBrain>,
                   ghost ys: map<BirdWithBrain, real>, ghost d0: map<BirdWithBrain, real>)
      requires i < |P| == |G| && DistinctBirds(B)
      requires forall b :: b in B ==> b in ys && b in d0 && ys[b] == b.body.y
      requires G[i] == Gap(P[i].x - P[i].speed, P[i].w, P[i].top, P[i].bottom, P[i].height)
      requires pipes == P[..i + 1] + Onscreen(P[i + 1..], G[i + 1..])
      requires birds == Survivors(G[i + 1..], B, ys)
      requires forall k :: 0 <= k < |B| ==>
        B[k].body.distance == d0[B[k]] - Penalty(G[i + 1..], B[k].body.x, ys[B[k]])
      modifies this`birds, this`pipes, {P[i]}`x, {P[i]}`highlight, (Bodies(B))`distance
      ensures P[i].x == G[i].x
      ensures pipes == P[..i] + Onscreen(P[i..], G[i..])
      ensures birds == Survivors(G[i..], B, ys)
      ensures forall k :: 0 <= k < |B| ==>
        B[k].body.distance == d0[B[k]] - Penalty(G[i..], B[k].body.x, ys[B[k]])
    {
      OnscreenStep(P, G, i + 1);
      var pipe := pipes[i];
      hide Survivors, Penalty, Onscreen;
      ClearPipe(pipe, i, P, G, B, ys, d0);
      if pipe.x + pipe.w < 0.0 {
        pipes := pipes[..i] + pipes[i + 1..];
      }
    }

    /** The pipe P[i] of `updatePipes` moves, then clears the birds it hits. */
    method ClearPipe(pipe: Pipe, i: nat, ghost P: seq<Pipe>, ghost G: seq<Gap>, ghost B: seq<BirdWithBrain>,
                     ghost ys: map<BirdWithBrain, real>, ghost d0: map<BirdWithBrain, real>)
      requires i < |P| == |G| && pipe == P[i] && DistinctBirds(B)
      requires forall b :: b in B ==> b in ys && b in d0 && ys[b] == b.body.y
      requires G[i] == Gap(P[i].x - P[i].speed, P[i].w, P[i].top, P[i].bottom, P[i].height)
      requires birds == Survivors(G[i + 1..], B, ys)
      requires forall k :: 0 <= k < |B| ==>
        B[k].body.distance == d0[B[k]] - Penalty(G[i + 1..], B[k].body.x, ys[B[k]])
      modifies this`birds, pipe`x, pipe`highlight, (Bodies(B))`distance
      ensures pipe.x == G[i].x
      ensures birds == Survivors(G[i..], B, ys)
      ensures forall k :: 0 <= k < |B| ==>
        B[k].body.distance == d0[B[k]] - Penalty(G[i..], B[k].body.x, ys[B[k]])
    {
      PipeStep(G, i + 1, B, ys);
      SurvivorsKeepDistinct(G[i + 1..], B, ys);
      ghost var mid := birds;
      hide Survivors, Penalty;
      pipe.Update();
      assert pipe.Geometry() == G[i];
      label cleared:
      ClearBirds(pipe, ys);
      forall k | 0 <= k < |B| ensures B[k].body.distance == d0[B[k]] - Penalty(G[i..], B[k].body.x, ys[B[k]]) {
        var b := B[k];
        if b !in mid {
          BodyOutside(B, mid, b);
        }
        PenaltyCharge(G, i + 1, b.body.x, ys[b], d0[b], old@cleared(b.body.distance), b.body.distance, b in mid);
      }
    }

    /** `updatePipes()`: every pipe, from the last to the first, moves and removes the
        birds it hits (charging each its hit penalty), and the pipes that have passed the
        left edge are dropped. In the terms of the moved gaps: the birds left are the
        survivors of all of them, and each bird loses the penalty of the last pipe that
        hit it. */
    method UpdatePipes()
      requires DistinctBirds(birds) && DistinctPipes(pipes)
      modifies this`birds, this`pipes, (set p | p in pipes)`x, (set p | p in pipes)`highlight
      modifies (Bodies(birds))`distance
      ensures pipes == old(Onscreen(pipes, Moved(pipes)))
      ensures birds == old(Survivors(Moved(pipes), birds, Heights(birds)))
      ensures forall p :: p in old(pipes) ==> p.x == old(p.x) - p.speed
      ensures forall b :: b in old(birds) ==>
        b.body.distance == old(b.body.distance) - Penalty(old(Moved(pipes)), b.body.x, old(b.body.y))
    {
      ghost var P := pipes;
      ghost var G := Moved(pipes);
      ghost var B := birds;
      ghost var ys := Heights(birds);
      ghost var d0: map<BirdWithBrain, real> := map b: BirdWithBrain | b in B :: b.body.distance;
      assert Survivors(G[|G|..], B, ys) == B by {
        assert G[|G|..] == [];
        SurvivorsOfNone(B, ys);
      }
      assert pipes == P[..|P|] + Onscreen(P[|P|..], G[|G|..]) by {
        assert P[|P|..] == [] && G[|G|..] == [] && P[..|P|] + [] == P;
      }
      assert forall k :: 0 <= k < |B| ==> B[k].body.distance == d0[B[k]] - Penalty(G[|G|..], B[k].body.x, ys[B[k]]) by {
        assert G[|G|..] == [];
      }
      hide Survivors, Penalty, Onscreen;
      PipesFrom(|pipes|, P, G, B, ys, d0);
      assert P[..0] == [] && P[0..] == P && G[0..] == G;
      forall b | b in B ensures b.body.distance == d0[b] - Penalty(G, b.body.x, ys[b]) {
        var k :| 0 <= k < |B| && B[k] == b;
      }
      forall p | p in P ensures p.x == old(p.x) - p.speed {
        var k :| 0 <= k < |P| && P[k] == p;
        assert G[k].x == old(p.x) - p.speed;
      }
    }

    /** The outer loop of `updatePipes` from index i down to 0, as a recursion in the same
        order: the pipes from i on have been handled, those before i not yet. */
    method PipesFrom(i: nat, ghost P: seq<Pipe>, ghost G: seq<Gap>, ghost B: seq<BirdWithBrain>,
                     ghost ys: map<BirdWithBrain, real>, ghost d0: map<BirdWithBrain, real>)
      requires i <= |P| == |G| && DistinctBirds(B) && DistinctPipes(P)
      requires forall b :: b in B ==> b in ys && b in d0 && ys[b] == b.body.y
      requires forall k :: 0 <= k < i ==>
        G[k] == Gap(P[k].x - P[k].speed, P[k].w, P[k].top, P[k].bottom, P[k].height)
      requires forall k :: i <= k < |P| ==> P[k].x == G[k].x
      requires pipes == P[..i] + Onscreen(P[i..], G[i..])
      requires birds == Survivors(G[i..], B, ys)
      requires forall k :: 0 <= k < |B| ==>
        B[k].body.distance == d0[B[k]] - Penalty(G[i..], B[k].body.x, ys[B[k]])
      modifies this`birds, this`pipes, (set p | p in P)`x, (set p | p in P)`highlight, (Bodies(B))`distance
      ensures forall k :: 0 <= k < |P| ==> P[k].x == G[k].x
      ensures pipes == P[..0] + Onscreen(P[0..], G[0..])
      ensures birds == Survivors(G[0..], B, ys)
      ensures forall k :: 0 <= k < |B| ==>
        B[k].body.distance == d0[B[k]] - Penalty(G[0..], B[k].body.x, ys[B[k]])
      decreases i
    {
      if i > 0 {
        hide Survivors, Penalty, Onscreen;
        assert P[i - 1] in set p | p in P;
        PipeOne(i - 1, P, G, B, ys, d0);
        assert forall k :: 0 <= k < i - 1 ==> P[k] != P[i - 1];
        PipesFrom(i - 1, P, G, B, ys, d0);
      }
    }

    /** `injectPipe()`: on every 75th frame a new pipe (whose top is pipeTop) joins at the
        right edge; otherwise nothing changes. */
    method InjectPipe(pipeTop: real)
      requires Valid() && height / 6.0 <= pipeTop < 3.0 / 4.0 * height
      modifies this`pipes
      ensures Valid()
      ensures frameCount % PIPE_INTERVAL == 0 ==>
        |pipes| == |old(pipes)| + 1 && pipes[..|old(pipes)|] == old(pipes) &&
        fresh(pipes[|old(pipes)|]) && pipes[|old(pipes)|].x == width && pipes[|old(pipes)|].top == pipeTop
      ensures frameCount % PIPE_INTERVAL != 0 ==> pipes == old(pipes)
    {
      if frameCount % PIPE_INTERVAL == 0 {
        var pipe := new Pipe(height, width, pipeTop);
        pipes := pipes + [pipe];
        assert pipes[..|old(pipes)|] == old(pipes);
      }
    }

    /** `buildNewGeneration()`: the first pipe goes, the distances are recorded and reset,
        and the genetic algorithm scores the birds (fitness = distance flown), records the
        best and breeds the next population, which becomes the living birds. sorted is the
        population ranked by fitness, whose first members are kept as they are. */
    method BuildNewGeneration(d: GenerationDraws) returns (ghost sorted: seq<BirdWithBrain>)
      requires Valid() && FitGeneration(d)
      modifies this`pipes, this`lastDistance, this`lastActiveBirds, this`bestDistance, this`distance
      modifies this`birds, geneticAlgorithm`population, geneticAlgorithm`generations, geneticAlgorithm`best
      modifies geneticAlgorithm.population, (Bodies(geneticAlgorithm.population))`distance
      ensures Valid() && birds == geneticAlgorithm.population
      ensures pipes == if |old(pipes)| == 0 then [] else old(pipes)[1..]
      ensures lastDistance == old(distance) && lastActiveBirds == |old(birds)| && distance == 0
      ensures bestDistance >= old(bestDistance) && bestDistance >= old(distance)
      ensures bestDistance == old(bestDistance) || bestDistance == old(distance)
      ensures forall b :: b in old(geneticAlgorithm.population) ==>
        b.fitness == old(b.body.distance) && b.body.distance == 0.0
      ensures sorted == SortByFitness(old(geneticAlgorithm.population))
      ensures birds[..KeepCount(POPULATION_SIZE)] == sorted[..KeepCount(POPULATION_SIZE)]
      ensures geneticAlgorithm.generations == old(geneticAlgorithm.generations) + 1
      ensures geneticAlgorithm.best.Some?
      ensures forall b :: b in geneticAlgorithm.population ==>
        b in old(geneticAlgorithm.population) || (fresh(b) && fresh(b.body))
      ensures forall k :: KeepCount(POPULATION_SIZE) <= k < |birds| ==> birds[k].body.AtStart()
    {
      hide SortByFitness, Insert;
      Record();
      sorted := NextPopulation(d);
    }

    /** The first half of `buildNewGeneration()`: the first pipe goes, and the distance
        flown is recorded (as the last one, and as the best if it beats it) and reset. */
    method Record()
      requires Valid()
      modifies this`pipes, this`lastDistance, this`lastActiveBirds, this`bestDistance, this`distance
      ensures Valid()
      ensures pipes == if |old(pipes)| == 0 then [] else old(pipes)[1..]
      ensures lastDistance == old(distance) && lastActiveBirds == |birds| && distance == 0
      ensures bestDistance >= old(bestDistance) && bestDistance >= old(distance)
      ensures bestDistance == old(bestDistance) || bestDistance == old(distance)
    {
      if |pipes| > 0 {
        pipes := pipes[1..];
      }
      lastDistance := distance;
      lastActiveBirds := |birds|;
      if distance > bestDistance {
        bestDistance := distance;
      }
      distance := 0;
    }

    /** The second half of `buildNewGeneration()`: `calcFitness`, `evaluate` and
        `naturalSelection` on the genetic algorithm, whose new population becomes the
        living birds. */
    method NextPopulation(d: GenerationDraws) returns (ghost sorted: seq<BirdWithBrain>)
      requires Valid() && FitGeneration(d)
      modifies this`birds, geneticAlgorithm`population, geneticAlgorithm`generations, geneticAlgorithm`best
      modifies geneticAlgorithm.population, (Bodies(geneticAlgorithm.population))`distance
      ensures Valid() && birds == geneticAlgorithm.population
      ensures forall b :: b in old(geneticAlgorithm.population) ==>
        b.fitness == old(b.body.distance) && b.body.distance == 0.0
      ensures sorted == SortByFitness(old(geneticAlgorithm.population))
      ensures birds[..KeepCount(POPULATION_SIZE)] == sorted[..KeepCount(POPULATION_SIZE)]
      ensures geneticAlgorithm.generations == old(geneticAlgorithm.generations) + 1
      ensures geneticAlgorithm.best.Some?
      ensures forall b :: b in geneticAlgorithm.population ==>
        b in old(geneticAlgorithm.population) || (fresh(b) && fresh(b.body))
      ensures forall k :: KeepCount(POPULATION_SIZE) <= k < |birds| ==> birds[k].body.AtStart()
    {
      hide SortByFitness, Insert;
      ghost var scored := geneticAlgorithm.population;
      Score();
      sorted := Select(d);
    }

    /** `calcFitness(TARGET_DISTANCE)` and `evaluate()`: every member's fitness is the
        distance it flew, its distance is reset, and the best is recorded. */
    method Score()
      requires geneticAlgorithm.Valid() && |geneticAlgorithm.population| == POPULATION_SIZE
      modifies geneticAlgorithm`best, geneticAlgorithm.population, (Bodies(geneticAlgorithm.population))`distance
      ensures geneticAlgorithm.Valid() && geneticAlgorithm.best.Some?
      ensures forall b :: b in geneticAlgorithm.population ==>
        b.fitness == old(b.body.distance) && b.body.distance == 0.0
    {
      hide BestRecord, Fitnesses, BirdWithBrain.GetPhenotype;
      ghost var scored := geneticAlgorithm.population;
      geneticAlgorithm.CalcFitness(TARGET_DISTANCE as real);
      forall b | b in scored ensures b.fitness == old(b.body.distance) && b.body.distance == 0.0 {
        var k :| 0 <= k < |scored| && scored[k] == b;
      }
      geneticAlgorithm.Evaluate();
    }

    /** `naturalSelection()` on the draws d, and the copy of the new population into the
        living birds: a population of the same size whose first members are the fittest of
        the old one, and one more generation. */
    method Select(d: GenerationDraws) returns (ghost sorted: seq<BirdWithBrain>)
      requires geneticAlgorithm.Valid() && |geneticAlgorithm.population| == POPULATION_SIZE && FitGeneration(d)
      modifies this`birds, geneticAlgorithm`population, geneticAlgorithm`generations
      ensures geneticAlgorithm.Valid() && |geneticAlgorithm.population| == POPULATION_SIZE
      ensures birds == geneticAlgorithm.population
      ensures sorted == old(SortByFitness(geneticAlgorithm.population))
      ensures geneticAlgorithm.population[..KeepCount(POPULATION_SIZE)] == sorted[..KeepCount(POPULATION_SIZE)]
      ensures geneticAlgorithm.generations == old(geneticAlgorithm.generations) + 1
      ensures forall b :: b in geneticAlgorithm.population ==>
        b in old(geneticAlgorithm.population) || (fresh(b) && fresh(b.body))
      ensures forall k :: KeepCount(POPULATION_SIZE) <= k < |birds| ==> birds[k].body.AtStart()
    {
      hide SortByFitness, Insert, Broods, Phenotypes, Newborn;
      ghost var genomes;
      ghost var scored := geneticAlgorithm.population;
      sorted, genomes := geneticAlgorithm.NaturalSelection(d.breedings, d.newSeeds);
      ghost var bred := geneticAlgorithm.population;
      KeptAreOld(bred, sorted, scored, KeepCount(POPULATION_SIZE));
      forall b | b in bred ensures b in scored || (fresh(b) && fresh(b.body)) {
        var k :| 0 <= k < |bred| && bred[k] == b;
      }
      birds := geneticAlgorithm.population;
    }

    /** `handleGenerationEnd()`: a new generation is built exactly when every bird is out
        or the distance has reached the target; otherwise nothing changes. */
    method HandleGenerationEnd(d: GenerationDraws) returns (rebuilt: bool)
      requires Valid() && FitGeneration(d)
      modifies this`pipes, this`lastDistance, this`lastActiveBirds, this`bestDistance, this`distance
      modifies this`birds, geneticAlgorithm`population, geneticAlgorithm`generations, geneticAlgorithm`best
      modifies geneticAlgorithm.population, (Bodies(geneticAlgorithm.population))`distance
      ensures Valid()
      ensures rebuilt <==> |old(birds)| == 0 || old(distance) >= TARGET_DISTANCE
      ensures rebuilt ==>
        distance == 0 && lastDistance == old(distance) && birds == geneticAlgorithm.population &&
        geneticAlgorithm.generations == old(geneticAlgorithm.generations) + 1
      ensures rebuilt ==> pipes == if |old(pipes)| == 0 then [] else old(pipes)[1..]
      ensures rebuilt ==> lastActiveBirds == |old(birds)|
      ensures rebuilt ==> bestDistance >= old(bestDistance) && bestDistance >= old(distance)
      ensures rebuilt ==> bestDistance == old(bestDistance) || bestDistance == old(distance)
      ensures rebuilt ==> forall b :: b in old(geneticAlgorithm.population) ==>
        b.fitness == old(b.body.distance) && b.body.distance == 0.0
      ensures rebuilt ==>
        birds[..KeepCount(POPULATION_SIZE)] == SortByFitness(old(geneticAlgorithm.population))[..KeepCount(POPULATION_SIZE)]
      ensures rebuilt ==> forall k :: KeepCount(POPULATION_SIZE) <= k < |birds| ==> birds[k].body.AtStart()
      ensures !rebuilt ==>
        birds == old(birds) && pipes == old(pipes) && distance == old(distance) &&
        geneticAlgorithm.generations == old(geneticAlgorithm.generations) &&
        geneticAlgorithm.population == old(geneticAlgorithm.population)
      ensures !rebuilt ==> unchanged(this) && unchanged(geneticAlgorithm)
      ensures !rebuilt ==> forall b :: b in old(geneticAlgorithm.population) ==> unchanged(b, b.body)
      ensures forall b :: b in geneticAlgorithm.population ==>
        b in old(geneticAlgorithm.population) || (fresh(b) && fresh(b.body))
      ensures forall p :: p in pipes ==> p in old(pipes)
    {
      rebuilt := |birds| == 0 || distance >= TARGET_DISTANCE;
      if rebuilt {
        ghost var sorted := BuildNewGeneration(d);
        assert forall p :: p in pipes ==> p in old(pipes);
      }
    }

    /** `update(frames)`: up to `frames ?? speedMultiplier` iterations of internalUpdate,
        handleGenerationEnd and injectPipe, each one drawing from draws. clock stands for
        the 30 ms budget: the number of iterations begun before it runs out. When
        internalUpdate throws (ok false) the loop stops there. count is the number of
        iterations begun, and each one is one more frame. */
    method Update(frames: Option<int>, clock: nat, draws: seq<TickDraws>) returns (count: nat, ok: bool)
      requires Valid() && forall b :: b in birds ==> b in geneticAlgorithm.population
      requires clock <= |draws| && forall k :: 0 <= k < |draws| ==> FitTick(draws[k], height)
      modifies this, geneticAlgorithm, set b | b in geneticAlgorithm.population
      modifies (Bodies(geneticAlgorithm.population))`distance, (Bodies(geneticAlgorithm.population))`velocity
      modifies (Bodies(geneticAlgorithm.population))`y, (set p | p in pipes)`x, (set p | p in pipes)`highlight
      ensures Valid() && forall b :: b in birds ==> b in geneticAlgorithm.population
      ensures frameCount == old(frameCount) + count
      ensures var budget := if frames.Some? then frames.value else old(speedMultiplier);
        count <= clock && (budget <= 0 ==> count == 0) && (budget > 0 ==> count <= budget)
      ensures var budget := if frames.Some? then frames.value else old(speedMultiplier);
        ok ==> count == clock || count == if budget > 0 then budget else 0
      ensures !ok ==> count > 0
    {
      ghost var P0 := geneticAlgorithm.population;
      ghost var Q0 := pipes;
      var left := if frames.Some? then frames.value else speedMultiplier;
      ghost var budget := left;
      count, ok := 0, true;
      while left > 0 && count < clock && ok
        invariant Valid() && forall b :: b in birds ==> b in geneticAlgorithm.population
        invariant forall b :: b in geneticAlgorithm.population ==> b in P0 || (fresh(b) && fresh(b.body))
        invariant forall p :: p in pipes ==> p in Q0 || fresh(p)
        invariant frameCount == old(frameCount) + count && count <= clock
        invariant left == budget - count && (budget <= 0 ==> count == 0) && (budget > 0 ==> count <= budget)
        invariant !ok ==> count > 0
        decreases clock - count
      {
        ok := Frame(draws[count]);
        count, left := count + 1, left - 1;
      }
    }

    /** One iteration of `update`: internalUpdate, then (unless it threw)
        handleGenerationEnd and injectPipe. */
    method Frame(d: TickDraws) returns (ok: bool)
      requires Valid() && forall b :: b in birds ==> b in geneticAlgorithm.population
      requires FitTick(d, height)
      modifies this`frameCount, this`distance, this`birds, this`pipes
      modifies this`lastDistance, this`lastActiveBirds, this`bestDistance
      modifies (Bodies(birds))`distance, (Bodies(birds))`velocity, (Bodies(birds))`y
      modifies (set p | p in pipes)`x, (set p | p in pipes)`highlight
      modifies geneticAlgorithm`population, geneticAlgorithm`generations, geneticAlgorithm`best
      modifies geneticAlgorithm.population, (Bodies(geneticAlgorithm.population))`distance
      ensures Valid() && forall b :: b in birds ==> b in geneticAlgorithm.population
      ensures forall b :: b in geneticAlgorithm.population ==>
        b in old(geneticAlgorithm.population) || (fresh(b) && fresh(b.body))
      ensures forall p :: p in pipes ==> p in old(pipes) || fresh(p)
      ensures frameCount == old(frameCount) + 1
    {
      ghost var G0, Q0 := geneticAlgorithm.population, pipes;
      ok := InternalUpdate();
      assert geneticAlgorithm.population == G0;
      assert forall b :: b in birds ==> b in G0;
      if ok {
        EndFrame(d);
      }
    }

    /** The end of an iteration of `update`: handleGenerationEnd, then injectPipe. */
    method EndFrame(d: TickDraws)
      requires Valid() && forall b :: b in birds ==> b in geneticAlgorithm.population
      requires FitTick(d, height)
      modifies this`pipes, this`lastDistance, this`lastActiveBirds, this`bestDistance, this`distance
      modifies this`birds, geneticAlgorithm`population, geneticAlgorithm`generations, geneticAlgorithm`best
      modifies geneticAlgorithm.population, (Bodies(geneticAlgorithm.population))`distance
      ensures Valid() && forall b :: b in birds ==> b in geneticAlgorithm.population
      ensures forall b :: b in geneticAlgorithm.population ==>
        b in old(geneticAlgorithm.population) || (fresh(b) && fresh(b.body))
      ensures forall p :: p in pipes ==> p in old(pipes) || fresh(p)
    {
      hide SortByFitness, Insert, KeepCount;
      ghost var Q0 := pipes;
      var rebuilt := HandleGenerationEnd(d.generation);
      assert forall b :: b in birds ==> b in geneticAlgorithm.population;
      ghost var Q, B, G := pipes, birds, geneticAlgorithm.population;
      InjectPipe(d.pipeTop);
      assert birds == B && geneticAlgorithm.population == G;
      assert forall p :: p in pipes ==> p in Q || fresh(p);
    }

    /** `internalUpdate()`: one more frame and one more unit of distance, the birds tick
        (UpdateBirds), then the pipes move and clear the birds they hit (UpdatePipes), so
        the birds left are those no moved pipe hits. When `updateBirds` throws (birds but
        no pipe), ok is false and the pipes are not updated. */
    method InternalUpdate() returns (ok: bool)
      requires Valid()
      modifies this`frameCount, this`distance, this`birds, this`pipes
      modifies (Bodies(birds))`distance, (Bodies(birds))`velocity, (Bodies(birds))`y
      modifies (set p | p in pipes)`x, (set p | p in pipes)`highlight
      ensures Valid()
      ensures frameCount == old(frameCount) + 1 && distance == old(distance) + 1
      ensures ok <==> (|old(birds)| == 0 || |old(pipes)| > 0)
      ensures ok ==> pipes == old(Onscreen(pipes, Moved(pipes)))
      ensures ok ==> birds == Survivors(old(Moved(pipes)), old(birds), Heights(old(birds)))
      ensures !ok ==> birds == old(birds) && pipes == old(pipes)
      ensures Among(birds, old(birds))
      ensures Among(pipes, old(pipes))
    {
      ghost var B := birds;
      ghost var P := pipes;
      ghost var G := Moved(pipes);
      Advance();
      hide Tick, Survivors, Penalty, Onscreen, Fall, Moved, Heights, Among;
      ghost var n, d := frameCount, distance;
      ok := Steer();
      if ok {
        assert G == Moved(pipes);
        ghost var ys := Heights(B);
        Clear();
        assert ys == Heights(B);
        assert pipes == Onscreen(P, G) && birds == Survivors(G, B, ys);
        assert frameCount == n && distance == d;
      } else {
        assert birds == B && pipes == P;
      }
    }

    /** The birds' half of `internalUpdate()`: UpdateBirds, which keeps the model's
        invariant. */
    method Steer() returns (ok: bool)
      requires Valid()
      modifies (Bodies(birds))`distance, (Bodies(birds))`velocity, (Bodies(birds))`y
      ensures Valid()
      ensures ok <==> (|birds| == 0 || |pipes| > 0)
      ensures frameCount == old(frameCount) && distance == old(distance)
    {
      hide Tick, Fall;
      ok := UpdateBirds();
      assert DistinctBirds(birds) && AllValid(birds) && DistinctPipes(pipes);
      assert geneticAlgorithm.Valid();
      assert |geneticAlgorithm.population| == POPULATION_SIZE;
    }

    /** The pipes' half of `internalUpdate()`: UpdatePipes, which keeps the model's
        invariant. */
    method Clear()
      requires Valid()
      modifies this`birds, this`pipes, (set p | p in pipes)`x, (set p | p in pipes)`highlight
      modifies (Bodies(birds))`distance
      ensures Valid()
      ensures pipes == old(Onscreen(pipes, Moved(pipes)))
      ensures birds == old(Survivors(Moved(pipes), birds, Heights(birds)))
      ensures Heights(old(birds)) == old(Heights(birds))
      ensures Among(birds, old(birds))
      ensures Among(pipes, old(pipes))
      ensures frameCount == old(frameCount) && distance == old(distance)
    {
      ghost var B := birds;
      ghost var P := pipes;
      ghost var G := Moved(pipes);
      ghost var ys := Heights(birds);
      OnscreenMembers(P, G);
      hide Survivors, Penalty, Onscreen, Moved, Heights;
      Sweep();
      SurvivorsKeepDistinct(G, B, ys);
      SurvivorsKeepValid(G, B, ys);
      assert birds == Survivors(G, B, ys);
      assert DistinctBirds(birds) && AllValid(birds);
      assert pipes == Onscreen(P, G) && DistinctPipes(pipes);
      assert geneticAlgorithm.Valid();
      assert |geneticAlgorithm.population| == POPULATION_SIZE && geneticAlgorithm.height == height && geneticAlgorithm.width == width;
      assert 0 <= distance && 0 <= lastDistance <= bestDistance;
      assert Valid();
    }

    /** UpdatePipes, seen only through the sequences it leaves; the brains are not
        touched. */
    method Sweep()
      requires DistinctBirds(birds) && AllValid(birds) && DistinctPipes(pipes) && geneticAlgorithm.Valid()
      modifies this`birds, this`pipes, (set p | p in pipes)`x, (set p | p in pipes)`highlight
      modifies (Bodies(birds))`distance
      ensures pipes == old(Onscreen(pipes, Moved(pipes)))
      ensures birds == old(Survivors(Moved(pipes), birds, Heights(birds)))
      ensures AllValid(old(birds)) && geneticAlgorithm.Valid()
      ensures Heights(old(birds)) == old(Heights(birds))
      ensures Among(birds, old(birds))
    {
      ghost var B, G, ys := birds, Moved(pipes), Heights(birds);
      hide Survivors, Penalty, Onscreen, Moved, Heights;
      UpdatePipes();
      forall b | b in birds ensures b in B {
        SurvivorFrom(G, B, ys, b);
      }
    }

    /** The counters of `internalUpdate()`: one more frame, one more unit of distance. */
    method Advance()
      requires Valid()
      modifies this`frameCount, this`distance
      ensures Valid() && frameCount == old(frameCount) + 1 && distance == old(distance) + 1
    {
      frameCount := frameCount + 1;
      distance := distance + 1;
    }
  }
}

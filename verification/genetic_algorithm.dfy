/** The generational genetic algorithm of src/geneticAlgorithm.ts, specialised to the one
    kind of DNA the trainer breeds (BirdWithBrain). Every random draw is a parameter. */
module Genetics {
  import opened Utils
  import opened NeuralNetworks
  import opened BirdsWithBrains

  const MUTATION_RATE: real := 0.01
  const SURVIVAL_RATE: real := 0.05
  const RENEWAL_RATE: real := 0.05

  // ------------------------------------------------------------ counts

  /** `keepCount = Math.floor(N * SURVIVAL_RATE)`: one member in twenty survives. */
  function KeepCount(n: nat): (k: nat)
    ensures k == n / 20
  {
    FloorOfTwentieth(n);
    (n as real * SURVIVAL_RATE).Floor
  }

  /** `newCount = Math.floor(N * RENEWAL_RATE)`: one member in twenty is replaced. */
  function NewCount(n: nat): (k: nat)
    ensures k == n / 20
  {
    FloorOfTwentieth(n);
    (n as real * RENEWAL_RATE).Floor
  }

  /** `crossCount = N - keepCount - newCount`, never negative. */
  function CrossCount(n: nat): (k: nat)
    ensures KeepCount(n) + k + NewCount(n) == n
  {
    n - KeepCount(n) - NewCount(n)
  }

  /** floor(n * 0.05) is the integer quotient n / 20. */
  lemma FloorOfTwentieth(n: nat)
    ensures (n as real * 0.05).Floor == n / 20
  {
    var q := n / 20;
    assert q * 20 <= n < q * 20 + 20;
    assert (q * 20) as real <= n as real < (q * 20 + 20) as real;
    assert q as real <= n as real * 0.05 < q as real + 1.0;
  }

  /** With the simulation's 300 birds: 15 elites, 270 children and 15 newcomers. */
  lemma CountsForPopulation()
    ensures KeepCount(300) == 15 && CrossCount(300) == 270 && NewCount(300) == 15
  {
  }

  // ------------------------------------------------------------ rank selection

  /** The selection probabilities: rank i (0 = fittest) gets (N - i)^2 / sumOfNSquares(N). */
  function RankProbabilities(n: nat): (p: seq<real>)
    ensures |p| == n
    ensures forall i :: 0 <= i < n ==> p[i] > 0.0
  {
    var total := SumOfNSquares(n);
    assert n > 0 ==> total >= n * n >= n > 0;
    var p := seq(n, i requires 0 <= i < n => Square(n - i) as real / total as real);
    forall i | 0 <= i < n ensures p[i] > 0.0 {
      SharePositive(Square(n - i), total);
    }
    p
  }

  /** A positive count's share of a positive total is positive. */
  lemma SharePositive(a: nat, total: nat)
    requires a > 0 && total > 0
    ensures a as real / total as real > 0.0
  {
  }

  function Square(k: nat): (q: nat)
    ensures k > 0 ==> q > 0
  {
    k * k
  }

  /** The sum of the first k entries of p. */
  function Prefix(p: seq<real>, k: nat): real
    requires k <= |p|
  {
    if k == 0 then 0.0 else Prefix(p, k - 1) + p[k - 1]
  }

  /** The rank weights (N - i)^2 before they are divided by their sum. */
  function RankWeights(n: nat): (w: seq<real>)
    ensures |w| == n
  {
    seq(n, i requires 0 <= i < n => Square(n - i) as real)
  }

  /** The first k weights add up to sumOfNSquares(N) - sumOfNSquares(N - k). */
  lemma {:induction false} PrefixOfWeights(n: nat, k: nat)
    requires k <= n
    ensures Prefix(RankWeights(n), k) == (SumOfNSquares(n) - SumOfNSquares(n - k)) as real
  {
    if k > 0 {
      PrefixOfWeights(n, k - 1);
      var m := n - k;
      assert SumOfNSquares(m + 1) == SumOfNSquares(m) + Square(m + 1);
      assert RankWeights(n)[k - 1] == Square(m + 1) as real;
    }
  }

  /** All N weights add up to sumOfNSquares(N). */
  lemma WeightsSum(n: nat)
    ensures Prefix(RankWeights(n), n) == SumOfNSquares(n) as real
  {
    PrefixOfWeights(n, n);
    var z := n - n;
    assert z == 0;
    assert SumOfNSquares(z) == 0;
  }

  /** Shares w[i] / s of a total s add up to the weights' sum divided by s. */
  lemma {:induction false} PrefixOfShares(p: seq<real>, w: seq<real>, s: real, k: nat)
    requires |p| == |w| && k <= |p| && s > 0.0
    requires forall i :: 0 <= i < |p| ==> p[i] == w[i] / s
    ensures Prefix(p, k) == Prefix(w, k) / s
  {
    if k > 0 {
      PrefixOfShares(p, w, s, k - 1);
      AddShares(Prefix(w, k - 1), w[k - 1], s);
    }
  }

  lemma AddShares(a: real, b: real, s: real)
    requires s > 0.0
    ensures a / s + b / s == (a + b) / s
  {
  }

  lemma WholeShare(s: real)
    requires s > 0.0
    ensures s / s == 1.0
  {
  }

  /** The rank probabilities are a distribution: positive, and they add up to 1. */
  lemma RankProbabilitiesSumToOne(n: nat)
    requires n > 0
    ensures Prefix(RankProbabilities(n), n) == 1.0
  {
    var p := RankProbabilities(n);
    var w := RankWeights(n);
    var s := SumOfNSquares(n) as real;
    assert SumOfNSquares(n) >= Square(n) > 0;
    assert forall i :: 0 <= i < |p| ==> p[i] == w[i] / s;
    PrefixOfShares(p, w, s, n);
    WeightsSum(n);
    WholeShare(s);
  }

  /** Dividing by s is scaling by 1 / s. */
  lemma DivByScaling(a: real, s: real)
    requires s > 0.0
    ensures a / s == a * (1.0 / s)
  {
  }

  /** The fittest rank is N^2 times as likely as the least fit one. */
  lemma RankBias(n: nat)
    requires n > 0
    ensures RankProbabilities(n)[0] == (n * n) as real * RankProbabilities(n)[n - 1]
  {
    var s := SumOfNSquares(n) as real;
    var p := RankProbabilities(n);
    assert Square(n) == n * n > 0 && Square(n - (n - 1)) == 1;
    assert s > 0.0;
    assert p[n - 1] == 1.0 / s;
    assert p[0] == (n * n) as real / s;
    DivByScaling((n * n) as real, s);
  }

  /** The first index i >= k whose prefix sum through i reaches r (the last index if none). */
  function FirstReaching(p: seq<real>, r: real, k: nat): (i: nat)
    requires k < |p|
    ensures k <= i < |p|
    decreases |p| - k
  {
    if k == |p| - 1 || Prefix(p, k + 1) >= r then k else FirstReaching(p, r, k + 1)
  }

  /** The rank a draw r selects: the smallest index whose prefix sum of probabilities is
      at least r. */
  function RankIndex(n: nat, r: real): (i: nat)
    requires n > 0
    ensures i < n
  {
    FirstReaching(RankProbabilities(n), r, 0)
  }

  /** i is the first index whose prefix sum through i (the first i + 1 entries) is at
      least r. */
  predicate FirstToReach(p: seq<real>, r: real, i: nat)
  {
    i < |p| && Prefix(p, i + 1) >= r && forall j :: 0 < j <= i ==> Prefix(p, j) < r
  }

  lemma {:induction false} FirstReachingIsFirst(p: seq<real>, r: real, k: nat)
    requires k < |p|
    ensures var i := FirstReaching(p, r, k);
      (Prefix(p, i + 1) >= r || i == |p| - 1) &&
      forall j :: k < j <= i ==> Prefix(p, j) < r
    decreases |p| - k
  {
    if !(k == |p| - 1 || Prefix(p, k + 1) >= r) {
      FirstReachingIsFirst(p, r, k + 1);
    }
  }

  /** For a draw r <= 1, RankIndex is exactly the first index whose prefix sum reaches r:
      it is one, and any index that is one is RankIndex. */
  lemma RankIndexIsFirstToReach(n: nat, r: real, i: nat)
    requires n > 0 && r <= 1.0
    ensures FirstToReach(RankProbabilities(n), r, RankIndex(n, r))
    ensures FirstToReach(RankProbabilities(n), r, i) <==> i == RankIndex(n, r)
  {
    var p := RankProbabilities(n);
    FirstReachingIsFirst(p, r, 0);
    RankProbabilitiesSumToOne(n);
  }

  /** The draw 0 selects the fittest rank. */
  lemma RankIndexOfZero(n: nat)
    requires n > 0
    ensures RankIndex(n, 0.0) == 0
  {
    var p := RankProbabilities(n);
    assert Prefix(p, 1) == p[0];
  }

  /** The walk of `pickRandomByRank` as written, on a draw r of `p.random(1)`: subtract
      probabilities until r is no longer positive, then step back one index. For r = 0 the
      loop never runs and the index is -1, which is no member of the population. */
  method RankWalk(n: nat, r: real) returns (index: int)
    requires n > 0 && 0.0 <= r < 1.0
    ensures r == 0.0 ==> index == -1
    ensures r > 0.0 ==> index == RankIndex(n, r)
  {
    var probs := RankProbabilities(n);
    RankProbabilitiesSumToOne(n);
    index := 0;
    var left := r;
    while left > 0.0
      invariant 0 <= index <= n
      invariant left == r - Prefix(probs, index)
      invariant forall j :: 0 <= j < index ==> Prefix(probs, j) < r
      decreases n - index
    {
      left := left - probs[index];
      index := index + 1;
    }
    index := index - 1;
    if r > 0.0 {
      RankIndexIsFirstToReach(n, r, index);
    }
  }

  // ------------------------------------------------------------ sorting

  /** Fitness does not increase along the sequence. */
  predicate SortedByFitness(s: seq<BirdWithBrain>)
    reads s
  {
    forall i, j :: 0 <= i < j < |s| ==> s[i].fitness >= s[j].fitness
  }

  /** x shares no bird, body or brain with any entry of s. */
  predicate Apart(x: BirdWithBrain, s: seq<BirdWithBrain>)
  {
    forall k :: 0 <= k < |s| ==> s[k] != x && s[k].body != x.body && s[k].brain != x.brain
  }

  /** No two entries share a bird, a body or a brain. */
  predicate DistinctBirds(s: seq<BirdWithBrain>)
  {
    forall i, j :: 0 <= i < j < |s| ==> s[i] != s[j] && s[i].body != s[j].body && s[i].brain != s[j].brain
  }

  /** x placed after every entry of s at least as fit as x, before the first less fit one. */
  function Insert(x: BirdWithBrain, s: seq<BirdWithBrain>): (r: seq<BirdWithBrain>)
    reads x, s
    ensures |r| == |s| + 1 && multiset(r) == multiset(s) + multiset{x}
  {
    if |s| == 0 then [x]
    else if s[0].fitness >= x.fitness then
      assert s == [s[0]] + s[1..];
      [s[0]] + Insert(x, s[1..])
    else [x] + s
  }

  /** `population.sort((a, b) => b.fitness - a.fitness)`: the members by non-increasing
      fitness, equally fit members in their old order. */
  function SortByFitness(s: seq<BirdWithBrain>): (r: seq<BirdWithBrain>)
    reads s
    ensures |r| == |s| && multiset(r) == multiset(s)
  {
    if |s| == 0 then []
    else
      var init := s[..|s| - 1];
      var t := SortByFitness(init);
      assert s == init + [s[|s| - 1]];
      assert forall k :: 0 <= k < |t| ==> t[k] in multiset(init) && t[k] in s;
      Insert(s[|s| - 1], t)
  }

  lemma {:induction false} InsertKeepsOrder(x: BirdWithBrain, s: seq<BirdWithBrain>)
    requires SortedByFitness(s)
    ensures SortedByFitness(Insert(x, s))
  {
    if |s| > 0 && s[0].fitness >= x.fitness {
      var t := Insert(x, s[1..]);
      InsertKeepsOrder(x, s[1..]);
      forall k | 0 <= k < |t| ensures t[k].fitness <= s[0].fitness {
        assert t[k] in multiset(s[1..]) + multiset{x};
      }
    }
  }

  /** An entry apart from all of u is apart from a sequence of entries of u. */
  lemma ApartFromMembers(y: BirdWithBrain, t: seq<BirdWithBrain>, u: seq<BirdWithBrain>)
    requires Apart(y, u) && forall k :: 0 <= k < |t| ==> t[k] in u
    ensures Apart(y, t)
  {
    forall k | 0 <= k < |t| ensures t[k] != y && t[k].body != y.body && t[k].brain != y.brain {
      var m :| 0 <= m < |u| && u[m] == t[k];
    }
  }

  lemma ConsDistinct(y: BirdWithBrain, t: seq<BirdWithBrain>)
    requires DistinctBirds(t) && Apart(y, t)
    ensures DistinctBirds([y] + t)
  {
    var r := [y] + t;
    forall i, j | 0 <= i < j < |r|
      ensures r[i] != r[j] && r[i].body != r[j].body && r[i].brain != r[j].brain
    {
      if i > 0 {
        assert r[i] == t[i - 1] && r[j] == t[j - 1];
      }
    }
  }

  lemma {:induction false} InsertKeepsApart(x: BirdWithBrain, s: seq<BirdWithBrain>)
    requires DistinctBirds(s) && Apart(x, s)
    ensures DistinctBirds(Insert(x, s))
  {
    if |s| == 0 {
    } else if s[0].fitness >= x.fitness {
      var tail := s[1..];
      var t := Insert(x, tail);
      InsertKeepsApart(x, tail);
      assert Apart(s[0], tail + [x]);
      forall k | 0 <= k < |t| ensures t[k] in tail + [x] {
        assert t[k] in multiset(tail) + multiset{x};
      }
      ApartFromMembers(s[0], t, tail + [x]);
      ConsDistinct(s[0], t);
    } else {
      ConsDistinct(x, s);
    }
  }

  /** The sort is a permutation into non-increasing order of fitness. */
  lemma {:induction false} SortIsSortedPermutation(s: seq<BirdWithBrain>)
    ensures multiset(SortByFitness(s)) == multiset(s) && SortedByFitness(SortByFitness(s))
  {
    if |s| > 0 {
      var init := s[..|s| - 1];
      SortIsSortedPermutation(init);
      InsertKeepsOrder(s[|s| - 1], SortByFitness(init));
    }
  }

  /** The entries of s whose fitness is v, in their order in s. */
  function WithFitness(s: seq<BirdWithBrain>, v: real): (r: seq<BirdWithBrain>)
    reads s
    ensures |r| <= |s|
  {
    if |s| == 0 then []
    else (if s[0].fitness == v then [s[0]] else []) + WithFitness(s[1..], v)
  }

  lemma {:induction false} WithFitnessAppend(a: seq<BirdWithBrain>, b: seq<BirdWithBrain>, v: real)
    ensures WithFitness(a + b, v) == WithFitness(a, v) + WithFitness(b, v)
  {
    if |a| == 0 {
      assert a + b == b;
    } else {
      assert (a + b)[0] == a[0] && (a + b)[1..] == a[1..] + b;
      WithFitnessAppend(a[1..], b, v);
    }
  }

  lemma {:induction false} WithFitnessNone(s: seq<BirdWithBrain>, v: real)
    requires forall k :: 0 <= k < |s| ==> s[k].fitness < v
    ensures WithFitness(s, v) == []
  {
    if |s| > 0 {
      WithFitnessNone(s[1..], v);
    }
  }

  /** A sorted sequence that starts below v has no entry of fitness v. */
  lemma SortedBelow(t: seq<BirdWithBrain>, v: real)
    requires SortedByFitness(t) && (|t| == 0 || t[0].fitness < v)
    ensures WithFitness(t, v) == []
  {
    forall k | 0 <= k < |t| ensures t[k].fitness < v {
      assert t[0].fitness >= t[k].fitness;
    }
    WithFitnessNone(t, v);
  }

  lemma WithFitnessCons(y: BirdWithBrain, t: seq<BirdWithBrain>, v: real)
    ensures WithFitness([y] + t, v) == (if y.fitness == v then [y] else []) + WithFitness(t, v)
  {
    assert ([y] + t)[0] == y && ([y] + t)[1..] == t;
  }

  /** x goes in front of a sorted sequence whose first entry is less fit than x. */
  lemma InsertInFront(x: BirdWithBrain, t: seq<BirdWithBrain>, v: real)
    requires SortedByFitness(t) && (|t| == 0 || t[0].fitness < x.fitness)
    ensures WithFitness(Insert(x, t), v) == WithFitness(t, v) + (if x.fitness == v then [x] else [])
  {
    var mine := if x.fitness == v then [x] else [];
    assert Insert(x, t) == [x] + t;
    hide Insert, WithFitness;
    WithFitnessCons(x, t, v);
    if x.fitness == v {
      SortedBelow(t, v);
      assert mine + [] == [] + mine;
    }
  }

  /** Inserting x into a sorted sequence puts it after every entry as fit as it. */
  lemma {:induction false} InsertAfterEqual(x: BirdWithBrain, t: seq<BirdWithBrain>, v: real)
    requires SortedByFitness(t)
    ensures WithFitness(Insert(x, t), v) == WithFitness(t, v) + (if x.fitness == v then [x] else [])
  {
    if |t| > 0 && t[0].fitness >= x.fitness {
      var mine := if x.fitness == v then [x] else [];
      var head := if t[0].fitness == v then [t[0]] else [];
      var rest := Insert(x, t[1..]);
      var below := WithFitness(t[1..], v);
      assert WithFitness(t, v) == head + below;
      assert Insert(x, t) == [t[0]] + rest;
      assert SortedByFitness(t[1..]);
      hide Insert, WithFitness, SortedByFitness;
      WithFitnessCons(t[0], rest, v);
      InsertAfterEqual(x, t[1..], v);
      assert (head + below) + mine == head + (below + mine);
    } else {
      InsertInFront(x, t, v);
    }
  }

  /** The sort is stable: the members of any one fitness keep their relative order. */
  lemma WithFitnessSnoc(init: seq<BirdWithBrain>, x: BirdWithBrain, v: real)
    ensures WithFitness(init + [x], v) == WithFitness(init, v) + (if x.fitness == v then [x] else [])
  {
    WithFitnessAppend(init, [x], v);
    assert WithFitness([x], v) == (if x.fitness == v then [x] else []) + WithFitness([x][1..], v);
  }

  /** The sort is stable: the members of any one fitness keep their relative order. */
  lemma {:induction false} SortIsStable(s: seq<BirdWithBrain>, v: real)
    ensures WithFitness(SortByFitness(s), v) == WithFitness(s, v)
  {
    if |s| > 0 {
      var init := s[..|s| - 1];
      var x := s[|s| - 1];
      var t := SortByFitness(init);
      assert SortByFitness(s) == Insert(x, t);
      assert s == init + [x];
      hide SortByFitness, Insert, WithFitness, SortedByFitness;
      SortIsStable(init, v);
      SortIsSortedPermutation(init);
      InsertAfterEqual(x, t, v);
      WithFitnessSnoc(init, x, v);
    }
  }

  /** The sort keeps members apart. */
  lemma {:induction false} SortKeepsDistinct(s: seq<BirdWithBrain>)
    requires DistinctBirds(s)
    ensures DistinctBirds(SortByFitness(s))
  {
    if |s| > 0 {
      var init := s[..|s| - 1];
      var x := s[|s| - 1];
      var t := SortByFitness(init);
      assert DistinctBirds(init);
      SortKeepsDistinct(init);
      assert Apart(x, init);
      forall k | 0 <= k < |t| ensures t[k] in init {
        assert t[k] in multiset(init);
      }
      ApartFromMembers(x, t, init);
      InsertKeepsApart(x, t);
    }
  }

  /** Whatever the sort puts first is at least as fit as every member. */
  lemma FirstIsFittest(s: seq<BirdWithBrain>)
    requires |s| > 0
    ensures forall b :: b in s ==> b.fitness <= SortByFitness(s)[0].fitness
  {
    var sorted := SortByFitness(s);
    SortIsSortedPermutation(s);
    forall b | b in s
      ensures b.fitness <= sorted[0].fitness
    {
      assert b in multiset(sorted);
      var k :| 0 <= k < |sorted| && sorted[k] == b;
    }
  }

  // ------------------------------------------------------------ evaluate

  /** The accumulator of `evaluate`'s reduce. */
  datatype Record = Record(index: nat, worldrecord: real)

  /** `evaluate`'s fold over the fitnesses, left to right from { index: 0, worldrecord: 0 }:
      a fitness strictly above the record so far takes over. */
  function BestRecord(f: seq<real>): (r: Record)
    ensures r.worldrecord >= 0.0
    ensures r.worldrecord > 0.0 ==> r.index < |f| && f[r.index] == r.worldrecord
    ensures r.worldrecord == 0.0 ==> r.index == 0
  {
    if |f| == 0 then Record(0, 0.0)
    else
      var acc := BestRecord(f[..|f| - 1]);
      if f[|f| - 1] > acc.worldrecord then Record(|f| - 1, f[|f| - 1]) else acc
  }

  /** The fold finds the first strict maximum when some fitness is positive, and index 0
      when none is. */
  lemma {:induction false} BestRecordIsFirstMaximum(f: seq<real>)
    ensures var r := BestRecord(f);
      && r.worldrecord >= 0.0
      && (forall j :: 0 <= j < |f| ==> f[j] <= r.worldrecord)
      && (r.worldrecord > 0.0 ==>
            r.index < |f| && f[r.index] == r.worldrecord &&
            forall j :: 0 <= j < r.index ==> f[j] < r.worldrecord)
      && (r.worldrecord == 0.0 ==> r.index == 0)
      && ((exists j :: 0 <= j < |f| && f[j] > 0.0) <==> r.worldrecord > 0.0)
  {
    if |f| > 0 {
      var g := f[..|f| - 1];
      BestRecordIsFirstMaximum(g);
      assert forall j :: 0 <= j < |g| ==> g[j] == f[j];
    }
  }

  /** The fitness of each member, in order. */
  function Fitnesses(s: seq<BirdWithBrain>): (f: seq<real>)
    reads s
    ensures |f| == |s|
  {
    seq(|s|, i requires 0 <= i < |s| reads s => s[i].fitness)
  }

  // ------------------------------------------------------------ breeding draws

  /** The draws one crossover child takes: the two `p.random(1)` of the rank walks, the
      child's own initial weights (overwritten by the crossover), and the mutation's. */
  datatype Breeding = Breeding(pickA: real, pickB: real, seed: Model, mutation: MutationDraws)

  predicate FairBreeding(d: Breeding)
  {
    0.0 <= d.pickA < 1.0 && 0.0 <= d.pickB < 1.0 && IsGenome(d.seed) && FairDraws(d.mutation)
  }

  /** The set of the members' brains. */
  function Brains(s: seq<BirdWithBrain>): set<NeuralNetwork>
  {
    set b | b in s :: b.brain
  }

  predicate AllValid(s: seq<BirdWithBrain>)
    reads Brains(s)
  {
    forall i :: 0 <= i < |s| ==> s[i].brain in Brains(s) && s[i].Valid()
  }

  /** The members' phenotypes (saved brains), in order. */
  function Phenotypes(s: seq<BirdWithBrain>): (g: seq<Model>)
    reads Brains(s)
    ensures |g| == |s| && forall i :: 0 <= i < |s| ==> g[i] == s[i].brain.SaveModel()
    ensures AllValid(s) ==> forall i :: 0 <= i < |s| ==> IsGenome(g[i])
  {
    seq(|s|, i requires 0 <= i < |s| reads Brains(s) => s[i].brain.SaveModel())
  }

  /** The brain of the child bred, with draws d, from a population whose phenotypes are
      genomes (sorted by fitness): the average of the two rank-selected parents' brains,
      then mutated. */
  function Offspring(genomes: seq<Model>, d: Breeding, rate: real): (m: Model)
    requires |genomes| > 0 && (forall i :: 0 <= i < |genomes| ==> IsGenome(genomes[i])) && FairBreeding(d)
    ensures IsGenome(m)
  {
    var a := genomes[RankIndex(|genomes|, d.pickA)];
    var b := genomes[RankIndex(|genomes|, d.pickB)];
    GenomesAreCongruent(a, b);
    var mean := Average(a, b);
    GenomesAreCongruent(a, d.mutation.coins);
    GenomesAreCongruent(a, d.mutation.noise);
    CongruentToGenome(a, mean);
    var m := Mutated(mean, rate, d.mutation);
    CongruentToGenome(mean, m);
    m
  }

  /** The brains of the children of one crossover loop, one per draw. */
  function Broods(genomes: seq<Model>, breedings: seq<Breeding>, rate: real): (r: seq<Model>)
    requires |breedings| > 0 ==> |genomes| > 0
    requires forall i :: 0 <= i < |genomes| ==> IsGenome(genomes[i])
    requires forall k :: 0 <= k < |breedings| ==> FairBreeding(breedings[k])
    ensures |r| == |breedings|
    ensures forall k :: 0 <= k < |breedings| ==> r[k] == Offspring(genomes, breedings[k], rate)
  {
    seq(|breedings|, k requires 0 <= k < |breedings| => Offspring(genomes, breedings[k], rate))
  }

  /** A permutation of well-formed birds consists of well-formed birds. */
  lemma PermutationKeepsValid(a: seq<BirdWithBrain>, b: seq<BirdWithBrain>)
    requires multiset(a) == multiset(b) && AllValid(a)
    ensures AllValid(b)
  {
    forall i | 0 <= i < |b| ensures b[i].Valid() {
      assert b[i] in multiset(a);
      var j :| 0 <= j < |a| && a[j] == b[i];
    }
  }

  /** Appending well-formed birds keeps all well-formed, and appends their phenotypes. */
  lemma AppendValid(a: seq<BirdWithBrain>, b: seq<BirdWithBrain>)
    requires AllValid(a) && AllValid(b)
    ensures AllValid(a + b) && Phenotypes(a + b) == Phenotypes(a) + Phenotypes(b)
  {
    var c := a + b;
    forall i | 0 <= i < |c| ensures c[i].brain in Brains(c) && c[i].Valid() {
      if i < |a| {
        assert c[i] == a[i];
      } else {
        assert c[i] == b[i - |a|];
      }
    }
    assert Phenotypes(c) == Phenotypes(a) + Phenotypes(b);
  }

  /** No entry of a shares anything with an entry of b. */
  predicate Separate(a: seq<BirdWithBrain>, b: seq<BirdWithBrain>)
  {
    forall k :: 0 <= k < |a| ==> Apart(a[k], b)
  }

  lemma AppendSeparate(a: seq<BirdWithBrain>, y: BirdWithBrain, b: seq<BirdWithBrain>)
    requires Separate(a, b) && Apart(y, b)
    ensures Separate(a + [y], b)
  {
    forall k | 0 <= k < |a| + 1 ensures Apart((a + [y])[k], b) {
      if k < |a| {
        assert (a + [y])[k] == a[k];
      }
    }
  }

  lemma SeparateFromPrefix(a: seq<BirdWithBrain>, s: seq<BirdWithBrain>, k: nat)
    requires k <= |s| && Separate(a, s)
    ensures Separate(a, s[..k])
  {
    forall i | 0 <= i < |a| ensures Apart(a[i], s[..k]) {
      assert Apart(a[i], s);
    }
  }

  lemma PrefixValid(s: seq<BirdWithBrain>, k: nat)
    requires k <= |s| && DistinctBirds(s) && AllValid(s)
    ensures DistinctBirds(s[..k]) && AllValid(s[..k])
  {
    var p := s[..k];
    forall i | 0 <= i < k ensures p[i].brain in Brains(p) && p[i].Valid() {
      assert p[i] == s[i];
    }
  }

  /** Two sequences of distinct birds, none of the second sharing anything with the first,
      make one sequence of distinct birds. */
  lemma AppendDistinct(a: seq<BirdWithBrain>, b: seq<BirdWithBrain>)
    requires DistinctBirds(a) && DistinctBirds(b) && Separate(b, a)
    ensures DistinctBirds(a + b)
  {
  }

  lemma AppendPhenotype(s: seq<BirdWithBrain>, b: BirdWithBrain)
    ensures Phenotypes(s + [b]) == Phenotypes(s) + [b.brain.SaveModel()]
  {
    assert Phenotypes(s + [b]) == Phenotypes(s) + [b.brain.SaveModel()];
  }

  lemma MiddleOf<T>(a: seq<T>, b: seq<T>, c: seq<T>)
    ensures (a + b + c)[|a|..|a| + |b|] == b
  {
  }

  lemma SliceSnoc<T>(s: seq<T>, i: nat)
    requires i < |s|
    ensures s[..i + 1] == s[..i] + [s[i]]
  {
  }

  /** A bird exactly as `getNew()` builds it, with seed as its brain. */
  predicate Newborn(b: BirdWithBrain, seed: Model)
    reads b, b.body, b.brain
  {
    b.brain.SaveModel() == seed && b.fitness == 0.0 && b.body.AtStart()
  }

  // ------------------------------------------------------------ the algorithm

  class GeneticAlgorithm {
    var population: seq<BirdWithBrain>
    var generations: nat
    var mutationRate: real
    var best: Option<Model>
    /** The canvas the builder's birds are made for. */
    const height: real
    const width: real

    /** Every member is a well-formed bird, and no two share a bird, body or brain. */
    predicate Valid()
      reads this`population, Brains(population)
    {
      height > 0.0 && width > 0.0 && DistinctBirds(population) && AllValid(population)
    }

    /** `new GeneticAlgorithm(p, builder)`: empty, generation 0, no best yet. */
    constructor (height: real, width: real)
      requires height > 0.0 && width > 0.0
      ensures Valid() && population == [] && generations == 0
      ensures mutationRate == MUTATION_RATE && best == None
      ensures this.height == height && this.width == width
    {
      population := [];
      generations := 0;
      mutationRate := MUTATION_RATE;
      best := None;
      this.height := height;
      this.width := width;
    }

    /** `initPopulation(size)`: size newborns (size = |seeds|) appended. */
    method InitPopulation(seeds: seq<Model>)
      requires Valid() && forall k :: 0 <= k < |seeds| ==> IsGenome(seeds[k])
      modifies this`population
      ensures Valid()
      ensures |population| == |old(population)| + |seeds|
      ensures population[..|old(population)|] == old(population)
      ensures forall k :: |old(population)| <= k < |population| ==>
        fresh(population[k]) && Newborn(population[k], seeds[k - |old(population)|])
    {
      AddNewSpecimens(seeds);
    }

    /** `addNewSpecimens(count)`: one newborn per seed appended to the population. */
    method AddNewSpecimens(seeds: seq<Model>)
      requires Valid() && forall k :: 0 <= k < |seeds| ==> IsGenome(seeds[k])
      modifies this`population
      ensures Valid()
      ensures |population| == |old(population)| + |seeds|
      ensures population[..|old(population)|] == old(population)
      ensures forall k :: |old(population)| <= k < |population| ==>
        fresh(population[k]) && fresh(population[k].body) && Newborn(population[k], seeds[k - |old(population)|])
      ensures Phenotypes(population) == old(Phenotypes(population)) + seeds
    {
      var o := |population|;
      var i := 0;
      while i < |seeds|
        invariant 0 <= i <= |seeds| && |population| == o + i
        invariant population[..o] == old(population)
        invariant Phenotypes(population) == old(Phenotypes(population)) + seeds[..i]
        invariant Valid()
        invariant forall k :: o <= k < |population| ==>
          fresh(population[k]) && fresh(population[k].body) && fresh(population[k].brain) &&
          Newborn(population[k], seeds[k - o])
      {
        PushNewborn(seeds[i]);
        SliceSnoc(seeds, i);
        i := i + 1;
      }
    }

    /** `population.push(dnaBuilder.getNew())`: one newborn, with seed as its brain, appended. */
    method PushNewborn(seed: Model)
      requires Valid() && IsGenome(seed)
      modifies this`population
      ensures Valid() && |population| == |old(population)| + 1
      ensures population[..|old(population)|] == old(population)
      ensures var b := population[|old(population)|];
        fresh(b) && fresh(b.body) && fresh(b.brain) && Newborn(b, seed)
      ensures Phenotypes(population) == old(Phenotypes(population)) + [seed]
    {
      var b := new BirdWithBrain(height, width, seed);
      assert Apart(b, population);
      AppendDistinct(population, [b]);
      AppendValid(population, [b]);
      AppendPhenotype(population, b);
      population := population + [b];
      assert population[..|old(population)|] == old(population);
    }

    /** `calcFitness(target)`: every member's distance becomes its fitness. */
    method CalcFitness(target: real)
      requires Valid()
      modifies population, (set b | b in population :: b.body)`distance
      ensures forall i :: 0 <= i < |population| ==>
        population[i].fitness == old(population[i].body.distance) && population[i].body.distance == 0.0
    {
      for i := 0 to |population|
        invariant forall k :: 0 <= k < i ==>
          population[k].fitness == old(population[k].body.distance) && population[k].body.distance == 0.0
        invariant forall k :: i <= k < |population| ==> population[k].body.distance == old(population[k].body.distance)
      {
        population[i].CalcFitness(target);
      }
    }

    /** `pickRandomByRank()` on the draw r, with the walk's -1 for r = 0 read as rank 0:
        the member of the rank RankIndex selects. */
    method PickRandomByRank(r: real) returns (dna: BirdWithBrain)
      requires |population| > 0 && 0.0 <= r < 1.0
      ensures dna == population[RankIndex(|population|, r)]
    {
      var index := RankWalk(|population|, r);
      if index < 0 {
        RankIndexOfZero(|population|);
        index := 0;
      }
      dna := population[index];
    }

    /** `evaluate()`: best becomes the phenotype of the first strictly fittest member. */
    method Evaluate()
      requires Valid() && |population| > 0
      modifies this`best
      ensures var i := BestRecord(Fitnesses(population)).index;
        i < |population| && best == Some(population[i].GetPhenotype())
    {
      var record := BestRecord(Fitnesses(population));
      BestRecordIsFirstMaximum(Fitnesses(population));
      best := Some(population[record.index].GetPhenotype());
    }

    /** One pass of the crossover loop: two parents picked by rank, their child, mutated. */
    method Breed(d: Breeding) returns (child: BirdWithBrain)
      requires Valid() && |population| > 0 && FairBreeding(d)
      ensures fresh(child) && fresh(child.body) && fresh(child.brain) && child.Valid()
      ensures child.body.AtStart() && Apart(child, population)
      ensures child.brain.SaveModel() == old(Offspring(Phenotypes(population), d, mutationRate))
    {
      var partnerA := PickRandomByRank(d.pickA);
      var partnerB := PickRandomByRank(d.pickB);
      var child0 := partnerA.Crossover(partnerB, d.seed);
      child0.Mutate(mutationRate, d.mutation);
      child := child0;
    }

    /** children with one more child, bred with the draws d, appended. */
    method AppendChild(children: seq<BirdWithBrain>, d: Breeding) returns (more: seq<BirdWithBrain>)
      requires Valid() && |population| > 0 && FairBreeding(d)
      requires DistinctBirds(children) && AllValid(children) && Separate(children, population)
      ensures |more| == |children| + 1 && more == children + [more[|children|]]
      ensures fresh(more[|children|]) && fresh(more[|children|].body) && more[|children|].body.AtStart()
      ensures DistinctBirds(more) && AllValid(more) && Separate(more, population)
      ensures Phenotypes(more) == old(Phenotypes(children)) + [old(Offspring(Phenotypes(population), d, mutationRate))]
    {
      var child := Breed(d);
      assert Apart(child, children);
      AppendDistinct(children, [child]);
      AppendSeparate(children, child, population);
      AppendValid(children, [child]);
      assert Phenotypes([child]) == [child.brain.SaveModel()];
      more := children + [child];
    }

    /** The crossover loop of `naturalSelection`: one child per draw, bred from the current
        (sorted) population. Nothing that exists changes. */
    method BreedChildren(breedings: seq<Breeding>) returns (children: seq<BirdWithBrain>)
      requires Valid() && (|breedings| > 0 ==> |population| > 0)
      requires forall k :: 0 <= k < |breedings| ==> FairBreeding(breedings[k])
      ensures |children| == |breedings| && DistinctBirds(children) && AllValid(children)
      ensures forall k :: 0 <= k < |children| ==>
        fresh(children[k]) && fresh(children[k].body) && children[k].body.AtStart()
      ensures Separate(children, population)
      ensures Phenotypes(children) == old(Broods(Phenotypes(population), breedings, mutationRate))
    {
      ghost var targets := Broods(Phenotypes(population), breedings, mutationRate);
      children := [];
      for i := 0 to |breedings|
        invariant |children| == i && DistinctBirds(children) && AllValid(children)
        invariant forall k :: 0 <= k < i ==>
          fresh(children[k]) && fresh(children[k].body) && children[k].body.AtStart()
        invariant Separate(children, population)
        invariant Phenotypes(children) == targets[..i]
      {
        ghost var before := children;
        children := AppendChild(children, breedings[i]);
        forall k | 0 <= k < i + 1
          ensures fresh(children[k]) && fresh(children[k].body) && children[k].body.AtStart()
        {
          if k < i {
            assert children[k] == before[k];
          }
        }
        SliceSnoc(targets, i);
      }
    }

    /** The sort of `naturalSelection`: the population by non-increasing fitness
        (SortIsSortedPermutation says what that is). */
    method SortPopulation()
      requires Valid()
      modifies this`population
      ensures Valid() && population == old(SortByFitness(population))
      ensures Phenotypes(population) == old(Phenotypes(SortByFitness(population)))
    {
      SortKeepsDistinct(population);
      PermutationKeepsValid(population, SortByFitness(population));
      population := SortByFitness(population);
    }

    /** The reset loop of `naturalSelection()`: `reset()` on each of the first keep members.
        Nothing changes. */
    method ResetElites(keep: nat)
      requires Valid() && keep <= |population|
      ensures Valid() && Phenotypes(population) == old(Phenotypes(population))
    {
      for i := 0 to keep
        invariant Valid() && Phenotypes(population) == old(Phenotypes(population))
      {
        population[i].Reset();
      }
    }

    /** `this.population = newPopulation`: the first keep members followed by the children. */
    method Install(keep: nat, children: seq<BirdWithBrain>)
      requires Valid() && keep <= |population|
      requires DistinctBirds(children) && AllValid(children) && Separate(children, population)
      modifies this`population
      ensures Valid() && |population| == keep + |children|
      ensures population[..keep] == old(population[..keep])
      ensures forall k :: keep <= k < |population| ==> population[k] == children[k - keep]
      ensures Phenotypes(population)[keep..] == old(Phenotypes(children))
    {
      var elites := population[..keep];
      PrefixValid(population, keep);
      SeparateFromPrefix(children, population, keep);
      AppendDistinct(elites, children);
      AppendValid(elites, children);
      ghost var g := Phenotypes(elites + children);
      assert g[keep..] == Phenotypes(children);
      population := elites + children;
      assert population[..keep] == elites;
      assert Phenotypes(population) == g;
    }

    /** The middle of `naturalSelection()`, on the sorted population: its first keepCount
        members kept (and reset) and crossCount children, bred from it, after them. */
    method Renew(breedings: seq<Breeding>)
      requires Valid()
      requires |breedings| == CrossCount(|population|)
      requires forall k :: 0 <= k < |breedings| ==> FairBreeding(breedings[k])
      modifies this`population
      ensures Valid() && |population| == KeepCount(|old(population)|) + |breedings|
      ensures population[..KeepCount(|old(population)|)] == old(population[..KeepCount(|population|)])
      ensures Phenotypes(population)[KeepCount(|old(population)|)..] ==
        old(Broods(Phenotypes(population), breedings, mutationRate))
      ensures forall k :: KeepCount(|old(population)|) <= k < |population| ==>
        fresh(population[k]) && fresh(population[k].body) && population[k].body.AtStart()
    {
      var keep := KeepCount(|population|);
      ResetElites(keep);
      var children := BreedChildren(breedings);
      Install(keep, children);
    }

    /** The end of `naturalSelection()`: `addNewSpecimens(newCount)`, then one more
        generation. */
    method Conclude(newSeeds: seq<Model>)
      requires Valid() && forall k :: 0 <= k < |newSeeds| ==> IsGenome(newSeeds[k])
      modifies this`population, this`generations
      ensures Valid() && generations == old(generations) + 1
      ensures |population| == |old(population)| + |newSeeds|
      ensures population[..|old(population)|] == old(population)
      ensures Phenotypes(population) == old(Phenotypes(population)) + newSeeds
      ensures forall k :: |old(population)| <= k < |population| ==>
        fresh(population[k]) && fresh(population[k].body) && Newborn(population[k], newSeeds[k - |old(population)|])
    {
      AddNewSpecimens(newSeeds);
      generations := generations + 1;
    }

    /** `naturalSelection()` with its draws: the population sorted by fitness, its first
        keepCount kept, crossCount children bred from rank-selected parents of the sorted
        population (whose phenotypes are genomes), newCount newborns appended, and one more
        generation. */
    method NaturalSelection(breedings: seq<Breeding>, newSeeds: seq<Model>)
        returns (ghost sorted: seq<BirdWithBrain>, ghost genomes: seq<Model>)
      requires Valid()
      requires |breedings| == CrossCount(|population|)
      requires forall k :: 0 <= k < |breedings| ==> FairBreeding(breedings[k])
      requires |newSeeds| == NewCount(|population|)
      requires forall k :: 0 <= k < |newSeeds| ==> IsGenome(newSeeds[k])
      modifies this`population, this`generations
      ensures Valid() && generations == old(generations) + 1
      ensures sorted == old(SortByFitness(population)) && |population| == |sorted|
      ensures genomes == old(Phenotypes(SortByFitness(population)))
      ensures forall i :: 0 <= i < |genomes| ==> IsGenome(genomes[i])
      ensures population[..KeepCount(|sorted|)] == sorted[..KeepCount(|sorted|)]
      ensures Phenotypes(population)[KeepCount(|sorted|)..|sorted| - NewCount(|sorted|)] ==
        Broods(genomes, breedings, mutationRate)
      ensures forall k :: |sorted| - NewCount(|sorted|) <= k < |population| ==>
        Newborn(population[k], newSeeds[k - (|sorted| - NewCount(|sorted|))])
      ensures forall k :: KeepCount(|sorted|) <= k < |population| ==>
        fresh(population[k]) && fresh(population[k].body) && population[k].body.AtStart()
    {
      SortPopulation();
      sorted := population;
      genomes := Phenotypes(population);
      var keep := KeepCount(|sorted|);
      Renew(breedings);
      ghost var kept := population;
      ghost var mid := Phenotypes(population);
      Conclude(newSeeds);
      MiddleOf(mid[..keep], mid[keep..], newSeeds);
      assert mid[..keep] + mid[keep..] == mid;
      assert population[..keep] == kept[..keep];
      assert |kept| == |sorted| - NewCount(|sorted|);
    }
  }
}

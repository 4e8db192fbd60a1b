/**
 * `MyPopulation`: a bounded list of individuals with an elitism rate. The
 * next generation starts from the fittest share of the current one, and
 * the fittest members can be listed in descending order of fitness.
 */
module Populations {
  import opened Wrappers
  import opened Pitch
  import opened Genome
  import opened Individuals

  // ---------------------------------------------------------------------------
  // Ordering by fitness

  /** The fitness of x can be computed: every rule in its `EVALS` applies. */
  predicate Scorable(x: Individual) {
    CanEvaluate(x.statics, x.representation)
  }

  predicate Evaluable(s: seq<Individual>) {
    forall i :: 0 <= i < |s| ==> Scorable(s[i])
  }

  /**
   * a comes strictly before b: lower fitness in the natural order of
   * `Chromosome.compareTo`, higher fitness in the reversed order.
   */
  predicate Ahead(a: Individual, b: Individual, desc: bool)
    requires Scorable(a) && Scorable(b)
  {
    if desc then a.Fitness() > b.Fitness() else a.Fitness() < b.Fitness()
  }

  /** No member comes strictly before an earlier one. */
  predicate Sorted(s: seq<Individual>, desc: bool)
    requires Evaluable(s)
  {
    forall i, j :: 0 <= i < j < |s| ==> !Ahead(s[j], s[i], desc)
  }

  /** x inserted in front of the first member it comes strictly before; after its equals. */
  function Insert(s: seq<Individual>, x: Individual, desc: bool): (r: seq<Individual>)
    requires Evaluable(s) && Scorable(x)
    ensures |r| == |s| + 1
    ensures multiset(r) == multiset(s) + multiset{x}
    ensures Evaluable(r)
  {
    if |s| == 0 then [x]
    else if Ahead(x, s[0], desc) then [x] + s
    else
      var rest := Insert(s[1..], x, desc);
      assert s == [s[0]] + s[1..];
      assert forall y :: y in rest ==> y in multiset(s[1..]) + multiset{x};
      [s[0]] + rest
  }

  /** The stable sort of `Stream.sorted`: members inserted one by one in list order. */
  function Sort(s: seq<Individual>, desc: bool): (r: seq<Individual>)
    requires Evaluable(s)
    ensures |r| == |s|
    ensures multiset(r) == multiset(s)
    ensures Evaluable(r)
  {
    if |s| == 0 then []
    else
      var n := |s| - 1;
      assert s == s[..n] + [s[n]];
      Insert(Sort(s[..n], desc), s[n], desc)
  }

  lemma {:induction false} InsertKeepsSorted(s: seq<Individual>, x: Individual, desc: bool)
    requires Evaluable(s) && Scorable(x) && Sorted(s, desc)
    ensures Sorted(Insert(s, x, desc), desc)
  {
    if |s| > 0 && !Ahead(x, s[0], desc) {
      InsertKeepsSorted(s[1..], x, desc);
      InsertedBehindHead(s, x, desc);
      PrependSorted(s[0], Insert(s[1..], x, desc), desc);
    }
  }

  /** Whatever follows the head once x is inserted behind it does not come before it. */
  lemma InsertedBehindHead(s: seq<Individual>, x: Individual, desc: bool)
    requires Evaluable(s) && Scorable(x) && Sorted(s, desc) && |s| > 0 && !Ahead(x, s[0], desc)
    ensures forall j :: 0 <= j < |Insert(s[1..], x, desc)| ==> !Ahead(Insert(s[1..], x, desc)[j], s[0], desc)
  {
    var rest := Insert(s[1..], x, desc);
    forall j | 0 <= j < |rest|
      ensures !Ahead(rest[j], s[0], desc)
    {
      assert rest[j] in multiset(s[1..]) + multiset{x};
      if rest[j] != x {
        assert rest[j] in s[1..];
      }
    }
  }

  /** A head that nothing in a sorted tail comes before keeps the list sorted. */
  lemma PrependSorted(h: Individual, t: seq<Individual>, desc: bool)
    requires Scorable(h) && Evaluable(t) && Sorted(t, desc)
    requires forall j :: 0 <= j < |t| ==> !Ahead(t[j], h, desc)
    ensures Evaluable([h] + t) && Sorted([h] + t, desc)
  {
    var r := [h] + t;
    assert forall k :: 1 <= k < |r| ==> r[k] == t[k - 1];
  }

  /** Both sorts put the population in order and only reorder it. */
  lemma {:induction false} SortIsOrderedPermutation(s: seq<Individual>, desc: bool)
    requires Evaluable(s)
    ensures Sorted(Sort(s, desc), desc)
    ensures multiset(Sort(s, desc)) == multiset(s)
  {
    if |s| > 0 {
      var n := |s| - 1;
      SortIsOrderedPermutation(s[..n], desc);
      InsertKeepsSorted(Sort(s[..n], desc), s[n], desc);
    }
  }

  /** In an ascending list every member from k on is at least as fit as every member before k. */
  lemma TailAtLeastHead(t: seq<Individual>, k: nat)
    requires Evaluable(t) && Sorted(t, false) && k <= |t|
    ensures forall i, j :: 0 <= i < |t| - k && 0 <= j < k ==> t[k..][i].Fitness() >= t[..k][j].Fitness()
  {
    forall i, j | 0 <= i < |t| - k && 0 <= j < k
      ensures t[k..][i].Fitness() >= t[..k][j].Fitness()
    {
      assert t[k..][i] == t[k + i] && t[..k][j] == t[j];
      assert !Ahead(t[k + i], t[j], false);
    }
  }

  /** In a descending list every member before k is at least as fit as every member from k on. */
  lemma HeadAtLeastTail(t: seq<Individual>, k: nat)
    requires Evaluable(t) && Sorted(t, true) && k <= |t|
    ensures forall i, j :: 0 <= i < k <= j < |t| ==> t[..k][i].Fitness() >= t[j].Fitness()
  {
    forall i, j | 0 <= i < k <= j < |t|
      ensures t[..k][i].Fitness() >= t[j].Fitness()
    {
      assert t[..k][i] == t[i];
      assert !Ahead(t[j], t[i], true);
    }
  }

  /** Every slice of a sorted list is sorted. */
  lemma SortedSlice(s: seq<Individual>, lo: nat, hi: nat, desc: bool)
    requires Evaluable(s) && Sorted(s, desc) && lo <= hi <= |s|
    ensures Evaluable(s[lo..hi]) && Sorted(s[lo..hi], desc)
  {
    forall i, j | 0 <= i < j < hi - lo
      ensures !Ahead(s[lo..hi][j], s[lo..hi][i], desc)
    {
      assert s[lo..hi][i] == s[lo + i] && s[lo..hi][j] == s[lo + j];
    }
  }

  /** A list is its head and its tail, as multisets. */
  lemma SplitMultiset(t: seq<Individual>, k: nat)
    requires k <= |t|
    ensures multiset(t[k..]) + multiset(t[..k]) == multiset(t)
  {
    assert t == t[..k] + t[k..];
  }

  // ---------------------------------------------------------------------------
  // Elites and the fittest members

  /** `FastMath.ceil` of a real value. */
  function Ceil(x: real): (c: int)
    ensures (c - 1) as real < x <= c as real
  {
    -((-x).Floor)
  }

  /** `skip((int) ceil((1 - e) * n))`: how many of the least fit members are dropped. */
  function DroppedCount(n: nat, e: real): (k: nat)
    requires 0.0 <= e <= 1.0
    ensures k <= n
  {
    assert 0.0 <= (1.0 - e) * n as real <= n as real;
    Ceil((1.0 - e) * n as real)
  }

  /** The members `nextGeneration` carries over, in ascending order of fitness. */
  function Elites(s: seq<Individual>, e: real): seq<Individual>
    requires Evaluable(s) && 0.0 <= e <= 1.0
  {
    Sort(s, false)[DroppedCount(|s|, e)..]
  }

  /** The members `nextGeneration` leaves behind. */
  function Dropped(s: seq<Individual>, e: real): seq<Individual>
    requires Evaluable(s) && 0.0 <= e <= 1.0
  {
    Sort(s, false)[..DroppedCount(|s|, e)]
  }

  lemma CeilOfComplement(n: nat, x: real)
    ensures Ceil(n as real - x) == n - x.Floor
  {
  }

  lemma KeptCount(n: nat, e: real)
    requires 0.0 <= e <= 1.0
    ensures n - DroppedCount(n, e) == (e * n as real).Floor
  {
    assert (1.0 - e) * n as real == n as real - e * n as real;
    CeilOfComplement(n, e * n as real);
  }

  /** n - ceil((1 - e) n) == floor(e n): the rounding favours dropping. */
  lemma EliteCountIsFloor(s: seq<Individual>, e: real)
    requires Evaluable(s) && 0.0 <= e <= 1.0
    ensures |Elites(s, e)| == (e * |s| as real).Floor
  {
    KeptCount(|s|, e);
  }

  /**
   * The elites and the dropped members together are the population; every
   * elite is at least as fit as every dropped member, and the elites are in
   * ascending order.
   */
  lemma ElitesAreFittest(s: seq<Individual>, e: real)
    requires Evaluable(s) && 0.0 <= e <= 1.0
    ensures multiset(Elites(s, e)) + multiset(Dropped(s, e)) == multiset(s)
    ensures Evaluable(Elites(s, e)) && Evaluable(Dropped(s, e))
    ensures forall i, j :: 0 <= i < |Elites(s, e)| && 0 <= j < |Dropped(s, e)| ==>
              Elites(s, e)[i].Fitness() >= Dropped(s, e)[j].Fitness()
    ensures Sorted(Elites(s, e), false)
  {
    var sorted := Sort(s, false);
    var k := DroppedCount(|s|, e);
    SortIsOrderedPermutation(s, false);
    SortedSlice(sorted, k, |s|, false);
    assert sorted[k..] == sorted[k..|s|];
    SortedSlice(sorted, 0, k, false);
    assert sorted[..k] == sorted[0..k];
    SplitMultiset(sorted, k);
    TailAtLeastHead(sorted, k);
  }

  /** `limit((int) max(1, n e))`, capped by the population size. */
  function FittestCount(n: nat, e: real): (k: nat)
    requires 0.0 <= e
    ensures k <= n
  {
    var bound := if 1.0 >= n as real * e then 1 else (n as real * e).Floor;
    if bound < n then bound else n
  }

  /** Raising x to at least one, compared against 1.0 or through its floor, agrees. */
  lemma AtLeastOne(x: real)
    ensures (if 1.0 >= x then 1 else x.Floor) == (if x.Floor < 1 then 1 else x.Floor)
  {
    if x < 1.0 {
      assert x.Floor < 1;
    }
  }

  /** The fittest count is min(n, max(1, floor(n e))). */
  lemma FittestCountIsBounded(n: nat, e: real)
    requires 0.0 <= e
    ensures var atLeastOne := if (n as real * e).Floor < 1 then 1 else (n as real * e).Floor;
            FittestCount(n, e) == if n < atLeastOne then n else atLeastOne
  {
    AtLeastOne(n as real * e);
  }

  /** `getFittestChromosomes`: the first members of the descending sort. */
  function FittestChromosomes(s: seq<Individual>, e: real): seq<Individual>
    requires Evaluable(s) && 0.0 <= e
  {
    Sort(s, true)[..FittestCount(|s|, e)]
  }

  /** The fittest list has min(n, max(1, floor(n e))) members. */
  lemma FittestChromosomesCount(s: seq<Individual>, e: real)
    requires Evaluable(s) && 0.0 <= e
    ensures var atLeastOne := if (|s| as real * e).Floor < 1 then 1 else (|s| as real * e).Floor;
            |FittestChromosomes(s, e)| == if |s| < atLeastOne then |s| else atLeastOne
  {
    FittestCountIsBounded(|s|, e);
  }

  /**
   * The fittest list is taken from the population, in descending order of
   * fitness, and none of its members is less fit than any member left out.
   */
  lemma FittestChromosomesAreFittest(s: seq<Individual>, e: real)
    requires Evaluable(s) && 0.0 <= e
    ensures multiset(FittestChromosomes(s, e)) <= multiset(s)
    ensures Evaluable(FittestChromosomes(s, e)) && Sorted(FittestChromosomes(s, e), true)
    ensures forall i, j :: 0 <= i < |FittestChromosomes(s, e)| <= j < |s| ==>
              FittestChromosomes(s, e)[i].Fitness() >= Sort(s, true)[j].Fitness()
  {
    var sorted := Sort(s, true);
    var k := FittestCount(|s|, e);
    SortIsOrderedPermutation(s, true);
    SortedSlice(sorted, 0, k, true);
    assert sorted[..k] == sorted[0..k];
    SplitMultiset(sorted, k);
    HeadAtLeastTail(sorted, k);
  }

  // ---------------------------------------------------------------------------
  // The population object

  class Population {
    var chromosomes: seq<Individual>
    const populationLimit: nat
    const elitismRate: real

    /** The library's bounds: a positive limit, a rate in [0, 1], and no more members than the limit. */
    predicate Valid()
      reads this
    {
      0 < populationLimit && 0.0 <= elitismRate <= 1.0 && |chromosomes| <= populationLimit
    }

    /** `MyPopulation(populationLimit, elitismRate)`: an empty population. */
    constructor (populationLimit: nat, elitismRate: real)
      requires 0 < populationLimit && 0.0 <= elitismRate <= 1.0
      ensures Valid()
      ensures this.populationLimit == populationLimit && this.elitismRate == elitismRate
      ensures chromosomes == []
    {
      this.populationLimit := populationLimit;
      this.elitismRate := elitismRate;
      chromosomes := [];
    }

    /** `addChromosome`: append one member below the limit. */
    method AddChromosome(x: Individual)
      requires Valid() && |chromosomes| < populationLimit
      modifies this
      ensures Valid() && chromosomes == old(chromosomes) + [x]
    {
      chromosomes := chromosomes + [x];
    }

    /**
     * `MyPopulation(populationLimit, elitismRate, chord_no)`: `populationLimit`
     * random individuals of `chordNo` chords, built from `draws[i]` in turn.
     * The first `Individual(chord_no)` that throws ends the construction.
     */
    static method Initial(populationLimit: nat, elitismRate: real, statics: Statics, chordNo: nat,
                          draws: seq<seq<nat>>)
      returns (r: Result<Population, Failure>)
      requires 0 < populationLimit && 0.0 <= elitismRate <= 1.0 && |statics.voice| > 0
      requires |draws| == populationLimit
      requires forall i :: 0 <= i < |draws| ==> |draws[i]| == chordNo * |statics.voice|
      requires forall i, k :: 0 <= i < |draws| && 0 <= k < |draws[i]| && IsVoiceLabel(statics.voice[k % |statics.voice|])
                 ==> draws[i][k] < Width(statics.voice[k % |statics.voice|])
      ensures r.Ok? <==> chordNo == 0 || forall v :: 0 <= v < |statics.voice| ==> IsVoiceLabel(statics.voice[v])
      ensures r.Ok? ==>
                var p := r.value;
                fresh(p) && p.Valid() && p.populationLimit == populationLimit && p.elitismRate == elitismRate
                && |p.chromosomes| == populationLimit
                && forall i :: 0 <= i < |draws| ==>
                     p.chromosomes[i].statics == statics && p.chromosomes[i].WellFormed()
                     && ChordNumber(|statics.voice|, p.chromosomes[i].representation) == chordNo
                     && Ok(p.chromosomes[i].representation) == RandomChromosome(statics.voice, chordNo, draws[i])
    {
      var p := new Population(populationLimit, elitismRate);
      for i := 0 to populationLimit
        invariant fresh(p) && p.Valid() && |p.chromosomes| == i
        invariant p.populationLimit == populationLimit && p.elitismRate == elitismRate
        invariant i > 0 ==> chordNo == 0 || forall v :: 0 <= v < |statics.voice| ==> IsVoiceLabel(statics.voice[v])
        invariant forall m :: 0 <= m < i ==>
                    p.chromosomes[m].statics == statics && p.chromosomes[m].WellFormed()
                    && ChordNumber(|statics.voice|, p.chromosomes[m].representation) == chordNo
                    && Ok(p.chromosomes[m].representation) == RandomChromosome(statics.voice, chordNo, draws[m])
      {
        var idv := Individual.Random(statics, chordNo, draws[i]);
        if idv.Err? {
          return Err(idv.error);
        }
        p.AddChromosome(idv.value);
      }
      return Ok(p);
    }

    /**
     * `nextGeneration`: a new empty population with the same limit and rate,
     * filled with the members left after skipping the ceil((1 - e) n) least
     * fit of the ascending sort.
     */
    method NextGeneration() returns (next: Population)
      requires Valid() && Evaluable(chromosomes)
      ensures fresh(next) && next.Valid()
      ensures next.populationLimit == populationLimit && next.elitismRate == elitismRate
      ensures next.chromosomes == Elites(chromosomes, elitismRate)
    {
      var members := chromosomes;
      var sorted := Sort(members, false);
      var skip := DroppedCount(|members|, elitismRate);
      ghost var elites := Elites(members, elitismRate);
      assert elites == sorted[skip..];
      next := new Population(populationLimit, elitismRate);
      for i := skip to |sorted|
        invariant next.Valid() && next.populationLimit == populationLimit && next.elitismRate == elitismRate
        invariant next.chromosomes == sorted[skip..i]
      {
        assert sorted[skip..i + 1] == sorted[skip..i] + [sorted[i]];
        next.AddChromosome(sorted[i]);
      }
      assert sorted[skip..|sorted|] == elites;
    }

    /** `getFittestChromosomes` on the current members. */
    function GetFittestChromosomes(): (top: seq<Individual>)
      requires Valid() && Evaluable(chromosomes)
      reads this
      ensures multiset(top) <= multiset(chromosomes)
      ensures |top| == FittestCount(|chromosomes|, elitismRate)
      ensures 1 <= |chromosomes| ==> 1 <= |top|
      ensures Evaluable(top) && Sorted(top, true)
      ensures forall i, j :: 0 <= i < |top| <= j < |chromosomes| ==>
                top[i].Fitness() >= Sort(chromosomes, true)[j].Fitness()
    {
      FittestChromosomesAreFittest(chromosomes, elitismRate);
      FittestChromosomes(chromosomes, elitismRate)
    }
  }
}

/**
 * `MyGeneticAlgorithm.nextGeneration`: the elites of the current population,
 * then pairs bred from parents of the current population until the limit
 * is reached. A dice throw picks one of four bands: crossover then
 * mutation, crossover only, mutation only, or the parents unchanged.
 */
module Algorithm {
  import opened Wrappers
  import opened Pitch
  import opened Genome
  import opened Individuals
  import opened Crossover
  import opened Mutation
  import opened Populations

  /** What happens to a selected pair. */
  datatype Band = CrossoverAndMutate | CrossoverOnly | MutateOnly | Unchanged

  /**
   * The band of a dice throw, found by subtracting the rates in turn from
   * the throw and stopping at the first negative remainder.
   */
  function BandOf(dice: real, cmRate: real, coRate: real, moRate: real): (b: Band)
    ensures b == CrossoverAndMutate <==> dice < cmRate
    ensures b == CrossoverOnly <==> cmRate <= dice && dice < cmRate + coRate
    ensures b == MutateOnly <==> cmRate <= dice && cmRate + coRate <= dice && dice < cmRate + coRate + moRate
    ensures b == Unchanged <==> cmRate <= dice && cmRate + coRate <= dice && cmRate + coRate + moRate <= dice
  {
    var afterCm := dice - cmRate;
    if afterCm < 0.0 then CrossoverAndMutate
    else
      var afterCo := afterCm - coRate;
      if afterCo < 0.0 then CrossoverOnly
      else
        var afterMo := afterCo - moRate;
        if afterMo < 0.0 then MutateOnly else Unchanged
  }

  /** The draws of one crossover: the band dice, the locus draw and the uniform crossover's outcome. */
  datatype CrossDraw = CrossDraw(dice: real, locus: nat, uniform: Result<(Individual, Individual), Failure>)

  /** The draws of one mutation: voices and sites (each one less than the count) and the site draws. */
  datatype MutDraw = MutDraw(voices: nat, loci: nat, sites: Draws)

  /**
   * The draws of one round of the fill loop: the indices of the pair the
   * selection picks from the current population, the band dice, and the
   * draws of the operators the band runs.
   */
  datatype Round = Round(first: nat, second: nat, dice: real, cross: CrossDraw, mut1: MutDraw, mut2: MutDraw)

  /** The member was built under `statics`, passed the register check and can be scored. */
  predicate BuiltUnder(x: Individual, statics: Statics) {
    x.statics == statics && x.WellFormed() && Scorable(x)
  }

  /** Every member is `BuiltUnder(statics)`. */
  predicate Uniform(s: seq<Individual>, statics: Statics) {
    forall i :: 0 <= i < |s| ==> BuiltUnder(s[i], statics)
  }

  function Genomes(s: seq<Individual>): (g: seq<seq<Ordinal>>)
    ensures |g| == |s| && forall i :: 0 <= i < |s| ==> g[i] == s[i].representation
  {
    seq(|s|, i requires 0 <= i < |s| => s[i].representation)
  }

  lemma GenomesGrow(before: seq<Individual>, added: seq<Individual>, brood: seq<seq<Ordinal>>,
                    extra: seq<seq<Ordinal>>)
    requires Genomes(before) == brood && |added| <= |extra|
    requires forall j :: 0 <= j < |added| ==> added[j].representation == extra[j]
    ensures Genomes(before + added) == (brood + extra)[..|before| + |added|]
  {
  }

  /** The pairs needed to take a population of k members up to its limit, the last one possibly halved. */
  function PairsNeeded(limit: nat, k: nat): (n: nat)
    requires k <= limit
    ensures limit - k <= 2 * n <= limit - k + 1
  {
    (limit - k + 1) / 2
  }

  /** The elites of a uniform population are uniform. */
  lemma ElitesUniform(s: seq<Individual>, e: real, statics: Statics)
    requires Uniform(s, statics) && 0.0 <= e <= 1.0
    ensures Evaluable(s) && Uniform(Elites(s, e), statics)
  {
    ElitesAreFittest(s, e);
    var elites := Elites(s, e);
    forall i | 0 <= i < |elites|
      ensures BuiltUnder(elites[i], statics)
    {
      assert elites[i] in multiset(s);
    }
  }

  /** The argument of `nextGeneration`: a `MyPopulation`, or a population of another class. */
  datatype PopulationRef = Mine(population: Population) | OtherPopulation

  class MyGeneticAlgorithm {
    const crossoverPolicy: CrossoverPolicy
    const mutationPolicy: MutationPolicy
    const tournamentArity: nat
    const coRate: real
    const cmRate: real
    const moRate: real

    /** The constructor; the library's own crossover and mutation rates are fixed at zero and unused. */
    constructor (crossoverPolicy: CrossoverPolicy, mutationPolicy: MutationPolicy, tournamentArity: nat,
                 coRate: real, cmRate: real, moRate: real)
      ensures this.crossoverPolicy == crossoverPolicy && this.mutationPolicy == mutationPolicy
      ensures this.tournamentArity == tournamentArity
      ensures this.coRate == coRate && this.cmRate == cmRate && this.moRate == moRate
    {
      this.crossoverPolicy := crossoverPolicy;
      this.mutationPolicy := mutationPolicy;
      this.tournamentArity := tournamentArity;
      this.coRate := coRate;
      this.cmRate := cmRate;
      this.moRate := moRate;
    }

    /** The uniform crossover's children: well formed, under `statics`, as long as the first parent. */
    predicate UniformFits(p1: Individual, statics: Statics, children: (Individual, Individual)) {
      children.0.WellFormed() && children.1.WellFormed()
      && children.0.statics == statics && children.1.statics == statics
      && |children.0.representation| == |p1.representation| && |children.1.representation| == |p1.representation|
    }

    /** The genomes of the crossover's two children, or None when it throws. */
    function CrossedGenomes(p1: Individual, p2: Individual, c: CrossDraw): Option<(seq<Ordinal>, seq<Ordinal>)>
      requires |p1.statics.voice| > 0
    {
      if UsesChordal(crossoverPolicy, c.dice) then ChordalGenomes(p1, p2, c.locus)
      else if c.uniform.Ok? then Some((c.uniform.value.0.representation, c.uniform.value.1.representation))
      else None
    }

    /** The draws of a mutation are ones the generators can deliver for this genome. */
    predicate MutationFits(statics: Statics, rep: seq<Ordinal>, m: MutDraw) {
      |statics.voice| > 0
      && (mutationPolicy.maxVoices > 0 && mutationPolicy.maxLoci > 0 ==>
            m.voices < mutationPolicy.maxVoices && m.loci < mutationPolicy.maxLoci
            && WellDrawn(statics.voice, rep, m.loci + 1, m.voices + 1, true, m.sites))
    }

    /** The genome `mutate` returns, or None when it throws. */
    function MutatedGenome(statics: Statics, rep: seq<Ordinal>, m: MutDraw): Option<seq<Ordinal>>
      requires MutationFits(statics, rep, m)
    {
      if mutationPolicy.maxVoices <= 0 || mutationPolicy.maxLoci <= 0
         || Fails(statics.voice, rep, m.loci + 1, true, m.sites)
      then None
      else Some(Mutated(statics.voice, rep, true, m.sites))
    }

    /** Both mutations of a pair, or None when either throws. */
    function MutatedPair(statics: Statics, pair: (seq<Ordinal>, seq<Ordinal>), m1: MutDraw, m2: MutDraw)
      : Option<(seq<Ordinal>, seq<Ordinal>)>
      requires MutationFits(statics, pair.0, m1) && MutationFits(statics, pair.1, m2)
    {
      var a := MutatedGenome(statics, pair.0, m1);
      var b := MutatedGenome(statics, pair.1, m2);
      if a.Some? && b.Some? then Some((a.value, b.value)) else None
    }

    /**
     * The draws of a round fit the selected parents and every operator its
     * band runs: both dice lie in [0, 1), and a uniform crossover that goes
     * through gives children as long as the first parent.
     */
    predicate PairFits(p1: Individual, p2: Individual, statics: Statics, round: Round) {
      p1.statics == statics && p2.statics == statics && p1.WellFormed() && p2.WellFormed()
      && 0.0 <= round.dice < 1.0 && 0.0 <= round.cross.dice < 1.0
      && (ChordNumber(|statics.voice|, p1.representation) >= 2 ==>
            round.cross.locus < ChordNumber(|statics.voice|, p1.representation) - 1)
      && (round.cross.uniform.Ok? ==> UniformFits(p1, statics, round.cross.uniform.value))
      && match BandOf(round.dice, cmRate, coRate, moRate)
         case MutateOnly =>
           MutationFits(statics, p1.representation, round.mut1) && MutationFits(statics, p2.representation, round.mut2)
         case CrossoverAndMutate =>
           var crossed := CrossedGenomes(p1, p2, round.cross);
           crossed.Some? ==>
             MutationFits(statics, crossed.value.0, round.mut1) && MutationFits(statics, crossed.value.1, round.mut2)
         case _ => true
    }

    /** The genomes of the pair a round adds, or None when one of its operators throws. */
    function Offspring(p1: Individual, p2: Individual, statics: Statics, round: Round): Option<(seq<Ordinal>, seq<Ordinal>)>
      requires PairFits(p1, p2, statics, round)
    {
      match BandOf(round.dice, cmRate, coRate, moRate)
      case Unchanged => Some((p1.representation, p2.representation))
      case CrossoverOnly => CrossedGenomes(p1, p2, round.cross)
      case MutateOnly => MutatedPair(statics, (p1.representation, p2.representation), round.mut1, round.mut2)
      case CrossoverAndMutate =>
        var crossed := CrossedGenomes(p1, p2, round.cross);
        if crossed.None? then None else MutatedPair(statics, crossed.value, round.mut1, round.mut2)
    }

    /**
     * The tournament selection throws when `current` holds fewer members than
     * a tournament draws, and has nothing to pick from an empty population.
     */
    predicate SelectionFails(current: seq<Individual>) {
      |current| < tournamentArity || |current| == 0
    }

    /** Unless the selection throws, every round selects its parents from `current` and fits them. */
    predicate RoundsFit(current: seq<Individual>, statics: Statics, rounds: seq<Round>) {
      !SelectionFails(current) ==>
        forall i :: 0 <= i < |rounds| ==>
          rounds[i].first < |current| && rounds[i].second < |current|
          && PairFits(current[rounds[i].first], current[rounds[i].second], statics, rounds[i])
    }

    /**
     * The genomes the first n rounds add, two per round in order, or None
     * when the selection or one of the operators throws.
     */
    function Brood(current: seq<Individual>, statics: Statics, rounds: seq<Round>, n: nat): (b: Option<seq<seq<Ordinal>>>)
      requires RoundsFit(current, statics, rounds) && n <= |rounds|
      ensures b.Some? ==> |b.value| == 2 * n
      ensures n > 0 && SelectionFails(current) ==> b.None?
    {
      if n == 0 then Some([])
      else if SelectionFails(current) then None
      else
        var earlier := Brood(current, statics, rounds, n - 1);
        var round := rounds[n - 1];
        var pair := Offspring(current[round.first], current[round.second], statics, round);
        if earlier.None? || pair.None? then None
        else Some(earlier.value + [pair.value.0, pair.value.1])
    }

    /**
     * Every operator keeps the number of chords: each offspring has the chord
     * count of one of its parents, so offspring of scorable parents can be
     * scored.
     */
    lemma OffspringKeepChords(p1: Individual, p2: Individual, statics: Statics, round: Round)
      requires PairFits(p1, p2, statics, round) && Offspring(p1, p2, statics, round).Some?
      ensures var o := Offspring(p1, p2, statics, round).value;
              var n1, n2 := ChordNumber(|statics.voice|, p1.representation), ChordNumber(|statics.voice|, p2.representation);
              (ChordNumber(|statics.voice|, o.0) == n1 || ChordNumber(|statics.voice|, o.0) == n2)
              && (ChordNumber(|statics.voice|, o.1) == n1 || ChordNumber(|statics.voice|, o.1) == n2)
      ensures Scorable(p1) && Scorable(p2) ==>
                CanEvaluate(statics, Offspring(p1, p2, statics, round).value.0)
                && CanEvaluate(statics, Offspring(p1, p2, statics, round).value.1)
    {
      var band := BandOf(round.dice, cmRate, coRate, moRate);
      if band == CrossoverOnly || band == CrossoverAndMutate {
        CrossedKeepChords(p1, p2, statics, round.cross);
      }
    }

    /** Both children of a crossover that goes through have the first parent's chord count. */
    lemma CrossedKeepChords(p1: Individual, p2: Individual, statics: Statics, c: CrossDraw)
      requires p1.statics == statics && |statics.voice| > 0
      requires c.uniform.Ok? ==> UniformFits(p1, statics, c.uniform.value)
      requires CrossedGenomes(p1, p2, c).Some?
      ensures ChordNumber(|statics.voice|, CrossedGenomes(p1, p2, c).value.0)
              == ChordNumber(|statics.voice|, p1.representation)
      ensures ChordNumber(|statics.voice|, CrossedGenomes(p1, p2, c).value.1)
              == ChordNumber(|statics.voice|, p1.representation)
    {
      if UsesChordal(crossoverPolicy, c.dice) {
        var n := ChordNumber(|statics.voice|, p1.representation);
        ProductDividesBack(n, |statics.voice|);
      }
    }

    /** If n rounds go through, so do the first m, and their genomes come first. */
    lemma {:induction false} BroodExtends(current: seq<Individual>, statics: Statics, rounds: seq<Round>, m: nat, n: nat)
      requires RoundsFit(current, statics, rounds) && m <= n <= |rounds|
      ensures Brood(current, statics, rounds, n).Some? ==>
                Brood(current, statics, rounds, m).Some?
                && Brood(current, statics, rounds, n).value[..2 * m] == Brood(current, statics, rounds, m).value
      decreases n
    {
      if m < n {
        BroodExtends(current, statics, rounds, m, n - 1);
      }
    }

    /** The crossover of a round, by the policy's dice. */
    method CrossPair(p1: Individual, p2: Individual, statics: Statics, c: CrossDraw)
      returns (r: Result<(Individual, Individual), Failure>)
      requires p1.statics == statics && p2.statics == statics && p1.WellFormed() && p2.WellFormed()
      requires ChordNumber(|statics.voice|, p1.representation) >= 2 ==>
                 c.locus < ChordNumber(|statics.voice|, p1.representation) - 1
      requires 0.0 <= c.dice < 1.0
      requires c.uniform.Ok? ==> UniformFits(p1, statics, c.uniform.value)
      ensures r.Ok? <==> CrossedGenomes(p1, p2, c).Some?
      ensures r.Ok? ==> CrossedGenomes(p1, p2, c).value == (r.value.0.representation, r.value.1.representation)
      ensures r.Ok? ==> r.value.0.WellFormed() && r.value.1.WellFormed()
                        && r.value.0.statics == statics && r.value.1.statics == statics
    {
      r := Crossover.Crossover(crossoverPolicy, Ind(p1), Ind(p2), c.dice, c.locus, c.uniform);
    }

    /** The two mutations of a round, the first member's before the second's. */
    method MutatePair(pair: (Individual, Individual), statics: Statics, m1: MutDraw, m2: MutDraw)
      returns (r: Result<(Individual, Individual), Failure>)
      requires pair.0.WellFormed() && pair.1.WellFormed() && pair.0.statics == statics && pair.1.statics == statics
      requires MutationFits(statics, pair.0.representation, m1) && MutationFits(statics, pair.1.representation, m2)
      ensures r.Ok? <==> MutatedPair(statics, (pair.0.representation, pair.1.representation), m1, m2).Some?
      ensures r.Ok? ==> MutatedPair(statics, (pair.0.representation, pair.1.representation), m1, m2).value
                        == (r.value.0.representation, r.value.1.representation)
      ensures r.Ok? ==> r.value.0.WellFormed() && r.value.1.WellFormed()
                        && r.value.0.statics == statics && r.value.1.statics == statics
    {
      var first := Mutate(mutationPolicy, Ind(pair.0), m1.voices, m1.loci, m1.sites);
      if first.Err? {
        return Err(first.error);
      }
      var second := Mutate(mutationPolicy, Ind(pair.1), m2.voices, m2.loci, m2.sites);
      if second.Err? {
        return Err(second.error);
      }
      return Ok((first.value, second.value));
    }

    /**
     * One round: the operators of the band, applied in the order the source
     * applies them (crossover first, then the first and second mutation).
     */
    method Breed(p1: Individual, p2: Individual, statics: Statics, round: Round)
      returns (r: Result<(Individual, Individual), Failure>)
      requires PairFits(p1, p2, statics, round)
      ensures r.Ok? <==> Offspring(p1, p2, statics, round).Some?
      ensures r.Ok? ==> Offspring(p1, p2, statics, round).value == (r.value.0.representation, r.value.1.representation)
      ensures r.Ok? ==> r.value.0.WellFormed() && r.value.1.WellFormed()
                        && r.value.0.statics == statics && r.value.1.statics == statics
    {
      var band := BandOf(round.dice, cmRate, coRate, moRate);
      match band
      case Unchanged =>
        return Ok((p1, p2));
      case CrossoverOnly =>
        r := CrossPair(p1, p2, statics, round.cross);
      case MutateOnly =>
        r := MutatePair((p1, p2), statics, round.mut1, round.mut2);
      case CrossoverAndMutate =>
        var crossed := CrossPair(p1, p2, statics, round.cross);
        if crossed.Err? {
          return Err(crossed.error);
        }
        r := MutatePair(crossed.value, statics, round.mut1, round.mut2);
    }

    /**
     * The state of the fill loop after i rounds, for a population that held
     * `start` when the loop began: `start`, then the brood of those rounds in
     * order (the last pair possibly halved at the limit), every member uniform.
     */
    ghost predicate Filled(current: seq<Individual>, statics: Statics, rounds: seq<Round>, start: seq<Individual>,
                           members: seq<Individual>, limit: nat, i: nat, brood: seq<seq<Ordinal>>)
      requires RoundsFit(current, statics, rounds)
    {
      |start| <= |members| <= limit && members[..|start|] == start
      && Uniform(members, statics)
      && (|members| == |start| + 2 * i || |members| == limit)
      && |members| - |start| <= 2 * i
      && i <= PairsNeeded(limit, |start|) <= |rounds|
      && Brood(current, statics, rounds, i) == Some(brood)
      && Genomes(members[|start|..]) == brood[..|members| - |start|]
    }

    /**
     * One pass of the fill loop: select the pair of round i, breed it, and
     * add one or both of the bred members.
     */
    method AddRound(current: seq<Individual>, next: Population, statics: Statics, rounds: seq<Round>, i: nat,
                    ghost start: seq<Individual>, ghost brood: seq<seq<Ordinal>>)
      returns (failure: Option<Failure>, ghost brood': seq<seq<Ordinal>>)
      requires RoundsFit(current, statics, rounds) && Uniform(current, statics) && next.Valid()
      requires Filled(current, statics, rounds, start, next.chromosomes, next.populationLimit, i, brood)
      requires |next.chromosomes| < next.populationLimit
      modifies next
      ensures next.Valid() && i < PairsNeeded(next.populationLimit, |start|)
      ensures failure.Some? <==> Brood(current, statics, rounds, i + 1).None?
      ensures failure.Some? ==> Brood(current, statics, rounds, PairsNeeded(next.populationLimit, |start|)).None?
      ensures failure.None? ==>
                |old(next.chromosomes)| < |next.chromosomes|
                && Filled(current, statics, rounds, start, next.chromosomes, next.populationLimit, i + 1, brood')
    {
      if SelectionFails(current) {
        BroodExtends(current, statics, rounds, i + 1, PairsNeeded(next.populationLimit, |start|));
        return Some(IllegalArgument), brood;
      }
      failure, brood' := AddBred(current, next, statics, rounds, i, start, brood);
    }

    /** The part of a pass after a selection that goes through: breed the pair and add its members. */
    method AddBred(current: seq<Individual>, next: Population, statics: Statics, rounds: seq<Round>, i: nat,
                   ghost start: seq<Individual>, ghost brood: seq<seq<Ordinal>>)
      returns (failure: Option<Failure>, ghost brood': seq<seq<Ordinal>>)
      requires !SelectionFails(current)
      requires RoundsFit(current, statics, rounds) && Uniform(current, statics) && next.Valid()
      requires Filled(current, statics, rounds, start, next.chromosomes, next.populationLimit, i, brood)
      requires |next.chromosomes| < next.populationLimit
      modifies next
      ensures next.Valid() && i < PairsNeeded(next.populationLimit, |start|)
      ensures failure.Some? <==> Brood(current, statics, rounds, i + 1).None?
      ensures failure.Some? ==> Brood(current, statics, rounds, PairsNeeded(next.populationLimit, |start|)).None?
      ensures failure.None? ==>
                |old(next.chromosomes)| < |next.chromosomes|
                && Filled(current, statics, rounds, start, next.chromosomes, next.populationLimit, i + 1, brood')
    {
      var round := rounds[i];
      var p1, p2 := current[round.first], current[round.second];
      var pair := Breed(p1, p2, statics, round);
      if pair.Err? {
        BroodExtends(current, statics, rounds, i + 1, PairsNeeded(next.populationLimit, |start|));
        return Some(pair.error), brood;
      }
      BredUniform(p1, p2, statics, round, pair.value.0, pair.value.1);
      ghost var before := next.chromosomes;
      AddPair(next, pair.value.0, pair.value.1, statics, |start|, i, brood);
      assert next.chromosomes[..|start|] == before[..|start|];
      return None, brood + [pair.value.0.representation, pair.value.1.representation];
    }

    /** The bred members of scorable parents are uniform under the parents' globals. */
    lemma BredUniform(p1: Individual, p2: Individual, statics: Statics, round: Round, a: Individual, b: Individual)
      requires PairFits(p1, p2, statics, round) && Scorable(p1) && Scorable(p2)
      requires Offspring(p1, p2, statics, round) == Some((a.representation, b.representation))
      requires a.WellFormed() && b.WellFormed() && a.statics == statics && b.statics == statics
      ensures Uniform([a, b], statics)
    {
      OffspringKeepChords(p1, p2, statics, round);
    }

    /** The end of a pass of the fill loop: add the first member of the pair, and the second while there is room. */
    method AddPair(next: Population, first: Individual, second: Individual, ghost statics: Statics,
                   ghost k: nat, ghost i: nat, ghost brood: seq<seq<Ordinal>>)
      requires next.Valid() && |next.chromosomes| == k + 2 * i < next.populationLimit
      requires Genomes(next.chromosomes[k..]) == brood
      requires Uniform(next.chromosomes, statics) && Uniform([first, second], statics)
      modifies next
      ensures next.Valid() && |old(next.chromosomes)| < |next.chromosomes| <= k + 2 * (i + 1)
      ensures next.chromosomes == old(next.chromosomes) + [first, second][..|next.chromosomes| - |old(next.chromosomes)|]
      ensures Uniform(next.chromosomes, statics)
      ensures |next.chromosomes| == k + 2 * (i + 1) || |next.chromosomes| == next.populationLimit
      ensures next.chromosomes[..|old(next.chromosomes)|] == old(next.chromosomes)
      ensures Genomes(next.chromosomes[k..])
              == (brood + [first.representation, second.representation])[..|next.chromosomes| - k]
    {
      ghost var before := next.chromosomes;
      next.AddChromosome(first);
      if |next.chromosomes| < next.populationLimit {
        next.AddChromosome(second);
      }
      assert next.chromosomes[k..] == before[k..] + next.chromosomes[|before|..];
      GenomesGrow(before[k..], next.chromosomes[|before|..], brood, [first.representation, second.representation]);
    }

    /**
     * The fill loop of `nextGeneration`: while `next` is below its limit,
     * breed the pair of the next round from parents of `current` and add its
     * first member, and its second while there is still room.
     */
    method Fill(current: seq<Individual>, next: Population, statics: Statics, rounds: seq<Round>)
      returns (failure: Option<Failure>)
      requires RoundsFit(current, statics, rounds) && Uniform(current, statics)
      requires next.Valid() && Uniform(next.chromosomes, statics) && |rounds| >= next.populationLimit
      modifies next
      ensures PairsNeeded(next.populationLimit, |old(next.chromosomes)|) <= |rounds|
      ensures failure.Some? <==>
                Brood(current, statics, rounds, PairsNeeded(next.populationLimit, |old(next.chromosomes)|)).None?
      ensures failure.None? ==>
                next.Valid() && Uniform(next.chromosomes, statics) && |next.chromosomes| == next.populationLimit
                && next.chromosomes[..|old(next.chromosomes)|] == old(next.chromosomes)
                && Genomes(next.chromosomes[|old(next.chromosomes)|..])
                   == Brood(current, statics, rounds, PairsNeeded(next.populationLimit, |old(next.chromosomes)|))
                      .value[..next.populationLimit - |old(next.chromosomes)|]
    {
      ghost var start := next.chromosomes;
      ghost var brood: seq<seq<Ordinal>> := [];
      var i := 0;
      while |next.chromosomes| < next.populationLimit
        invariant next.Valid()
        invariant Filled(current, statics, rounds, start, next.chromosomes, next.populationLimit, i, brood)
        decreases next.populationLimit - |next.chromosomes|
      {
        var failure;
        failure, brood := AddRound(current, next, statics, rounds, i, start, brood);
        if failure.Some? {
          return failure;
        }
        i := i + 1;
      }
      assert i == PairsNeeded(next.populationLimit, |start|);
      return None;
    }

    /**
     * `nextGeneration` on a `MyPopulation`: its elites, then the pairs of the
     * rounds in turn, the second member of a pair only while there is room,
     * until the limit.
     */
    method NextFrom(pop: Population, statics: Statics, rounds: seq<Round>)
      returns (r: Result<Population, Failure>)
      requires pop.Valid() && Uniform(pop.chromosomes, statics)
      requires |rounds| >= pop.populationLimit && RoundsFit(pop.chromosomes, statics, rounds)
      ensures PairsNeeded(pop.populationLimit, |Elites(pop.chromosomes, pop.elitismRate)|) <= |rounds|
      ensures r.Err? <==>
                Brood(pop.chromosomes, statics, rounds,
                      PairsNeeded(pop.populationLimit, |Elites(pop.chromosomes, pop.elitismRate)|)).None?
      ensures r.Ok? ==>
                fresh(r.value) && r.value.Valid() && Uniform(r.value.chromosomes, statics)
                && r.value.populationLimit == pop.populationLimit && r.value.elitismRate == pop.elitismRate
                && |r.value.chromosomes| == pop.populationLimit
                && r.value.chromosomes[..|Elites(pop.chromosomes, pop.elitismRate)|]
                   == Elites(pop.chromosomes, pop.elitismRate)
                && Genomes(r.value.chromosomes[|Elites(pop.chromosomes, pop.elitismRate)|..])
                   == Brood(pop.chromosomes, statics, rounds,
                            PairsNeeded(pop.populationLimit, |Elites(pop.chromosomes, pop.elitismRate)|))
                      .value[..pop.populationLimit - |Elites(pop.chromosomes, pop.elitismRate)|]
    {
      ElitesUniform(pop.chromosomes, pop.elitismRate, statics);
      var next := pop.NextGeneration();
      var parents := pop.chromosomes;
      ghost var elites := next.chromosomes;
      var failure := Fill(parents, next, statics, rounds);
      assert pop.chromosomes == parents;
      if failure.Some? {
        return Err(failure.value);
      }
      return Ok(next);
    }

    /** `nextGeneration`: null for a population of another class. */
    method NextGeneration(current: PopulationRef, statics: Statics, rounds: seq<Round>)
      returns (r: Result<Option<Population>, Failure>)
      requires current.Mine? ==>
                 current.population.Valid() && Uniform(current.population.chromosomes, statics)
                 && |rounds| >= current.population.populationLimit
                 && RoundsFit(current.population.chromosomes, statics, rounds)
      ensures !current.Mine? <==> r == Ok(None)
      ensures current.Mine? ==> r.Err? || r.value.Some?
      ensures current.Mine? && r.Ok? ==>
                fresh(r.value.value) && r.value.value.Valid() && Uniform(r.value.value.chromosomes, statics)
                && r.value.value.populationLimit == current.population.populationLimit
                && r.value.value.elitismRate == current.population.elitismRate
                && |r.value.value.chromosomes| == current.population.populationLimit
                && r.value.value.chromosomes[..|Elites(current.population.chromosomes, current.population.elitismRate)|]
                   == Elites(current.population.chromosomes, current.population.elitismRate)
    {
      if !current.Mine? {
        return Ok(None);
      }
      var next := NextFrom(current.population, statics, rounds);
      if next.Err? {
        return Err(next.error);
      }
      return Ok(Some(next.value));
    }
  }
}

/**
 * `Explorer`: one run's configuration, the genetic algorithm wired from it,
 * and the stopping condition checked after every generation.
 */
module Explorers {
  import opened Genome
  import opened Evaluation
  import opened Individuals
  import opened Crossover
  import opened Mutation
  import opened Algorithm

  class Explorer {
    const voice: string
    const chordNo: nat
    const populationLimit: nat
    const elitismRate: real
    const coRate: real
    const cmRate: real
    const moRate: real
    const maxMutationLoci: int
    const maxMutationVoices: int
    const evals: seq<Rule>
    const fitnessAim: real
    const generationLimit: int
    const ga: MyGeneticAlgorithm
    /** The values the constructor gives `Individual.VOICE` and `Individual.EVALS`. */
    const statics: Statics

    /**
     * The constructor: chord-wise crossover with ratios 0.8 and 0.3,
     * chord-wise mutation with the configured bounds, tournaments of two and
     * the three band rates; the individual globals take the voice string and
     * the rule list.
     */
    constructor (voice: string, chordNo: nat, populationLimit: nat, elitismRate: real,
                 coRate: real, cmRate: real, moRate: real, maxMutationLoci: int, maxMutationVoices: int,
                 evals: seq<Rule>, fitnessAim: real, generationLimit: int)
      ensures this.voice == voice && this.chordNo == chordNo
      ensures this.populationLimit == populationLimit && this.elitismRate == elitismRate
      ensures this.coRate == coRate && this.cmRate == cmRate && this.moRate == moRate
      ensures this.maxMutationLoci == maxMutationLoci && this.maxMutationVoices == maxMutationVoices
      ensures this.evals == evals && this.fitnessAim == fitnessAim && this.generationLimit == generationLimit
      ensures fresh(ga)
      ensures ga.crossoverPolicy == CrossoverByChord(0.8, 0.3)
      ensures ga.mutationPolicy == MutationByChord(maxMutationLoci, maxMutationVoices)
      ensures ga.tournamentArity == 2
      ensures ga.coRate == coRate && ga.cmRate == cmRate && ga.moRate == moRate
      ensures statics == Statics(voice, evals)
    {
      this.voice := voice;
      this.populationLimit := populationLimit;
      this.elitismRate := elitismRate;
      this.evals := evals;
      this.fitnessAim := fitnessAim;
      this.generationLimit := generationLimit;
      this.coRate := coRate;
      this.cmRate := cmRate;
      this.moRate := moRate;
      this.maxMutationLoci := maxMutationLoci;
      this.maxMutationVoices := maxMutationVoices;
      this.ga := new MyGeneticAlgorithm(CrossoverByChord(0.8, 0.3),
                                         MutationByChord(maxMutationLoci, maxMutationVoices),
                                         2, coRate, cmRate, moRate);
      this.chordNo := chordNo;
      this.statics := Statics(voice, evals);
    }

    /**
     * The stopping condition on the fittest individual and the number of
     * generations evolved: never while its progression holds an X, otherwise
     * once the fitness aim or the generation limit is reached.
     */
    predicate Stops(fittest: Individual, generationsEvolved: int)
      requires CanEvaluate(fittest.statics, fittest.representation)
    {
      if 'X' in Progression(fittest.statics.voice, fittest.representation) then false
      else fittest.Fitness() >= fitnessAim || generationsEvolved >= generationLimit
    }

    /** The `condition` lambda, reading the fittest individual's memoised progression. */
    method Condition(fittest: Individual, generationsEvolved: int) returns (stop: bool)
      requires fittest.Valid() && CanEvaluate(fittest.statics, fittest.representation)
      modifies fittest
      ensures fittest.Valid()
      ensures stop == Stops(fittest, generationsEvolved)
    {
      var progression := fittest.GetProgression();
      if 'X' in progression {
        return false;
      }
      stop := fittest.Fitness() >= fitnessAim || generationsEvolved >= generationLimit;
    }

    /**
     * The run stops exactly when every chord of the fittest individual is a
     * triad or a seventh chord (the `NotTriadOrSeventhChord` count is zero)
     * and the fitness aim or the generation limit is reached: a non-chord
     * keeps the run going past the generation limit.
     */
    lemma StopsMeaning(fittest: Individual, generationsEvolved: int)
      requires CanEvaluate(fittest.statics, fittest.representation)
      ensures Stops(fittest, generationsEvolved) <==>
                Count(NotTriadOrSeventhChord, fittest.statics.voice, fittest.representation) == 0
                && (fittest.Fitness() >= fitnessAim || generationsEvolved >= generationLimit)
    {
      var voice, rep := fittest.statics.voice, fittest.representation;
      ProgressionFlagsNonChords(voice, rep);
      SeriesAlphabet(voice, rep);
      NotTriadCountsNonChords(voice, rep);
      BracketedMember(SeriesBody(voice, rep), 'X');
    }
  }

  /** A character other than a bracket occurs in a bracketed body exactly when it occurs in the body. */
  lemma BracketedMember(body: seq<char>, ch: char)
    requires ch != '[' && ch != ']'
    ensures ch in "[" + body + "]" <==> ch in body
  {
    var s := "[" + body + "]";
    if ch in s {
      var k :| 0 <= k < |s| && s[k] == ch;
      assert body[k - 1] == ch;
    }
    if ch in body {
      var k :| 0 <= k < |body| && body[k] == ch;
      assert s[k + 1] == ch;
    }
  }
}

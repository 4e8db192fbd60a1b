/**
 * The candidate class: a genome plus the memo fields for its `progression`,
 * `series` and figured numerals, its fitness, equality and hash code.
 */
module Individuals {
  import opened Wrappers
  import opened Settings
  import opened Pitch
  import opened Genome
  import opened Evaluation

  /**
   * The two mutable globals `Individual.VOICE` and `Individual.EVALS`. They
   * are assigned once, before any individual exists, so each individual
   * carries the values it was created under.
   */
  datatype Statics = Statics(voice: string, evals: seq<Rule>)

  /** Every rule in `evals` can be evaluated: the cadential rule reads the last chord. */
  predicate CanEvaluate(statics: Statics, rep: seq<Ordinal>) {
    |statics.voice| > 0
    && (ImproperCadentialForm in statics.evals ==> ChordNumber(|statics.voice|, rep) >= 1)
  }

  /** The sum of the strictly positive rule contributions, in `evals` order. */
  function PositivePenalties(evals: seq<Rule>, voice: string, rep: seq<Ordinal>): (total: real)
    requires |voice| > 0
    requires ImproperCadentialForm in evals ==> ChordNumber(|voice|, rep) >= 1
    ensures total >= 0.0
  {
    if |evals| == 0 then 0.0
    else
      var p := Evaluate(evals[0], voice, rep);
      (if p > 0.0 then p else 0.0) + PositivePenalties(evals[1..], voice, rep)
  }

  /** Nothing is subtracted exactly when no rule in `evals` finds a defect. */
  lemma {:induction false} NoPenaltyIffNoDefect(evals: seq<Rule>, voice: string, rep: seq<Ordinal>)
    requires |voice| > 0
    requires ImproperCadentialForm in evals ==> ChordNumber(|voice|, rep) >= 1
    ensures PositivePenalties(evals, voice, rep) == 0.0 <==>
              forall k :: 0 <= k < |evals| ==> Count(evals[k], voice, rep) == 0
  {
    if |evals| > 0 {
      NoPenaltyIffNoDefect(evals[1..], voice, rep);
      CountIsNonNegative(evals[0], voice, rep);
      assert forall k :: 1 <= k < |evals| ==> evals[k] == evals[1..][k - 1];
    }
  }

  /** A defect found by any rule lowers the fitness by at least that rule's weighted count. */
  lemma {:induction false} PenaltyIncludesEachRule(evals: seq<Rule>, voice: string, rep: seq<Ordinal>, k: nat)
    requires |voice| > 0 && k < |evals|
    requires ImproperCadentialForm in evals ==> ChordNumber(|voice|, rep) >= 1
    ensures PositivePenalties(evals, voice, rep) >= Evaluate(evals[k], voice, rep)
  {
    if k > 0 {
      assert evals[k] == evals[1..][k - 1];
      PenaltyIncludesEachRule(evals[1..], voice, rep, k - 1);
    }
  }

  // ---------------------------------------------------------------------------
  // Hash codes in 32-bit arithmetic

  const TWO_TO_31: int := 0x8000_0000

  /** Java `int` overflow: the value congruent to x modulo 2^32 in [-2^31, 2^31). */
  function Int32(x: int): (r: int)
    ensures -TWO_TO_31 <= r < TWO_TO_31
    ensures (x - r) % (2 * TWO_TO_31) == 0
  {
    var m := x % (2 * TWO_TO_31);
    if m >= TWO_TO_31 then m - 2 * TWO_TO_31 else m
  }

  /** `List.hashCode`: 31 * h + element, from 1, over the elements in order. */
  function ListHashCode(s: seq<int>): (h: int)
    ensures -TWO_TO_31 <= h < TWO_TO_31
  {
    if |s| == 0 then 1 else Int32(31 * ListHashCode(s[..|s| - 1]) + s[|s| - 1])
  }

  /** The argument of `equals`: null, an object of another class, or an individual. */
  datatype ObjectRef = Null | Foreign | Ind(individual: Individual)

  class Individual {
    const statics: Statics
    const representation: seq<Ordinal>
    var progression: Option<string>
    var series: Option<string>
    var chordNumbers: Option<seq<seq<int>>>

    /** The genome passed the register check under a non-empty voice string. */
    predicate WellFormed() {
      |statics.voice| > 0 && IsValidGenome(statics.voice, representation)
    }

    /** Well formed, and every filled memo holds its view. */
    ghost predicate Valid()
      reads this
    {
      WellFormed()
      && (progression.Some? ==> progression.value == Progression(statics.voice, representation))
      && (series.Some? ==> series.value == Series(statics.voice, representation))
      && (chordNumbers.Some? ==> chordNumbers.value == FiguredNumerals(statics.voice, representation))
    }

    /** `Individual(List<Integer>)` once the register check has passed. */
    constructor (statics: Statics, representation: seq<Ordinal>)
      requires |statics.voice| > 0 && IsValidGenome(statics.voice, representation)
      ensures Valid()
      ensures this.statics == statics && this.representation == representation
      ensures progression.None? && series.None? && chordNumbers.None?
    {
      this.statics := statics;
      this.representation := representation;
      progression := None;
      series := None;
      chordNumbers := None;
    }

    /** `Individual(List<Integer>)`: the superclass constructor runs `checkValidity` first. */
    static method FromRepresentation(statics: Statics, rep: seq<int>) returns (r: Result<Individual, Failure>)
      requires |statics.voice| > 0
      ensures r.Ok? <==> IsValidGenome(statics.voice, rep)
      ensures r.Ok? ==> fresh(r.value) && r.value.Valid() && r.value.statics == statics
                        && r.value.representation == rep
      ensures r.Err? ==> exists i :: 0 <= i < |rep| && GeneError(statics.voice, rep, i) == Some(r.error)
                                     && forall j :: 0 <= j < i ==> GeneError(statics.voice, rep, j).None?
    {
      var checked := CheckValidity(statics.voice, rep);
      match checked
      case Err(e) => return Err(e);
      case Ok(genome) =>
        var idv := new Individual(statics, genome);
        return Ok(idv);
    }

    /** `Individual(int chord_no)`: a random genome of `chordNo` chords. */
    static method Random(statics: Statics, chordNo: nat, draws: seq<nat>) returns (r: Result<Individual, Failure>)
      requires |statics.voice| > 0 && |draws| == chordNo * |statics.voice|
      requires forall k :: 0 <= k < |draws| && IsVoiceLabel(statics.voice[k % |statics.voice|]) ==>
                 draws[k] < Width(statics.voice[k % |statics.voice|])
      ensures r.Ok? <==> chordNo == 0 || forall v :: 0 <= v < |statics.voice| ==> IsVoiceLabel(statics.voice[v])
      ensures r.Ok? ==> fresh(r.value) && r.value.Valid() && r.value.statics == statics
                        && ChordNumber(|statics.voice|, r.value.representation) == chordNo
                        && r.value.representation == RandomChromosome(statics.voice, chordNo, draws).value
    {
      RandomChromosomeIsValid(statics.voice, chordNo, draws);
      var genome := RandomChromosome(statics.voice, chordNo, draws);
      match genome
      case Err(e) => return Err(e);
      case Ok(g) =>
        var idv := new Individual(statics, g);
        return Ok(idv);
    }

    /** `getProgression`: computed on first use, then served from the memo. */
    method GetProgression() returns (p: string)
      requires Valid()
      modifies this
      ensures Valid()
      ensures p == Progression(statics.voice, representation)
      ensures progression == Some(p)
      ensures series == old(series) && chordNumbers == old(chordNumbers)
    {
      if progression.None? {
        progression := Some(Progression(statics.voice, representation));
      }
      p := progression.value;
    }

    /** `getSeries`: computed on first use, then served from the memo. */
    method GetSeries() returns (s: string)
      requires Valid()
      modifies this
      ensures Valid()
      ensures s == Series(statics.voice, representation)
      ensures series == Some(s)
      ensures progression == old(progression) && chordNumbers == old(chordNumbers)
    {
      if series.None? {
        series := Some(Series(statics.voice, representation));
      }
      s := series.value;
    }

    /** `getFiguredNumerals`: computed on first use, then served from the memo. */
    method GetFiguredNumerals() returns (numerals: seq<seq<int>>)
      requires Valid()
      modifies this
      ensures Valid()
      ensures numerals == FiguredNumerals(statics.voice, representation)
      ensures chordNumbers == Some(numerals)
      ensures progression == old(progression) && series == old(series)
    {
      if chordNumbers.None? {
        chordNumbers := Some(FiguredNumerals(statics.voice, representation));
      }
      numerals := chordNumbers.value;
    }

    /** `getTextFigure(i)`, reading the memoised progression and figured numerals. */
    method GetTextFigure(i: nat) returns (figure: string)
      requires Valid() && i < ChordNumber(|statics.voice|, representation)
      modifies this
      ensures Valid()
      ensures figure == TextFigure(statics.voice, representation, i)
      ensures figure == "-" <==> Series(statics.voice, representation)[i + 1] == 'X'
    {
      var p := GetProgression();
      var numerals := GetFiguredNumerals();
      ProgressionSymbol(statics.voice, representation, i);
      TextFigureMarksNonChords(statics.voice, representation, i);
      var symbol := p[i + 1];
      NumeralOfSymbol(symbol);
      var roman := ROMAN_NUMERAL[ToUpper(symbol)];
      if roman == "-" {
        return "-";
      }
      var numbers := set x | x in numerals[i];
      figure := UpperString(roman) + InversionSuffix(numbers);
    }

    /** `fitness`: one minus the positive rule contributions, not clamped at zero. */
    function Fitness(): (f: real)
      requires CanEvaluate(statics, representation)
      ensures f <= 1.0
      ensures f == 1.0 <==> forall k :: 0 <= k < |statics.evals| ==> Count(statics.evals[k], statics.voice, representation) == 0
    {
      NoPenaltyIffNoDefect(statics.evals, statics.voice, representation);
      1.0 - PositivePenalties(statics.evals, statics.voice, representation)
    }

    /** `equals`: the same object, or another individual with the same genes. */
    predicate Equals(obj: ObjectRef)
      ensures Equals(obj) <==> obj.Ind? && obj.individual.representation == representation
    {
      match obj
      case Null => false
      case Foreign => false
      case Ind(other) => this == other || representation == other.representation
    }

    /** `hashCode`: 29 * 3 plus the hash of the gene list, in 32-bit arithmetic. */
    function HashCode(): (h: int)
      ensures -TWO_TO_31 <= h < TWO_TO_31
    {
      Int32(29 * 3 + ListHashCode(representation))
    }
  }

  /** Equal individuals have equal hash codes, and equality is symmetric. */
  lemma EqualsAgreesWithHashCode(a: Individual, b: Individual)
    ensures a.Equals(Ind(b)) ==> a.HashCode() == b.HashCode()
    ensures a.Equals(Ind(b)) <==> b.Equals(Ind(a))
    ensures a.Equals(Ind(a))
  {
  }
}

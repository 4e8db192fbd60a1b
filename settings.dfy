/**
 * The constant tables of the composer: voice registers (as pitch ordinals,
 * C2 = 0 .. B5 = 27), the diatonic triads and sevenths, penalty weights,
 * melodic interval whitelists, cadential formulas and Roman numerals.
 */
module Settings {

  /** A closed range [low, high] of pitch ordinals. */
  datatype Range = Range(low: int, high: int)

  const SOPRANO: Range := Range(18, 26)  // G4 .. A5
  const ALTO: Range := Range(11, 21)     // G3 .. C5
  const TENOR: Range := Range(7, 17)     // C3 .. F4
  const BASS: Range := Range(2, 14)      // E2 .. C4

  const TRIADS: seq<string> := ["CEG", "DFA", "EGB", "FAC", "GBD", "ACE"]
  const SEVENTHS: seq<string> := ["CEGB", "DFAC", "EGBD", "FACE", "GBDF", "ACEG", "BDFA"]

  const PENALTY_MELODIC_SMOOTHNESS: real := 0.01
  const PENALTY_VOICE_INDEPENDENCE: real := 0.035
  const PENALTY_IMPROPER_OUTER_VOICES: real := 0.25
  const PENALTY_NOT_TRIAD_OR_SEVENTH_CHORD: real := 0.05
  const PENALTY_IMPROPER_RESOLUTION: real := 0.015
  const PENALTY_SUCCESSIVE_DISSONANCE: real := 0.02
  const PENALTY_NON_TRIAD_START: real := 0.03
  const PENALTY_IMPROPER_CADENTIAL: real := 0.06

  const FEASIBLE_INTERVALS_INNER: seq<int> := [0, 1, 2, 3, -1, -2, -3]
  const FEASIBLE_INTERVALS_OUTER: seq<int> := [1, 2, 3, 4, 5, 7, -1, -2, -3, -4, -7]

  /**
   * A cadential formula `.+[approach]target\]`: at least one leading character,
   * one character of the approach class, the target letter, a closing bracket.
   */
  datatype Cadence = Cadence(approach: string, target: char)

  const CADENCES: seq<Cadence> := [
    Cadence("GFgf", 'C'),
    Cadence("CAa", 'D'),
    Cadence("DFA", 'E'),
    Cadence("C", 'F'),
    Cadence("DFAdf", 'G'),
    Cadence("EGeg", 'A')
  ]

  const ROMAN_NUMERAL: map<char, string> := map[
    'C' := "I", 'D' := "ii", 'E' := "iii", 'F' := "IV",
    'G' := "V", 'A' := "vi", 'B' := "vii", 'X' := "-"
  ]

  /** The characters a regular-expression `.` does not match. */
  predicate IsLineTerminator(c: char) {
    c == '\n' || c == '\r' || c == '\U{85}' || c == '\U{2028}' || c == '\U{2029}'
  }

  /** `.+` over a whole string: non-empty and no line terminator. */
  predicate AnyPlus(s: string) {
    |s| > 0 && forall i :: 0 <= i < |s| ==> !IsLineTerminator(s[i])
  }

  /** Whole-string match of the cadential formula `c` against `s`. */
  predicate MatchesCadence(s: string, c: Cadence) {
    |s| >= 4
    && AnyPlus(s[..|s| - 3])
    && s[|s| - 3] in c.approach
    && s[|s| - 2] == c.target
    && s[|s| - 1] == ']'
  }

  /** `Cadences.stream().anyMatch(s::matches)` */
  predicate MatchesAnyCadence(s: string) {
    exists i :: 0 <= i < |CADENCES| && MatchesCadence(s, CADENCES[i])
  }

  lemma RegistersAreNonEmptyRanges()
    ensures forall r :: r in [SOPRANO, ALTO, TENOR, BASS] ==> 0 <= r.low <= r.high < 28
    ensures SOPRANO == Range(18, 26) && ALTO == Range(11, 21)
    ensures TENOR == Range(7, 17) && BASS == Range(2, 14)
  {
  }

  lemma InnerWhitelistIsSmallSteps(x: int)
    ensures x in FEASIBLE_INTERVALS_INNER <==> -3 <= x <= 3
  {
  }

  lemma OuterWhitelistIsAsymmetric(x: int)
    ensures x in FEASIBLE_INTERVALS_OUTER <==> (1 <= x <= 5 || x == 7 || -4 <= x <= -1 || x == -7)
    ensures 0 !in FEASIBLE_INTERVALS_OUTER && 6 !in FEASIBLE_INTERVALS_OUTER
    ensures -6 !in FEASIBLE_INTERVALS_OUTER && -5 !in FEASIBLE_INTERVALS_OUTER
    ensures 5 in FEASIBLE_INTERVALS_OUTER && 7 in FEASIBLE_INTERVALS_OUTER && -7 in FEASIBLE_INTERVALS_OUTER
  {
  }

  lemma PenaltiesArePositive()
    ensures PENALTY_MELODIC_SMOOTHNESS > 0.0 && PENALTY_VOICE_INDEPENDENCE > 0.0
    ensures PENALTY_IMPROPER_OUTER_VOICES > 0.0 && PENALTY_NOT_TRIAD_OR_SEVENTH_CHORD > 0.0
    ensures PENALTY_IMPROPER_RESOLUTION > 0.0 && PENALTY_SUCCESSIVE_DISSONANCE > 0.0
    ensures PENALTY_NON_TRIAD_START > 0.0 && PENALTY_IMPROPER_CADENTIAL > 0.0
  {
  }

  lemma RomanNumeralDomain()
    ensures ROMAN_NUMERAL.Keys == {'C', 'D', 'E', 'F', 'G', 'A', 'B', 'X'}
    ensures ROMAN_NUMERAL['X'] == "-"
    ensures forall c :: c in ROMAN_NUMERAL && c != 'X' ==> ROMAN_NUMERAL[c] != "-"
  {
  }

  /**
   * Every formula reads a string by its last three characters and needs at
   * least one character before them; the target letter is an upper-case step.
   */
  lemma CadenceShape(s: string, i: nat)
    requires i < |CADENCES|
    ensures MatchesCadence(s, CADENCES[i]) ==>
              |s| >= 4 && s[|s| - 1] == ']' && s[|s| - 2] == CADENCES[i].target
              && s[|s| - 3] in CADENCES[i].approach
    ensures CADENCES[i].target in "CDEFGAB" && ']' !in CADENCES[i].approach
  {
  }
}

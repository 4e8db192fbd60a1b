/**
 * The rule set: eight integer defect counters over an individual's genome,
 * each weighted by its unit penalty.
 */
module Evaluation {
  import opened Wrappers
  import opened Settings
  import opened Pitch
  import opened Genome
  import opened Splitting

  datatype Rule =
    | MelodicSmoothness
    | VoiceIndependence
    | ImproperOuterVoices
    | NotTriadOrSeventhChord
    | ImproperResolution
    | SuccessiveDissonantChords
    | StartWithNonTriad
    | ImproperCadentialForm

  /** `Evaluation.values()`, in declaration order. */
  const ALL_RULES: seq<Rule> := [
    MelodicSmoothness, VoiceIndependence, ImproperOuterVoices, NotTriadOrSeventhChord,
    ImproperResolution, SuccessiveDissonantChords, StartWithNonTriad, ImproperCadentialForm
  ]

  /** The weight each rule was declared with. */
  function UnitPenalty(rule: Rule): (w: real)
    ensures w > 0.0
  {
    match rule
    case MelodicSmoothness => PENALTY_MELODIC_SMOOTHNESS
    case VoiceIndependence => PENALTY_VOICE_INDEPENDENCE
    case ImproperOuterVoices => PENALTY_IMPROPER_OUTER_VOICES
    case NotTriadOrSeventhChord => PENALTY_NOT_TRIAD_OR_SEVENTH_CHORD
    case ImproperResolution => PENALTY_IMPROPER_RESOLUTION
    case SuccessiveDissonantChords => PENALTY_SUCCESSIVE_DISSONANCE
    case StartWithNonTriad => PENALTY_NON_TRIAD_START
    case ImproperCadentialForm => PENALTY_IMPROPER_CADENTIAL
  }

  function Abs(x: int): nat {
    if x < 0 then -x else x
  }

  // ---------------------------------------------------------------------------
  // Melodic smoothness

  /** Two notes whose letters are exactly {B, F}: a melodic tritone. */
  predicate IsTritonePair(a: Ordinal, b: Ordinal) {
    PitchSet([a, b]) == {'B', 'F'}
  }

  /**
   * The value of `isMelodicFeasible` for a figure of two or three notes. The
   * Java code sorts the intervals first; neither the whitelist test nor the
   * sum of the two intervals depends on their order, and that sum is the net
   * displacement of the figure.
   */
  predicate MelodicFeasible(v: char, figure: seq<Ordinal>)
    requires 2 <= |figure| <= 3
  {
    NoTritoneStep(figure)
    && if v == 'A' || v == 'T' then
         StepsWithin(figure, FEASIBLE_INTERVALS_INNER) && (|figure| == 2 || Abs(figure[2] as int - figure[0]) < 6)
       else
         StepsWithin(figure, FEASIBLE_INTERVALS_OUTER) && (|figure| == 2 || Abs(figure[2] as int - figure[0]) <= 7)
  }

  /** No two consecutive notes of the figure form a melodic tritone. */
  predicate NoTritoneStep(figure: seq<Ordinal>) {
    forall i :: 0 <= i < |figure| - 1 ==> !IsTritonePair(figure[i], figure[i + 1])
  }

  /** Every interval between consecutive notes of the figure is on the whitelist. */
  predicate StepsWithin(figure: seq<Ordinal>, whitelist: seq<int>) {
    forall i :: 0 <= i < |figure| - 1 ==> figure[i + 1] as int - figure[i] in whitelist
  }

  /** `isMelodicFeasible`: an early-exit scan for tritones, then the whitelist test. */
  method IsMelodicFeasible(v: char, figure: seq<Ordinal>) returns (feasible: bool)
    requires 2 <= |figure| <= 3
    ensures feasible == MelodicFeasible(v, figure)
  {
    var i := 0;
    while i < |figure| - 1
      invariant 0 <= i <= |figure| - 1
      invariant forall j :: 0 <= j < i ==> !IsTritonePair(figure[j], figure[j + 1])
    {
      if IsTritonePair(figure[i], figure[i + 1]) {
        return false;
      }
      i := i + 1;
    }
    assert NoTritoneStep(figure);
    var intervals := seq(|figure| - 1, k requires 0 <= k < |figure| - 1 => figure[k + 1] as int - figure[k]);
    assert |intervals| == 1 || intervals[0] + intervals[1] == figure[2] as int - figure[0];
    if v == 'A' || v == 'T' {
      feasible := (forall k :: 0 <= k < |intervals| ==> intervals[k] in FEASIBLE_INTERVALS_INNER)
                  && (|intervals| == 1 || Abs(intervals[0] + intervals[1]) < 6);
      IntervalsWithin(figure, intervals, FEASIBLE_INTERVALS_INNER);
    } else {
      feasible := (forall k :: 0 <= k < |intervals| ==> intervals[k] in FEASIBLE_INTERVALS_OUTER)
                  && (|intervals| == 1 || Abs(intervals[0] + intervals[1]) <= 7);
      IntervalsWithin(figure, intervals, FEASIBLE_INTERVALS_OUTER);
    }
  }

  /** The whitelist test on the list of intervals is the test on the figure's steps. */
  lemma IntervalsWithin(figure: seq<Ordinal>, intervals: seq<int>, whitelist: seq<int>)
    requires |intervals| == |figure| - 1
    requires forall k :: 0 <= k < |intervals| ==> intervals[k] == figure[k + 1] as int - figure[k]
    ensures (forall k :: 0 <= k < |intervals| ==> intervals[k] in whitelist) <==> StepsWithin(figure, whitelist)
  {
    if forall k :: 0 <= k < |intervals| ==> intervals[k] in whitelist {
      forall i | 0 <= i < |figure| - 1 ensures figure[i + 1] as int - figure[i] in whitelist {
        assert intervals[i] in whitelist;
      }
    }
    if StepsWithin(figure, whitelist) {
      forall k | 0 <= k < |intervals| ensures intervals[k] in whitelist {
        assert figure[k + 1] as int - figure[k] in whitelist;
      }
    }
  }

  /** A melodic tritone step makes any figure infeasible, whatever the voice. */
  lemma TritoneStepIsInfeasible(v: char, figure: seq<Ordinal>, i: nat)
    requires 2 <= |figure| <= 3 && i < |figure| - 1
    requires Step(figure[i]) in {'B', 'F'} && Step(figure[i + 1]) in {'B', 'F'} && Step(figure[i]) != Step(figure[i + 1])
    ensures !MelodicFeasible(v, figure)
  {
    PitchSetOfPair(figure[i], figure[i + 1]);
  }

  /** Inner voices move by at most a fourth per step; repeated notes are allowed. */
  lemma InnerFeasibleStepsAreSmall(v: char, figure: seq<Ordinal>)
    requires 2 <= |figure| <= 3 && (v == 'A' || v == 'T') && MelodicFeasible(v, figure)
    ensures forall i :: 0 <= i < |figure| - 1 ==> Abs(figure[i + 1] as int - figure[i]) <= 3
  {
    forall i | 0 <= i < |figure| - 1 ensures Abs(figure[i + 1] as int - figure[i]) <= 3 {
      InnerWhitelistIsSmallSteps(figure[i + 1] as int - figure[i]);
    }
  }

  /** Outer voices never repeat a note, and may leap a sixth up but not down. */
  lemma OuterRuleIsDirectional()
    ensures MelodicFeasible('S', [2, 7]) && !MelodicFeasible('S', [7, 2])
    ensures forall a: Ordinal :: !MelodicFeasible('B', [a, a])
  {
    PitchSetOfPair(2, 7);
    PitchSetOfPair(7, 2);
    assert Step(2) == 'E' && Step(7) == 'C';
    OuterWhitelistIsAsymmetric(5);
    OuterWhitelistIsAsymmetric(-5);
    OuterWhitelistIsAsymmetric(0);
    assert !MelodicFeasible('S', [7, 2]) by {
      var f: seq<Ordinal> := [7, 2];
      assert f[1] as int - f[0] == -5;
    }
    forall a: Ordinal ensures !MelodicFeasible('B', [a, a]) {
      var f: seq<Ordinal> := [a, a];
      assert f[1] as int - f[0] == 0;
    }
  }

  /** The number of infeasible windows centred on the notes 1 .. n - 1. */
  function InfeasibleWindows(v: char, m: seq<Ordinal>, n: nat): nat
    requires n <= 1 || n < |m|
  {
    if n <= 1 then 0
    else InfeasibleWindows(v, m, n - 1) + (if MelodicFeasible(v, [m[n - 2], m[n - 1], m[n]]) then 0 else 1)
  }

  /** The number of steps i in [1, n) that leap (more than a second). */
  function Skips(m: seq<Ordinal>, n: nat): nat
    requires n <= |m|
  {
    if n <= 1 then 0 else Skips(m, n - 1) + (if Abs(m[n - 1] as int - m[n - 2]) > 1 then 1 else 0)
  }

  /** The number of steps i in [1, n) that repeat or move by a second. */
  function StepwiseMoves(m: seq<Ordinal>, n: nat): nat
    requires n <= |m|
  {
    if n <= 1 then 0 else StepwiseMoves(m, n - 1) + (if Abs(m[n - 1] as int - m[n - 2]) > 1 then 0 else 1)
  }

  /** The centres of interior windows are the notes 1 .. |m| - 2. */
  function InteriorEnd(m: seq<Ordinal>): nat {
    if |m| < 2 then 0 else |m| - 1
  }

  /** `melodicInfeasibilityCount` */
  function MelodicInfeasibilityCount(v: char, m: seq<Ordinal>): nat {
    var skips, steps := Skips(m, |m|), StepwiseMoves(m, |m|);
    InfeasibleWindows(v, m, InteriorEnd(m)) + (if skips > steps then skips - steps else 0)
  }

  lemma {:induction false} NoInfeasibleWindows(v: char, m: seq<Ordinal>, n: nat)
    requires n <= 1 || n < |m|
    ensures InfeasibleWindows(v, m, n) == 0 <==>
              forall i :: 1 <= i < n ==> MelodicFeasible(v, [m[i - 1], m[i], m[i + 1]])
  {
    if n > 1 {
      NoInfeasibleWindows(v, m, n - 1);
    }
  }

  /** A melody scores 0 exactly when every interior window is feasible and it leaps no more than it steps. */
  lemma MelodicInfeasibilityZero(v: char, m: seq<Ordinal>)
    ensures MelodicInfeasibilityCount(v, m) == 0 <==>
              (forall i :: 1 <= i < |m| - 1 ==> MelodicFeasible(v, [m[i - 1], m[i], m[i + 1]]))
              && Skips(m, |m|) <= StepwiseMoves(m, |m|)
  {
    NoInfeasibleWindows(v, m, InteriorEnd(m));
  }

  lemma {:induction false} ConstantMelodyMoves(m: seq<Ordinal>, n: nat)
    requires n <= |m| && forall i :: 0 <= i < |m| ==> m[i] == m[0]
    ensures Skips(m, n) == 0
  {
    if n > 1 {
      ConstantMelodyMoves(m, n - 1);
    }
  }

  lemma {:induction false} ConstantWindows(v: char, m: seq<Ordinal>, n: nat)
    requires n <= 1 || n < |m|
    requires forall i :: 0 <= i < |m| ==> m[i] == m[0]
    ensures v == 'A' || v == 'T' ==> InfeasibleWindows(v, m, n) == 0
    ensures v != 'A' && v != 'T' ==> InfeasibleWindows(v, m, n) == if n <= 1 then 0 else n - 1
  {
    if n > 1 {
      ConstantWindows(v, m, n - 1);
      assert [m[n - 2], m[n - 1], m[n]] == [m[0], m[0], m[0]];
      HeldWindow(v, m[0]);
    }
  }

  /** A window that holds one note is feasible exactly for an inner voice. */
  lemma HeldWindow(v: char, o: Ordinal)
    ensures MelodicFeasible(v, [o, o, o]) <==> v == 'A' || v == 'T'
  {
    var w := [o, o, o];
    PitchSetOfPair(o, o);
    assert !IsTritonePair(w[0], w[1]) && !IsTritonePair(w[1], w[2]);
    assert w[1] as int - w[0] == 0 && w[2] as int - w[1] == 0;
    assert 0 in FEASIBLE_INTERVALS_INNER;
    OuterWhitelistIsAsymmetric(0);
  }

  /** A repeated note is smooth for an inner voice and costs one per interior window for an outer one. */
  lemma ConstantMelodyScore(v: char, m: seq<Ordinal>)
    requires forall i :: 0 <= i < |m| ==> m[i] == m[0]
    ensures v == 'A' || v == 'T' ==> MelodicInfeasibilityCount(v, m) == 0
    ensures v != 'A' && v != 'T' ==> MelodicInfeasibilityCount(v, m) == if |m| < 2 then 0 else |m| - 2
  {
    ConstantMelodyMoves(m, |m|);
    ConstantWindows(v, m, InteriorEnd(m));
  }

  /** The `MelodicSmoothness` rule: the melodic count of every voice from v on. */
  function MelodicSmoothnessFrom(voice: string, rep: seq<Ordinal>, v: nat): nat
    requires v <= |voice|
    decreases |voice| - v
  {
    if v == |voice| then 0
    else MelodicInfeasibilityCount(voice[v], Melody(|voice|, rep, v)) + MelodicSmoothnessFrom(voice, rep, v + 1)
  }

  // ---------------------------------------------------------------------------
  // Voice independence (parallel fifths and octaves)

  /** Whether time step i of the two melodies counts as a parallel fifth or octave. */
  predicate IsParallelAt(m1: seq<Ordinal>, m2: seq<Ordinal>, isOuters: bool, i: nat)
    requires 1 <= i < |m1| && i < |m2|
  {
    var current := Abs(m2[i] as int - m1[i]) % 7;
    var previous := Abs(m2[i - 1] as int - m1[i - 1]) % 7;
    var motion := (m2[i] as int - m2[i - 1]) * (m1[i] as int - m1[i - 1]);
    PitchSet([m1[i], m2[i]]) != {'F', 'B'}
    && (current == 0 || current == 4)
    && ((previous == current && motion != 0) || (isOuters && motion > 0))
  }

  function CommonLength(m1: seq<Ordinal>, m2: seq<Ordinal>): nat {
    if |m1| <= |m2| then |m1| else |m2|
  }

  /** The number of parallel time steps among 1 .. n - 1. */
  function ParallelCount(m1: seq<Ordinal>, m2: seq<Ordinal>, isOuters: bool, n: nat): nat
    requires n <= 1 || n <= CommonLength(m1, m2)
  {
    if n <= 1 then 0
    else ParallelCount(m1, m2, isOuters, n - 1) + (if IsParallelAt(m1, m2, isOuters, n - 1) then 1 else 0)
  }

  /** `voiceIndependenceCheck` */
  method VoiceIndependenceCheck(m1: seq<Ordinal>, m2: seq<Ordinal>, isOuters: bool) returns (count: nat)
    ensures count == ParallelCount(m1, m2, isOuters, CommonLength(m1, m2))
  {
    var cLength := if |m1| <= |m2| then |m1| else |m2|;
    var pCounter := 0;
    var i := 1;
    while i < cLength
      invariant 1 <= i <= (if cLength == 0 then 1 else cLength)
      invariant pCounter == ParallelCount(m1, m2, isOuters, i)
    {
      if PitchSet([m1[i], m2[i]]) != {'F', 'B'} {
        var currItvl := Abs(m2[i] as int - m1[i]) % 7;
        var prevItvl := Abs(m2[i - 1] as int - m1[i - 1]) % 7;
        if currItvl == 0 || currItvl == 4 {
          var motion := (m2[i] as int - m2[i - 1]) * (m1[i] as int - m1[i - 1]);
          if prevItvl == currItvl && motion != 0 {
            pCounter := pCounter + 1;
          } else if isOuters && motion > 0 {
            pCounter := pCounter + 1;
          }
        }
      }
      i := i + 1;
    }
    count := pCounter;
  }

  lemma {:induction false} ParallelCountBound(m1: seq<Ordinal>, m2: seq<Ordinal>, isOuters: bool, n: nat)
    requires n <= CommonLength(m1, m2)
    ensures ParallelCount(m1, m2, isOuters, n) <= if n == 0 then 0 else n - 1
  {
    if n > 1 {
      ParallelCountBound(m1, m2, isOuters, n - 1);
    }
  }

  /** Swapping the two melodies does not change the count. */
  lemma {:induction false} ParallelCountIsSymmetric(m1: seq<Ordinal>, m2: seq<Ordinal>, isOuters: bool, n: nat)
    requires n <= CommonLength(m1, m2)
    ensures n <= CommonLength(m2, m1)
    ensures ParallelCount(m1, m2, isOuters, n) == ParallelCount(m2, m1, isOuters, n)
  {
    if n > 1 {
      ParallelCountIsSymmetric(m1, m2, isOuters, n - 1);
      ParallelAtIsSymmetric(m1, m2, isOuters, n - 1);
    }
  }

  /** Whether step i is parallel does not depend on which melody comes first. */
  lemma ParallelAtIsSymmetric(m1: seq<Ordinal>, m2: seq<Ordinal>, isOuters: bool, i: nat)
    requires 1 <= i < |m1| && i < |m2|
    ensures IsParallelAt(m1, m2, isOuters, i) == IsParallelAt(m2, m1, isOuters, i)
  {
    PitchSetOfPair(m1[i], m2[i]);
    PitchSetOfPair(m2[i], m1[i]);
    assert Abs(m2[i] as int - m1[i]) == Abs(m1[i] as int - m2[i]);
    assert Abs(m2[i - 1] as int - m1[i - 1]) == Abs(m1[i - 1] as int - m2[i - 1]);
    var d1, d2 := m1[i] as int - m1[i - 1], m2[i] as int - m2[i - 1];
    assert d2 * d1 == d1 * d2;
  }

  /** The outer-voice ruleset counts every step the inner one does, and maybe more. */
  lemma {:induction false} OuterRulesetIsStricter(m1: seq<Ordinal>, m2: seq<Ordinal>, n: nat)
    requires n <= CommonLength(m1, m2)
    ensures ParallelCount(m1, m2, false, n) <= ParallelCount(m1, m2, true, n)
  {
    if n > 1 {
      OuterRulesetIsStricter(m1, m2, n - 1);
    }
  }

  /** `"SBS".contains(a + b)` */
  predicate IsOuterPair(a: char, b: char) {
    [a, b] == "SBS"[0..2] || [a, b] == "SBS"[1..3]
  }

  lemma OuterPairIsSopranoAndBass(a: char, b: char)
    ensures IsOuterPair(a, b) <==> (a == 'S' && b == 'B') || (a == 'B' && b == 'S')
  {
    assert "SBS"[0..2] == "SB" && "SBS"[1..3] == "BS";
  }

  /** The checks of voice i against every voice from j on. */
  function PairsWith(voice: string, rep: seq<Ordinal>, i: nat, j: nat): nat
    requires i < j <= |voice|
    decreases |voice| - j
  {
    if j == |voice| then 0
    else
      var m1, m2 := Melody(|voice|, rep, i), Melody(|voice|, rep, j);
      ParallelCount(m1, m2, IsOuterPair(voice[i], voice[j]), CommonLength(m1, m2))
      + PairsWith(voice, rep, i, j + 1)
  }

  /** The `VoiceIndependence` rule: every pair of voices i < j, from voice i on. */
  function VoiceIndependenceFrom(voice: string, rep: seq<Ordinal>, i: nat): nat
    requires i <= |voice|
    decreases |voice| - i
  {
    if i + 1 >= |voice| then 0
    else PairsWith(voice, rep, i, i + 1) + VoiceIndependenceFrom(voice, rep, i + 1)
  }

  // ---------------------------------------------------------------------------
  // Outer voices

  /** Whether voice v breaks the outer-voice rule: an S not on top or a B not at the bottom. */
  predicate MisplacedOuterVoice(voice: string, chord: seq<Ordinal>, v: nat)
    requires |chord| == |voice| > 0 && v < |voice|
  {
    (voice[v] == 'S' && chord[v] != Top(chord)) || (voice[v] == 'B' && chord[v] != Bottom(chord))
  }

  /** The number of voices among 0 .. n - 1 labelled S or B. */
  function OuterLabels(voice: string, n: nat): nat
    requires n <= |voice|
  {
    if n == 0 then 0 else OuterLabels(voice, n - 1) + (if voice[n - 1] in "SB" then 1 else 0)
  }

  /** The misplaced outer voices among 0 .. n - 1. */
  function OuterVoiceDefects(voice: string, chord: seq<Ordinal>, n: nat): nat
    requires |chord| == |voice| > 0 && n <= |voice|
  {
    if n == 0 then 0
    else OuterVoiceDefects(voice, chord, n - 1) + (if MisplacedOuterVoice(voice, chord, n - 1) then 1 else 0)
  }

  /** `improperOuterVoiceCount` */
  function ImproperOuterVoiceCount(voice: string, chord: seq<Ordinal>): nat
    requires |chord| == |voice| > 0
  {
    OuterVoiceDefects(voice, chord, |voice|)
  }

  /** The count is at most the number of S and B voices. */
  lemma {:induction false} OuterVoiceDefectsBound(voice: string, chord: seq<Ordinal>, n: nat)
    requires |chord| == |voice| > 0 && n <= |voice|
    ensures OuterVoiceDefects(voice, chord, n) <= OuterLabels(voice, n)
  {
    if n > 0 {
      OuterVoiceDefectsBound(voice, chord, n - 1);
    }
  }

  /** The count is zero exactly when every S voice holds the highest note and every B voice the lowest. */
  lemma {:induction false} OuterVoiceDefectsMeaning(voice: string, chord: seq<Ordinal>, n: nat)
    requires |chord| == |voice| > 0 && n <= |voice|
    ensures OuterVoiceDefects(voice, chord, n) == 0 <==>
              forall v :: 0 <= v < n ==>
                (voice[v] == 'S' ==> chord[v] == Top(chord)) && (voice[v] == 'B' ==> chord[v] == Bottom(chord))
  {
    if n > 0 {
      OuterVoiceDefectsMeaning(voice, chord, n - 1);
      assert MisplacedOuterVoice(voice, chord, n - 1) <==>
               !((voice[n - 1] == 'S' ==> chord[n - 1] == Top(chord)) && (voice[n - 1] == 'B' ==> chord[n - 1] == Bottom(chord)));
    }
  }

  /** The `ImproperOuterVoices` rule over chords 0 .. n - 1. */
  function ImproperOuterVoicesUpTo(voice: string, rep: seq<Ordinal>, n: nat): nat
    requires |voice| > 0 && n <= ChordNumber(|voice|, rep)
  {
    if n == 0 then 0
    else ImproperOuterVoicesUpTo(voice, rep, n - 1) + ImproperOuterVoiceCount(voice, Chord(|voice|, rep, n - 1))
  }

  // ---------------------------------------------------------------------------
  // Series-based rules

  /** The `NotTriadOrSeventhChord` rule: pieces of `series` split at X, minus one. */
  function NotTriadCount(voice: string, rep: seq<Ordinal>): int
    requires |voice| > 0
  {
    |JavaSplit(Series(voice, rep), {'X'})| - 1
  }

  /** The `SuccessiveDissonantChords` rule: empty pieces of `series` split at S, s and X. */
  function SuccessiveDissonanceCount(voice: string, rep: seq<Ordinal>): nat
    requires |voice| > 0
  {
    EmptyPieces(JavaSplit(Series(voice, rep), {'S', 's', 'X'}))
  }

  /** Whole-string match of `\[[Tt].+`. */
  predicate StartsWithTriad(s: string) {
    |s| >= 3 && s[0] == '[' && s[1] in "Tt" && AnyPlus(s[2..])
  }

  /** The `StartWithNonTriad` rule. */
  function StartWithNonTriadCount(voice: string, rep: seq<Ordinal>): nat
    requires |voice| > 0
  {
    if StartsWithTriad(Series(voice, rep)) then 0 else 1
  }

  /** Whole-string match of `.+[ST]T\]`. */
  predicate EndsWithAuthenticCadence(s: string) {
    |s| >= 4 && AnyPlus(s[..|s| - 3]) && s[|s| - 3] in "ST" && s[|s| - 2] == 'T' && s[|s| - 1] == ']'
  }

  /** The `ImproperCadentialForm` rule: three 0/1 sub-checks. */
  function ImproperCadentialCount(voice: string, rep: seq<Ordinal>): (r: nat)
    requires |voice| > 0 && ChordNumber(|voice|, rep) >= 1
    ensures r <= 3
  {
    var last := LastChord(|voice|, rep);
    NamesSpellStepAndOctave(Top(last));
    (if EndsWithAuthenticCadence(Series(voice, rep)) then 0 else 1)
    + (if MatchesAnyCadence(Progression(voice, rep)) then 0 else 1)
    + (if [Root(last)] == GetStep(Top(last)) then 0 else 1)
  }

  /** Series characters are drawn from T, t, S, s and X. */
  lemma SeriesAlphabet(voice: string, rep: seq<Ordinal>)
    requires |voice| > 0
    ensures forall k :: 0 <= k < |SeriesBody(voice, rep)| ==> SeriesBody(voice, rep)[k] in "TtSsX"
    ensures Series(voice, rep) == "[" + SeriesBody(voice, rep) + "]"
  {
  }

  /** `NotTriadOrSeventhChord` counts the chords that are neither a triad nor a seventh chord. */
  lemma NotTriadCountsNonChords(voice: string, rep: seq<Ordinal>)
    requires |voice| > 0
    ensures NotTriadCount(voice, rep) == Occurrences(SeriesBody(voice, rep), {'X'})
    ensures 0 <= NotTriadCount(voice, rep) <= ChordNumber(|voice|, rep)
  {
    var body := SeriesBody(voice, rep);
    var s := "[" + body + "]";
    SplitOfEnclosed(s, {'X'});
    OccurrencesOfConcat("[" + body, "]", {'X'});
    OccurrencesOfConcat("[", body, {'X'});
  }

  /** `SuccessiveDissonantChords` counts neighbouring chords that are both non-triads. */
  lemma SuccessiveDissonanceCountsPairs(voice: string, rep: seq<Ordinal>)
    requires |voice| > 0
    ensures SuccessiveDissonanceCount(voice, rep) == AdjacentPairs(SeriesBody(voice, rep), {'S', 's', 'X'})
  {
    var body := SeriesBody(voice, rep);
    var s := "[" + body + "]";
    SplitOfEnclosed(s, {'S', 's', 'X'});
    PairsIgnoreOuterNonDelimiters(body, '[', ']', {'S', 's', 'X'});
  }

  lemma {:induction false} AdjacentPairsBound(s: string, delims: set<char>)
    ensures AdjacentPairs(s, delims) <= if |s| == 0 then 0 else |s| - 1
  {
    if |s| >= 2 {
      AdjacentPairsBound(s[1..], delims);
    }
  }

  /** Series text never holds a line terminator, so `.+` matches any non-empty part of it. */
  lemma SeriesTextIsAnyPlus(t: string)
    requires |t| > 0 && forall k :: 0 <= k < |t| ==> t[k] in "[]TtSsX"
    ensures AnyPlus(t)
  {
    forall k | 0 <= k < |t| ensures !IsLineTerminator(t[k]) {
      assert t[k] in "[]TtSsX";
    }
  }

  /** The penalty applies unless the first chord is a triad (in any position). */
  lemma StartWithNonTriadMeaning(voice: string, rep: seq<Ordinal>)
    requires |voice| > 0
    ensures StartWithNonTriadCount(voice, rep) == 0 <==>
              ChordNumber(|voice|, rep) >= 1 && SeriesBody(voice, rep)[0] in "Tt"
  {
    SeriesAlphabet(voice, rep);
    var body := SeriesBody(voice, rep);
    var s := Series(voice, rep);
    if |body| >= 1 {
      var tail := s[2..];
      assert tail == body[1..] + "]";
      assert forall k :: 0 <= k < |tail| ==> tail[k] == (if k < |body| - 1 then body[k + 1] else ']');
      SeriesTextIsAnyPlus(tail);
    }
  }

  /**
   * The series check passes exactly when there are at least two chords, the
   * last is a root-position triad and the one before it a root-position chord.
   */
  lemma SeriesCadenceMeaning(voice: string, rep: seq<Ordinal>)
    requires |voice| > 0
    ensures EndsWithAuthenticCadence(Series(voice, rep)) <==> ClosesOnRootTriad(SeriesBody(voice, rep))
  {
    SeriesAlphabet(voice, rep);
    BracketedCadence(SeriesBody(voice, rep));
  }

  /** At least two chords, the last a root-position triad and the one before a root-position chord. */
  predicate ClosesOnRootTriad(body: seq<char>) {
    |body| >= 2 && body[|body| - 2] in "ST" && body[|body| - 1] == 'T'
  }

  /** The cadence test on a bracketed body of series characters reads its last two characters. */
  lemma BracketedCadence(body: seq<char>)
    requires forall k :: 0 <= k < |body| ==> body[k] in "TtSsX"
    ensures EndsWithAuthenticCadence("[" + body + "]") <==> ClosesOnRootTriad(body)
  {
    var s := "[" + body + "]";
    if |body| >= 2 {
      var head := s[..|s| - 3];
      assert head == "[" + body[..|body| - 2];
      assert forall k :: 0 <= k < |head| ==> head[k] == (if k == 0 then '[' else body[k - 1]);
      SeriesTextIsAnyPlus(head);
    }
  }

  /** The last sub-check passes exactly when the root is the letter of the highest note. */
  lemma RootCheckMeaning(chord: seq<Ordinal>)
    requires |chord| > 0
    ensures (NamesSpellStepAndOctave(Top(chord)); [Root(chord)] == GetStep(Top(chord))) <==> Root(chord) == Step(Top(chord))
  {
    NamesSpellStepAndOctave(Top(chord));
  }

  // ---------------------------------------------------------------------------
  // Resolution of sevenths and leading tones

  /** The voices among `voices` whose note at chord c + 1 is neither a step down nor held. */
  function UnresolvedVoices(voice: string, rep: seq<Ordinal>, c: nat, voices: seq<nat>): nat
    requires |voice| > 0 && c + 1 < ChordNumber(|voice|, rep)
    requires forall k :: 0 <= k < |voices| ==> voices[k] < |voice|
  {
    if |voices| == 0 then 0
    else
      var m := Melody(|voice|, rep, voices[0]);
      (if m[c + 1] as int - m[c] != -1 && m[c + 1] as int - m[c] != 0 then 1 else 0)
      + UnresolvedVoices(voice, rep, c, voices[1..])
  }

  /** The unresolved sevenths of chord c: none unless it is a seventh chord. */
  function UnresolvedSevenths(voice: string, rep: seq<Ordinal>, c: nat): nat
    requires |voice| > 0 && c + 1 < ChordNumber(|voice|, rep)
  {
    var chord := Chord(|voice|, rep, c);
    if SeventhChordTest(chord) == 'X' then 0
    else
      SeventhIsLocatable(chord);
      UnresolvedVoices(voice, rep, c, LocateSeventhNote(chord).value)
  }

  /** The unresolved sevenths of every chord but the last. */
  function SeventhDefectsPerChord(voice: string, rep: seq<Ordinal>): (r: seq<nat>)
    requires |voice| > 0
    ensures |r| == if ChordNumber(|voice|, rep) == 0 then 0 else ChordNumber(|voice|, rep) - 1
  {
    var n := if ChordNumber(|voice|, rep) == 0 then 0 else ChordNumber(|voice|, rep) - 1;
    seq(n, c requires 0 <= c < n => UnresolvedSevenths(voice, rep, c))
  }

  function Sum(xs: seq<nat>): nat {
    if |xs| == 0 then 0 else xs[0] + Sum(xs[1..])
  }

  lemma {:induction false} SumIsZero(xs: seq<nat>)
    ensures Sum(xs) == 0 <==> forall i :: 0 <= i < |xs| ==> xs[i] == 0
  {
    if |xs| > 0 {
      SumIsZero(xs[1..]);
      assert forall i :: 1 <= i < |xs| ==> xs[i] == xs[1..][i - 1];
    }
  }

  /** `improperSeventhResolution` */
  function ImproperSeventhResolution(voice: string, rep: seq<Ordinal>): nat
    requires |voice| > 0
  {
    Sum(SeventhDefectsPerChord(voice, rep))
  }

  lemma {:induction false} UnresolvedVoicesZero(voice: string, rep: seq<Ordinal>, c: nat, voices: seq<nat>)
    requires |voice| > 0 && c + 1 < ChordNumber(|voice|, rep)
    requires forall k :: 0 <= k < |voices| ==> voices[k] < |voice|
    ensures UnresolvedVoices(voice, rep, c, voices) <= |voices|
    ensures UnresolvedVoices(voice, rep, c, voices) == 0 <==> VoicesResolve(voice, rep, c, voices)
  {
    if |voices| > 0 {
      UnresolvedVoicesZero(voice, rep, c, voices[1..]);
      assert forall k :: 1 <= k < |voices| ==> voices[k] == voices[1..][k - 1];
    }
  }

  /** Every voice in `voices` steps down by one or holds its note from chord c to chord c + 1. */
  predicate VoicesResolve(voice: string, rep: seq<Ordinal>, c: nat, voices: seq<nat>)
    requires |voice| > 0 && c + 1 < ChordNumber(|voice|, rep)
    requires forall k :: 0 <= k < |voices| ==> voices[k] < |voice|
  {
    forall k :: 0 <= k < |voices| ==>
      Melody(|voice|, rep, voices[k])[c + 1] as int - Melody(|voice|, rep, voices[k])[c] in {-1, 0}
  }

  /** Chord c is not a seventh chord, or each of its sevenths resolves into chord c + 1. */
  predicate SeventhsResolveAt(voice: string, rep: seq<Ordinal>, c: nat)
    requires |voice| > 0 && c + 1 < ChordNumber(|voice|, rep)
  {
    var chord := Chord(|voice|, rep, c);
    SeventhChordTest(chord) == 'X'
    || (LocateSeventhNote(chord).Some? && VoicesResolve(voice, rep, c, LocateSeventhNote(chord).value))
  }

  lemma UnresolvedSeventhsZero(voice: string, rep: seq<Ordinal>, c: nat)
    requires |voice| > 0 && c + 1 < ChordNumber(|voice|, rep)
    ensures UnresolvedSevenths(voice, rep, c) == 0 <==> SeventhsResolveAt(voice, rep, c)
  {
    var chord := Chord(|voice|, rep, c);
    if SeventhChordTest(chord) != 'X' {
      SeventhIsLocatable(chord);
      UnresolvedVoicesZero(voice, rep, c, LocateSeventhNote(chord).value);
    }
  }

  /** No seventh is penalised exactly when every seventh steps down or is held. */
  lemma SeventhResolutionZero(voice: string, rep: seq<Ordinal>)
    requires |voice| > 0
    ensures ImproperSeventhResolution(voice, rep) == 0 <==>
              forall c :: 0 <= c < ChordNumber(|voice|, rep) - 1 ==> SeventhsResolveAt(voice, rep, c)
  {
    var per := SeventhDefectsPerChord(voice, rep);
    SumIsZero(per);
    forall c | 0 <= c < |per| ensures per[c] == 0 <==> SeventhsResolveAt(voice, rep, c) {
      UnresolvedSeventhsZero(voice, rep, c);
    }
  }

  /** The letters of a melody, as its pitch names spell them. */
  function NoteLetters(m: seq<Ordinal>): (l: string)
    ensures |l| == |m| && forall i :: 0 <= i < |m| ==> l[i] == Step(m[i])
  {
    seq(|m|, i requires 0 <= i < |m| => Step(m[i]))
  }

  /**
   * In the rendering "[B3, C4, ...]" every note but the last is followed by
   * ", "; the pattern `(B., )+` matches each maximal run of such B notes.
   */
  function CommaNotes(l: string): nat {
    if |l| == 0 then 0 else |l| - 1
  }

  /** The B notes among 0 .. n - 1 that start a run (the previous note is not B). */
  function RunStarts(l: string, n: nat): nat
    requires n <= |l|
  {
    if n == 0 then 0
    else RunStarts(l, n - 1) + (if l[n - 1] == 'B' && (n - 1 == 0 || l[n - 2] != 'B') then 1 else 0)
  }

  /** The B notes among 0 .. n - 1 followed by a C: the matches of `B., C`. */
  function BThenC(l: string, n: nat): nat
    requires n <= CommaNotes(l)
  {
    if n == 0 then 0 else BThenC(l, n - 1) + (if l[n - 1] == 'B' && l[n] == 'C' then 1 else 0)
  }

  /** The B notes among 0 .. n - 1 followed by a note other than B or C. */
  function Escapes(l: string, n: nat): nat
    requires n <= CommaNotes(l)
  {
    if n == 0 then 0 else Escapes(l, n - 1) + (if l[n - 1] == 'B' && l[n] != 'B' && l[n] != 'C' then 1 else 0)
  }

  /** The B notes among 0 .. n - 1 followed by a note other than B. */
  function RunEnds(l: string, n: nat): nat
    requires n <= CommaNotes(l)
  {
    if n == 0 then 0 else RunEnds(l, n - 1) + (if l[n - 1] == 'B' && l[n] != 'B' then 1 else 0)
  }

  /**
   * `str.split("(B., )+").length - str.split("B., C").length` for one melody:
   * neither pattern can match at either end of the rendering, so each split
   * yields one piece more than it has matches.
   */
  function LeadingToneDefects(l: string): int {
    (RunStarts(l, CommaNotes(l)) + 1) - (BThenC(l, CommaNotes(l)) + 1)
  }

  lemma {:induction false} RunStartsAreRunEnds(l: string, n: nat)
    requires 1 <= n <= |l|
    ensures n - 1 <= CommaNotes(l)
    ensures RunStarts(l, n) == RunEnds(l, n - 1) + (if l[n - 1] == 'B' then 1 else 0)
  {
    if n > 1 {
      RunStartsAreRunEnds(l, n - 1);
    }
  }

  lemma {:induction false} RunEndsSplit(l: string, n: nat)
    requires n <= CommaNotes(l)
    ensures RunEnds(l, n) == Escapes(l, n) + BThenC(l, n)
  {
    if n > 0 {
      RunEndsSplit(l, n - 1);
    }
  }

  /**
   * The leading-tone count of a melody: B notes that move to a note other than
   * B or C, plus one when the melody ends on two B notes.
   */
  lemma LeadingToneClosedForm(l: string)
    ensures LeadingToneDefects(l) ==
              Escapes(l, CommaNotes(l)) + (if |l| >= 2 && l[|l| - 2] == 'B' && l[|l| - 1] == 'B' then 1 else 0)
  {
    var n := CommaNotes(l);
    if n >= 1 {
      RunStartsAreRunEnds(l, n);
      RunEndsSplit(l, n);
      RunEndsSplit(l, n - 1);
    }
  }

  /** `improperLeadingToneResolution` over the S and B voices from v on. */
  function LeadingToneResolutionFrom(voice: string, rep: seq<Ordinal>, v: nat): int
    requires v <= |voice|
    decreases |voice| - v
  {
    if v == |voice| then 0
    else
      (if voice[v] in "SB" then LeadingToneDefects(NoteLetters(Melody(|voice|, rep, v))) else 0)
      + LeadingToneResolutionFrom(voice, rep, v + 1)
  }

  lemma {:induction false} LeadingToneResolutionIsCount(voice: string, rep: seq<Ordinal>, v: nat)
    requires v <= |voice|
    decreases |voice| - v
    ensures LeadingToneResolutionFrom(voice, rep, v) >= 0
  {
    if v < |voice| {
      LeadingToneResolutionIsCount(voice, rep, v + 1);
      LeadingToneClosedForm(NoteLetters(Melody(|voice|, rep, v)));
    }
  }

  // ---------------------------------------------------------------------------
  // The rules

  /** The integer each rule's function returns for an individual. */
  function Count(rule: Rule, voice: string, rep: seq<Ordinal>): int
    requires |voice| > 0
    requires rule.ImproperCadentialForm? ==> ChordNumber(|voice|, rep) >= 1
  {
    match rule
    case MelodicSmoothness => MelodicSmoothnessFrom(voice, rep, 0)
    case VoiceIndependence => VoiceIndependenceFrom(voice, rep, 0)
    case ImproperOuterVoices => ImproperOuterVoicesUpTo(voice, rep, ChordNumber(|voice|, rep))
    case NotTriadOrSeventhChord => NotTriadCount(voice, rep)
    case ImproperResolution => ImproperSeventhResolution(voice, rep) + LeadingToneResolutionFrom(voice, rep, 0)
    case SuccessiveDissonantChords => SuccessiveDissonanceCount(voice, rep)
    case StartWithNonTriad => StartWithNonTriadCount(voice, rep)
    case ImproperCadentialForm => ImproperCadentialCount(voice, rep)
  }

  /** Every rule counts defects: the value is never negative. */
  lemma CountIsNonNegative(rule: Rule, voice: string, rep: seq<Ordinal>)
    requires |voice| > 0
    requires rule.ImproperCadentialForm? ==> ChordNumber(|voice|, rep) >= 1
    ensures Count(rule, voice, rep) >= 0
  {
    match rule
    case NotTriadOrSeventhChord => NotTriadCountsNonChords(voice, rep);
    case ImproperResolution => LeadingToneResolutionIsCount(voice, rep, 0);
    case _ =>
  }

  /** `evaluate`: the unit penalty times the count. */
  function Evaluate(rule: Rule, voice: string, rep: seq<Ordinal>): (penalty: real)
    requires |voice| > 0
    requires rule.ImproperCadentialForm? ==> ChordNumber(|voice|, rep) >= 1
    ensures penalty >= 0.0
    ensures penalty > 0.0 <==> Count(rule, voice, rep) > 0
  {
    CountIsNonNegative(rule, voice, rep);
    UnitPenalty(rule) * Count(rule, voice, rep) as real
  }
}

/**
 * The pure side of an individual: its representation is a flat, chord-major
 * list of pitch ordinals, gene i sung by voice `voice[i % |voice|]`. This
 * module holds the register check, random construction, the melody and chord
 * projections, and the `series` / `progression` / figured-numeral views.
 */
module Genome {
  import opened Wrappers
  import opened Settings
  import opened Pitch

  // ---------------------------------------------------------------------------
  // Index arithmetic

  lemma SlotInBounds(n: nat, vCount: nat, c: nat, v: nat)
    requires vCount > 0 && c < n / vCount && v < vCount
    ensures c * vCount + v < n
  {
    assert (n / vCount) * vCount <= n;
    assert c + 1 <= n / vCount;
    assert (c + 1) * vCount <= (n / vCount) * vCount;
  }

  /** `getChordNumber` */
  function ChordNumber(vCount: nat, rep: seq<Ordinal>): nat
    requires vCount > 0
  {
    |rep| / vCount
  }

  /** `getMelody(v)`: the notes of voice v, one per chord. */
  function Melody(vCount: nat, rep: seq<Ordinal>, v: nat): (m: seq<Ordinal>)
    requires v < vCount
    ensures |m| == ChordNumber(vCount, rep)
    ensures forall c :: 0 <= c < |m| ==> (SlotInBounds(|rep|, vCount, c, v); m[c] == rep[c * vCount + v])
  {
    seq(|rep| / vCount, c requires 0 <= c < |rep| / vCount =>
      SlotInBounds(|rep|, vCount, c, v); rep[c * vCount + v])
  }

  /** `getChord(p)`: the notes of chord p, one per voice. */
  function Chord(vCount: nat, rep: seq<Ordinal>, p: nat): (ch: seq<Ordinal>)
    requires vCount > 0 && p < ChordNumber(vCount, rep)
    ensures |ch| == vCount
    ensures forall i :: 0 <= i < vCount ==> (SlotInBounds(|rep|, vCount, p, i); ch[i] == rep[p * vCount + i])
  {
    seq(vCount, i requires 0 <= i < vCount => SlotInBounds(|rep|, vCount, p, i); rep[p * vCount + i])
  }

  /** `getLastChord`: the final note of every voice's melody. */
  function LastChord(vCount: nat, rep: seq<Ordinal>): (ch: seq<Ordinal>)
    requires vCount > 0 && ChordNumber(vCount, rep) >= 1
    ensures |ch| == vCount
    ensures forall v :: 0 <= v < vCount ==> ch[v] == Melody(vCount, rep, v)[ChordNumber(vCount, rep) - 1]
  {
    Chord(vCount, rep, ChordNumber(vCount, rep) - 1)
  }

  /** The chord and melody projections cross at the same gene. */
  lemma ChordMeetsMelody(vCount: nat, rep: seq<Ordinal>, c: nat, v: nat)
    requires v < vCount && c < ChordNumber(vCount, rep)
    ensures Chord(vCount, rep, c)[v] == Melody(vCount, rep, v)[c]
  {
  }

  /** Every gene is the note of one voice in one chord. */
  lemma GeneIsMelodyNote(vCount: nat, rep: seq<Ordinal>, k: nat)
    requires vCount > 0 && k < ChordNumber(vCount, rep) * vCount
    ensures k / vCount < ChordNumber(vCount, rep)
    ensures Melody(vCount, rep, k % vCount)[k / vCount] == rep[k]
  {
    DivBelow(k, ChordNumber(vCount, rep), vCount);
    assert k == (k / vCount) * vCount + k % vCount;
  }

  // ---------------------------------------------------------------------------
  // Register check (`checkValidity`)

  /** What the check of gene i raises, if anything. */
  function GeneError(voice: string, rep: seq<int>, i: nat): (e: Option<Failure>)
    requires |voice| > 0 && i < |rep|
    ensures e.None? <==> IsInRegister(voice[i % |voice|], rep[i]) == Ok(true)
  {
    var lbl := voice[i % |voice|];
    match GetRegister(lbl)
    case Err(f) => Some(f)
    case Ok(register) =>
      if register.low <= rep[i] <= register.high then None
      // the message names Pitch.values()[p], which throws first for a p outside the table
      else if !(0 <= rep[i] < PITCH_COUNT) then Some(IndexOutOfBounds)
      else Some(InvalidRepresentation(lbl, rep[i], register.low, register.high))
  }

  /** Every gene lies in the register of its voice. */
  predicate IsValidGenome(voice: string, rep: seq<int>)
    requires |voice| > 0
  {
    forall i :: 0 <= i < |rep| ==> IsInRegister(voice[i % |voice|], rep[i]) == Ok(true)
  }

  lemma ValidGenomeIsInTable(voice: string, rep: seq<int>)
    requires |voice| > 0 && IsValidGenome(voice, rep)
    ensures forall i :: 0 <= i < |rep| ==> 0 <= rep[i] < PITCH_COUNT
  {
  }

  /**
   * `checkValidity`: scans the genes in order and stops at the first one
   * outside its voice's register.
   */
  method CheckValidity(voice: string, rep: seq<int>) returns (r: Result<seq<Ordinal>, Failure>)
    requires |voice| > 0
    ensures r.Ok? <==> IsValidGenome(voice, rep)
    ensures r.Ok? ==> r.value == rep
    ensures r.Err? ==> exists i :: 0 <= i < |rep| && GeneError(voice, rep, i) == Some(r.error)
                                   && forall j :: 0 <= j < i ==> GeneError(voice, rep, j).None?
  {
    var i := 0;
    while i < |rep|
      invariant 0 <= i <= |rep|
      invariant forall j :: 0 <= j < i ==> GeneError(voice, rep, j).None?
    {
      var e := GeneError(voice, rep, i);
      if e.Some? {
        assert !IsValidGenome(voice, rep) by {
          assert IsInRegister(voice[i % |voice|], rep[i]) != Ok(true);
        }
        return Err(e.value);
      }
      i := i + 1;
    }
    assert IsValidGenome(voice, rep) by {
      forall j | 0 <= j < |rep| ensures IsInRegister(voice[j % |voice|], rep[j]) == Ok(true) {
        assert GeneError(voice, rep, j).None?;
      }
    }
    ValidGenomeIsInTable(voice, rep);
    return Ok(rep);
  }

  /** The genes from index i on, drawn voice by voice (`getRandomChromosome`). */
  function RandomGenes(voice: string, draws: seq<nat>, i: nat): (r: Result<seq<Ordinal>, Failure>)
    requires |voice| > 0 && i <= |draws|
    requires forall k :: 0 <= k < |draws| && IsVoiceLabel(voice[k % |voice|]) ==> draws[k] < Width(voice[k % |voice|])
    decreases |draws| - i
    ensures r.Ok? <==> forall k :: i <= k < |draws| ==> IsVoiceLabel(voice[k % |voice|])
    ensures r.Ok? ==> |r.value| == |draws| - i
    ensures r.Ok? ==> forall k :: 0 <= k < |r.value| ==> IsInRegister(voice[(i + k) % |voice|], r.value[k]) == Ok(true)
  {
    if i == |draws| then Ok([])
    else
      var p :- GetNote(voice[i % |voice|], draws[i]);
      var rest :- RandomGenes(voice, draws, i + 1);
      Ok([p] + rest)
  }

  /**
   * `getRandomChromosome(n)`: n chords of one random in-register note per
   * voice; `draws[k]` is the draw for gene k. A label outside S/A/T/B throws.
   */
  function RandomChromosome(voice: string, n: nat, draws: seq<nat>): (r: Result<seq<Ordinal>, Failure>)
    requires |voice| > 0 && |draws| == n * |voice|
    requires forall k :: 0 <= k < |draws| && IsVoiceLabel(voice[k % |voice|]) ==> draws[k] < Width(voice[k % |voice|])
  {
    RandomGenes(voice, draws, 0)
  }

  lemma {:induction false} MulAtLeast(a: nat, d: nat)
    requires a >= 1
    ensures a * d >= d
  {
    if a > 1 {
      MulAtLeast(a - 1, d);
      assert a * d == (a - 1) * d + d;
    }
  }
  lemma MulMonotone(a: nat, b: nat, d: nat)
    requires a <= b
    ensures a * d <= b * d
  {
    if a < b {
      MulAtLeast(b - a, d);
      assert b * d == a * d + (b - a) * d;
    }
  }
  lemma DivBelow(k: nat, n: nat, d: nat)
    requires d > 0 && k < n * d
    ensures k / d < n
  {
    if k / d >= n {
      MulMonotone(n, k / d, d);
    }
  }
  lemma DivUnique(x: int, d: int, q: int, r: int)
    requires d > 0 && 0 <= r < d && x == q * d + r
    ensures x / d == q && x % d == r
  {
    var q0, r0 := x / d, x % d;
    assert x == q0 * d + r0;
    if q0 > q {
      assert (q0 - q) * d == q0 * d - q * d;
      MulAtLeast(q0 - q, d);
    } else if q0 < q {
      assert (q - q0) * d == q * d - q0 * d;
      MulAtLeast(q - q0, d);
    }
  }
  lemma ProductDividesBack(n: nat, vCount: nat)
    requires vCount > 0
    ensures (n * vCount) / vCount == n
    ensures n > 0 ==> n * vCount >= vCount
  {
    DivUnique(n * vCount, vCount, n, 0);
    if n > 0 { MulAtLeast(n, vCount); }
  }

  lemma RandomChromosomeIsValid(voice: string, n: nat, draws: seq<nat>)
    requires |voice| > 0 && |draws| == n * |voice|
    requires forall k :: 0 <= k < |draws| && IsVoiceLabel(voice[k % |voice|]) ==> draws[k] < Width(voice[k % |voice|])
    ensures RandomChromosome(voice, n, draws).Ok? <==> n == 0 || forall v :: 0 <= v < |voice| ==> IsVoiceLabel(voice[v])
    ensures RandomChromosome(voice, n, draws).Ok? ==>
              var g := RandomChromosome(voice, n, draws).value;
              |g| == n * |voice| && ChordNumber(|voice|, g) == n && IsValidGenome(voice, g)
  {
    ProductDividesBack(n, |voice|);
    if n > 0 {
      RandomGenesNeedLabels(voice, draws);
    }
    var r := RandomGenes(voice, draws, 0);
    if r.Ok? {
      assert forall k :: 0 <= k < |r.value| ==> (0 + k) % |voice| == k % |voice|;
    }
  }

  /** With at least one chord, the draws succeed exactly when every voice label is one of S, A, T, B. */
  lemma RandomGenesNeedLabels(voice: string, draws: seq<nat>)
    requires |voice| > 0 && |draws| >= |voice|
    requires forall k :: 0 <= k < |draws| && IsVoiceLabel(voice[k % |voice|]) ==> draws[k] < Width(voice[k % |voice|])
    ensures RandomGenes(voice, draws, 0).Ok? <==> forall v :: 0 <= v < |voice| ==> IsVoiceLabel(voice[v])
  {
    var vCount := |voice|;
    if forall v :: 0 <= v < vCount ==> IsVoiceLabel(voice[v]) {
      assert forall k :: 0 <= k < |draws| ==> IsVoiceLabel(voice[k % vCount]);
    } else {
      var v :| 0 <= v < vCount && !IsVoiceLabel(voice[v]);
      DivUnique(v, vCount, 0, v);
      assert !IsVoiceLabel(voice[v % vCount]);
    }
  }

  // ---------------------------------------------------------------------------
  // Series and progression

  /** One character of `series`: T/t root or inverted triad, S/s seventh, X neither. */
  function SlotSeries(c: seq<Ordinal>): char {
    if TriadChordTest(c) == 'X' then
      (if SeventhChordTest(c) == 'X' then 'X' else if IsRootPosition(c) then 'S' else 's')
    else if IsRootPosition(c) then 'T' else 't'
  }

  /** The series character of every chord, in order. */
  function SeriesBody(voice: string, rep: seq<Ordinal>): (body: seq<char>)
    requires |voice| > 0
    ensures |body| == ChordNumber(|voice|, rep)
  {
    seq(ChordNumber(|voice|, rep), i requires 0 <= i < ChordNumber(|voice|, rep) =>
      SlotSeries(Chord(|voice|, rep, i)))
  }

  /** `getSeries`, before it is memoised. */
  function Series(voice: string, rep: seq<Ordinal>): (s: string)
    requires |voice| > 0
    ensures |s| == ChordNumber(|voice|, rep) + 2
  {
    "[" + SeriesBody(voice, rep) + "]"
  }

  /** `replaceFirst("X", "")` */
  function RemoveFirstX(s: string): string {
    if |s| == 0 then s
    else if s[0] == 'X' then s[1..]
    else [s[0]] + RemoveFirstX(s[1..])
  }

  /** The text one chord contributes to `progression`. */
  function SlotProgression(c: seq<Ordinal>): string {
    RemoveFirstX([TriadChordTest(c), SeventhChordTest(c)])
  }

  /** `Collectors.joining()` */
  function Join(parts: seq<string>): string {
    if |parts| == 0 then "" else parts[0] + Join(parts[1..])
  }

  /** The progression text of every chord, in order. */
  function ProgressionParts(voice: string, rep: seq<Ordinal>): (parts: seq<string>)
    requires |voice| > 0
    ensures |parts| == ChordNumber(|voice|, rep)
  {
    seq(ChordNumber(|voice|, rep), i requires 0 <= i < ChordNumber(|voice|, rep) =>
      SlotProgression(Chord(|voice|, rep, i)))
  }

  /** `getProgression`, before it is memoised. */
  function Progression(voice: string, rep: seq<Ordinal>): string
    requires |voice| > 0
  {
    "[" + Join(ProgressionParts(voice, rep)) + "]"
  }

  /**
   * Each chord contributes exactly one character to `progression`: an 'X'
   * exactly when its series character is 'X', otherwise a root letter
   * (lower case for a seventh chord).
   */
  lemma RemoveFirstXOfPair(a: char, b: char)
    requires a == 'X' || b == 'X'
    ensures RemoveFirstX([a, b]) == if a == 'X' then [b] else [a]
  {
    if a != 'X' {
      assert [a, b][1..] == [b];
      assert RemoveFirstX([b]) == [];
    }
  }

  /** A lower-cased step letter is a lower-case step letter. */
  lemma LowerStep(ch: char)
    requires ch in STEPS
    ensures ToLower(ch) in "cdefgab"
  {
  }

  /** The symbols either chord test can produce. */
  lemma ChordTestSymbols(c: seq<Ordinal>)
    ensures TriadChordTest(c) in "CDEFGABX"
    ensures SeventhChordTest(c) in "cdefgabBX"
  {
    TriadAndSeventhExclusive(c);
    if !IsLeadingToneChord(c) && SeventhChordTest(c) != 'X' {
      LowerStep(Root(c));
    }
  }

  lemma SlotProgressionIsOneChar(c: seq<Ordinal>)
    ensures |SlotProgression(c)| == 1
    ensures SlotProgression(c)[0] == 'X' <==> SlotSeries(c) == 'X'
    ensures SlotProgression(c)[0] in "CDEFGABcdefgabX"
  {
    TriadAndSeventhExclusive(c);
    var t, s := TriadChordTest(c), SeventhChordTest(c);
    RemoveFirstXOfPair(t, s);
    ChordTestSymbols(c);
    assert SlotProgression(c) == RemoveFirstX([t, s]);
  }

  lemma {:induction false} JoinOfSingles(parts: seq<string>)
    requires forall i :: 0 <= i < |parts| ==> |parts[i]| == 1
    ensures |Join(parts)| == |parts|
    ensures forall i :: 0 <= i < |parts| ==> Join(parts)[i] == parts[i][0]
  {
    if |parts| > 0 {
      JoinOfSingles(parts[1..]);
    }
  }

  /** Bracketing shifts every position up by one. */
  lemma BracketedIndex(body: seq<char>, i: nat)
    requires i < |body|
    ensures |"[" + body + "]"| == |body| + 2 && ("[" + body + "]")[i + 1] == body[i]
  {
  }

  /** Bracketing two aligned bodies keeps them aligned, 'X' for 'X'. */
  lemma BracketedAlignment(body: seq<char>, marks: seq<char>)
    requires |body| == |marks|
    requires forall i :: 0 <= i < |body| ==> (body[i] == 'X' <==> marks[i] == 'X')
    ensures 'X' in "[" + body + "]" <==> 'X' in "[" + marks + "]"
  {
    var p, s := "[" + body + "]", "[" + marks + "]";
    if 'X' in p {
      var k :| 0 <= k < |p| && p[k] == 'X';
      assert body[k - 1] == 'X';
      assert s[k] == marks[k - 1];
    }
    if 'X' in s {
      var k :| 0 <= k < |s| && s[k] == 'X';
      assert marks[k - 1] == 'X';
      assert p[k] == body[k - 1];
    }
  }

  /**
   * `progression` is bracketed and has one character per chord, so position
   * i + 1 belongs to chord i, and it holds 'X' exactly where `series` does.
   */
  lemma ProgressionMatchesSeries(voice: string, rep: seq<Ordinal>)
    requires |voice| > 0
    ensures |Progression(voice, rep)| == ChordNumber(|voice|, rep) + 2
    ensures Progression(voice, rep)[0] == '[' && Progression(voice, rep)[|Progression(voice, rep)| - 1] == ']'
    ensures forall i :: 0 <= i < ChordNumber(|voice|, rep) ==>
              Progression(voice, rep)[i + 1] == SlotProgression(Chord(|voice|, rep, i))[0]
              && (Progression(voice, rep)[i + 1] == 'X' <==> Series(voice, rep)[i + 1] == 'X')
  {
    var parts, marks := SlotParts(voice, rep);
    BracketedParts(parts, marks);
  }

  /** `progression` holds an X exactly when `series` does. */
  lemma ProgressionFlagsNonChords(voice: string, rep: seq<Ordinal>)
    requires |voice| > 0
    ensures 'X' in Progression(voice, rep) <==> 'X' in Series(voice, rep)
  {
    var parts, marks := SlotParts(voice, rep);
    JoinOfSingles(parts);
    BracketedAlignment(Join(parts), marks);
  }

  /** The progression parts and series marks of a genome, one character each, X for X. */
  lemma SlotParts(voice: string, rep: seq<Ordinal>) returns (parts: seq<string>, marks: seq<char>)
    requires |voice| > 0
    ensures parts == ProgressionParts(voice, rep) && marks == SeriesBody(voice, rep)
    ensures Progression(voice, rep) == "[" + Join(parts) + "]" && Series(voice, rep) == "[" + marks + "]"
    ensures |parts| == |marks| == ChordNumber(|voice|, rep)
    ensures forall i :: 0 <= i < |parts| ==>
              parts[i] == SlotProgression(Chord(|voice|, rep, i))
              && |parts[i]| == 1 && (parts[i][0] == 'X' <==> marks[i] == 'X')
  {
    parts, marks := ProgressionParts(voice, rep), SeriesBody(voice, rep);
    forall i | 0 <= i < |parts|
      ensures |parts[i]| == 1 && (parts[i][0] == 'X' <==> marks[i] == 'X')
    {
      SlotProgressionIsOneChar(Chord(|voice|, rep, i));
    }
  }

  /** Bracketing one-character parts and their series marks keeps them aligned, X for X. */
  lemma BracketedParts(parts: seq<string>, marks: seq<char>)
    requires |parts| == |marks|
    requires forall i :: 0 <= i < |parts| ==> |parts[i]| == 1 && (parts[i][0] == 'X' <==> marks[i] == 'X')
    ensures |"[" + Join(parts) + "]"| == |parts| + 2
    ensures forall i :: 0 <= i < |parts| ==>
              ("[" + Join(parts) + "]")[i + 1] == parts[i][0]
              && (("[" + Join(parts) + "]")[i + 1] == 'X' <==> ("[" + marks + "]")[i + 1] == 'X')
  {
    JoinOfSingles(parts);
    var body := Join(parts);
    forall i | 0 <= i < |parts|
      ensures ("[" + body + "]")[i + 1] == parts[i][0] && (("[" + body + "]")[i + 1] == 'X' <==> ("[" + marks + "]")[i + 1] == 'X')
    {
      BracketedIndex(body, i);
      BracketedIndex(marks, i);
    }
  }

  /** The numbers of a chord from 7 down to 2, as `sorted(reverseOrder())` lists them. */
  function DescendingFrom(numbers: set<int>, k: int): (r: seq<int>)
    decreases k
    ensures forall i :: 0 <= i < |r| ==> 2 <= r[i] <= k
    ensures forall i, j :: 0 <= i < j < |r| ==> r[i] > r[j]
    ensures forall x :: x in r <==> x in numbers && 2 <= x <= k
  {
    if k < 2 then []
    else
      var rest := DescendingFrom(numbers, k - 1);
      if k in numbers then [k] + rest else rest
  }

  /** `getFiguredNumerals`, before it is memoised: each chord's numbers, highest first. */
  function FiguredNumerals(voice: string, rep: seq<Ordinal>): (r: seq<seq<int>>)
    requires |voice| > 0
    ensures |r| == ChordNumber(|voice|, rep)
  {
    seq(ChordNumber(|voice|, rep), i requires 0 <= i < ChordNumber(|voice|, rep) =>
      DescendingFrom(Numbers(Chord(|voice|, rep, i)), 7))
  }

  lemma FiguredNumeralsListNumbers(voice: string, rep: seq<Ordinal>, i: nat)
    requires |voice| > 0 && i < ChordNumber(|voice|, rep)
    ensures var l := FiguredNumerals(voice, rep)[i];
            (forall a, b :: 0 <= a < b < |l| ==> l[a] > l[b])
            && (forall x :: x in l <==> x in Numbers(Chord(|voice|, rep, i)))
  {
    NumbersRange(Chord(|voice|, rep, i));
  }

  // ---------------------------------------------------------------------------
  // Text figure

  function ToUpper(ch: char): char {
    if 'a' <= ch <= 'z' then (ch as int - 32) as char else ch
  }

  function UpperString(s: string): (r: string)
    ensures |r| == |s|
  {
    seq(|s|, i requires 0 <= i < |s| => ToUpper(s[i]))
  }

  /** The inversion suffix chosen from a chord's numbers. */
  function InversionSuffix(numbers: set<int>): string {
    if 7 in numbers then "_7"
    else if 6 in numbers && 5 in numbers then "_6/5"
    else if 4 in numbers && 3 in numbers then "_4/3"
    else if 2 in numbers then "_4/2"
    else if 6 in numbers && 4 in numbers then "_6/4"
    else if 6 in numbers && 3 in numbers then "_6"
    else ""
  }

  /** Every progression symbol, upper-cased, is a key of the numeral table. */
  lemma NumeralOfSymbol(symbol: char)
    requires symbol in "CDEFGABcdefgabX"
    ensures ToUpper(symbol) in ROMAN_NUMERAL
    ensures |ROMAN_NUMERAL[ToUpper(symbol)]| > 0
    ensures ROMAN_NUMERAL[ToUpper(symbol)] == "-" <==> symbol == 'X'
    ensures symbol != 'X' ==> ROMAN_NUMERAL[ToUpper(symbol)][0] in "IiVv"
  {
    RomanNumeralDomain();
  }

  /** Position i + 1 of `progression` is the symbol of chord i. */
  lemma ProgressionSymbol(voice: string, rep: seq<Ordinal>, i: nat)
    requires |voice| > 0 && i < ChordNumber(|voice|, rep)
    ensures i + 1 < |Progression(voice, rep)|
    ensures Progression(voice, rep)[i + 1] in "CDEFGABcdefgabX"
    ensures Progression(voice, rep)[i + 1] == 'X' <==> Series(voice, rep)[i + 1] == 'X'
  {
    ProgressionMatchesSeries(voice, rep);
    SlotProgressionIsOneChar(Chord(|voice|, rep, i));
  }

  /** `getTextFigure(i)`: the Roman numeral of chord i with its inversion, "-" for a non-chord. */
  function TextFigure(voice: string, rep: seq<Ordinal>, i: nat): (r: string)
    requires |voice| > 0 && i < ChordNumber(|voice|, rep)
  {
    ProgressionSymbol(voice, rep, i);
    var symbol := Progression(voice, rep)[i + 1];
    NumeralOfSymbol(symbol);
    var roman := ROMAN_NUMERAL[ToUpper(symbol)];
    if roman == "-" then "-"
    else UpperString(roman) + InversionSuffix(set x | x in FiguredNumerals(voice, rep)[i])
  }

  /** The text figure is "-" exactly for the chords the series marks 'X'. */
  lemma TextFigureMarksNonChords(voice: string, rep: seq<Ordinal>, i: nat)
    requires |voice| > 0 && i < ChordNumber(|voice|, rep)
    ensures TextFigure(voice, rep, i) == "-" <==> Series(voice, rep)[i + 1] == 'X'
  {
    ProgressionSymbol(voice, rep, i);
    var symbol := Progression(voice, rep)[i + 1];
    NumeralOfSymbol(symbol);
    var roman := ROMAN_NUMERAL[ToUpper(symbol)];
    if symbol != 'X' {
      assert UpperString(roman)[0] == ToUpper(roman[0]);
    }
  }
}

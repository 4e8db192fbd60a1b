/**
 * The tonal pitch model: the 28 diatonic pitches C2 .. B5 as ordinals, the
 * voice registers, consonance, figured-bass numbers and the classification of
 * a chord (given voice by voice as ordinals) as a triad or a seventh chord.
 */
module Pitch {
  import opened Wrappers
  import opened Settings

  const PITCH_COUNT: int := 28

  /** A pitch, given by its position in the enumeration C2, D2, ..., B5. */
  type Ordinal = o: int | 0 <= o < 28

  /** The step letters in scale order; the letter of ordinal o is STEPS[o % 7]. */
  const STEPS: string := "CDEFGAB"

  /** The names of the enumeration constants, in declaration order. */
  const NAMES: seq<string> := [
    "C2", "D2", "E2", "F2", "G2", "A2", "B2",
    "C3", "D3", "E3", "F3", "G3", "A3", "B3",
    "C4", "D4", "E4", "F4", "G4", "A4", "B4",
    "C5", "D5", "E5", "F5", "G5", "A5", "B5"
  ]

  function Name(o: Ordinal): string {
    NAMES[o]
  }

  /** `getStep`: the first character of the constant's name, as a string. */
  function GetStep(o: Ordinal): string
    requires |Name(o)| >= 1
  {
    Name(o)[0..1]
  }

  /** `getOctave`: the second character of the constant's name, read as a digit. */
  function GetOctave(o: Ordinal): int
    requires |Name(o)| >= 2
  {
    Name(o)[1] as int - '0' as int
  }

  /** The step letter of a pitch as a character. */
  function Step(o: Ordinal): char {
    STEPS[o % 7]
  }

  lemma NamesSpellStepAndOctave(o: Ordinal)
    ensures |Name(o)| == 2
    ensures GetStep(o) == [Step(o)] && GetOctave(o) == 2 + o / 7
  {
    if o < 7 { assert o / 7 == 0 && o % 7 == o; }
    else if o < 14 { assert o / 7 == 1 && o % 7 == o - 7; }
    else if o < 21 { assert o / 7 == 2 && o % 7 == o - 14; }
    else { assert o / 7 == 3 && o % 7 == o - 21; }
  }

  // ---------------------------------------------------------------------------
  // Registers

  predicate IsVoiceLabel(v: char) {
    v == 'S' || v == 'A' || v == 'T' || v == 'B'
  }

  /** `getRegister`: the register of a voice label; any other label throws. */
  function GetRegister(v: char): (r: Result<Range, Failure>)
    ensures r.Ok? <==> IsVoiceLabel(v)
    ensures r.Ok? ==> 0 <= r.value.low < r.value.high < PITCH_COUNT
  {
    match v
    case 'S' => Ok(SOPRANO)
    case 'A' => Ok(ALTO)
    case 'T' => Ok(TENOR)
    case 'B' => Ok(BASS)
    case _ => Err(UnexpectedVoiceLabel)
  }

  /** The register of a voice label known to be valid. */
  function RegisterOf(v: char): (r: Range)
    requires IsVoiceLabel(v)
    ensures GetRegister(v) == Ok(r)
  {
    GetRegister(v).value
  }

  /** `isInRegister`: whether p lies in the register of v. */
  function IsInRegister(v: char, p: int): (r: Result<bool, Failure>)
    ensures r.Ok? <==> IsVoiceLabel(v)
    ensures r.Ok? ==> (r.value <==> RegisterOf(v).low <= p <= RegisterOf(v).high)
  {
    var register :- GetRegister(v);
    Ok(p >= register.low && p <= register.high)
  }

  /** The number of pitches in the register of a valid label. */
  function Width(v: char): nat
    requires IsVoiceLabel(v)
  {
    RegisterOf(v).high - RegisterOf(v).low + 1
  }

  /**
   * `getNote`: a pitch of the register drawn uniformly; `draw` stands for the
   * generator's `nextInt(width)` and lies in [0, width).
   */
  function GetNote(v: char, draw: nat): (r: Result<Ordinal, Failure>)
    requires IsVoiceLabel(v) ==> draw < Width(v)
    ensures r.Ok? <==> IsVoiceLabel(v)
    ensures r.Ok? ==> IsInRegister(v, r.value) == Ok(true)
  {
    var register :- GetRegister(v);
    Ok(draw + register.low)
  }

  /** Every pitch of the register is some draw's outcome, and only that draw's. */
  lemma GetNoteCoversRegister(v: char, p: int)
    requires IsInRegister(v, p) == Ok(true)
    ensures exists draw: nat :: draw < Width(v) && GetNote(v, draw) == Ok(p)
    ensures forall draw: nat :: draw < Width(v) && GetNote(v, draw) == Ok(p) ==> draw == p - RegisterOf(v).low
  {
    var draw: nat := p - RegisterOf(v).low;
    assert GetNote(v, draw) == Ok(p);
  }

  // ---------------------------------------------------------------------------
  // Chords

  /** `getPitchSet`: the step letters present in a chord. */
  function PitchSet(c: seq<Ordinal>): set<char> {
    set i | 0 <= i < |c| :: Step(c[i])
  }

  /** `getBottom`: the lowest note of a chord. */
  function Bottom(c: seq<Ordinal>): (r: Ordinal)
    requires |c| > 0
    ensures r in c && forall i :: 0 <= i < |c| ==> r <= c[i]
  {
    if |c| == 1 then c[0]
    else
      var rest := Bottom(c[1..]);
      if c[0] <= rest then c[0] else rest
  }

  /** `getTop`: the highest note of a chord. */
  function Top(c: seq<Ordinal>): (r: Ordinal)
    requires |c| > 0
    ensures r in c && forall i :: 0 <= i < |c| ==> c[i] <= r
  {
    if |c| == 1 then c[0]
    else
      var rest := Top(c[1..]);
      if c[0] >= rest then c[0] else rest
  }

  /** The figured-bass number of o above the bass b (1 is the unison or octave). */
  function Figure(o: int, b: int): int {
    (o - b) % 7 + 1
  }

  /** `getNumbers`: figured-bass numbers above the lowest note, unisons dropped. */
  function Numbers(c: seq<Ordinal>): set<int> {
    if |c| == 0 then {}
    else
      var b := Bottom(c);
      set i | 0 <= i < |c| && Figure(c[i], b) > 1 :: Figure(c[i], b)
  }

  lemma NumbersRange(c: seq<Ordinal>)
    ensures Numbers(c) <= {2, 3, 4, 5, 6, 7}
  {
  }

  /** The numbers depend only on which notes sound, not on the voice order. */
  lemma NumbersIgnoreVoiceOrder(c1: seq<Ordinal>, c2: seq<Ordinal>)
    requires multiset(c1) == multiset(c2)
    ensures Numbers(c1) == Numbers(c2)
    ensures |c1| == |c2|
    ensures |c1| > 0 ==> Bottom(c1) == Bottom(c2)
  {
    assert |c1| == |multiset(c1)| == |c2|;
    if |c1| > 0 {
      forall x ensures x in c1 <==> x in c2 {
        assert x in c1 <==> x in multiset(c1);
        assert x in c2 <==> x in multiset(c2);
      }
      var b1, b2 := Bottom(c1), Bottom(c2);
      assert b1 in c2 && b2 in c1;
      assert b1 == b2;
      forall n | n in Numbers(c1) ensures n in Numbers(c2) {
        var i :| 0 <= i < |c1| && Figure(c1[i], b1) > 1 && n == Figure(c1[i], b1);
        assert c1[i] in c2;
        var j :| 0 <= j < |c2| && c2[j] == c1[i];
      }
      forall n | n in Numbers(c2) ensures n in Numbers(c1) {
        var j :| 0 <= j < |c2| && Figure(c2[j], b2) > 1 && n == Figure(c2[j], b2);
        assert c2[j] in c1;
        var i :| 0 <= i < |c1| && c1[i] == c2[j];
      }
    }
  }

  predicate IsTriadShape(n: set<int>) {
    n == {5, 3} || n == {3} || n == {6, 3} || n == {6, 4}
  }

  predicate IsSeventhShape(n: set<int>) {
    n == {7, 5, 3} || n == {7, 3} || n == {6, 5, 3} || n == {6, 5}
    || n == {6, 4, 3} || n == {6, 4, 2} || n == {4, 2}
  }

  /** The diminished triad on the leading tone, by its letters. */
  predicate IsLeadingToneChord(c: seq<Ordinal>) {
    PitchSet(c) == {'B', 'D', 'F'}
  }

  function ToLower(ch: char): char {
    if 'A' <= ch <= 'Z' then (ch as int + 32) as char else ch
  }

  /** `startsWith` on strings. */
  predicate StartsWith(s: string, prefix: string) {
    |prefix| <= |s| && s[..|prefix|] == prefix
  }

  /** The first spelling of SEVENTHS from index k on that starts with `letter`. */
  function SeventhStartingWith(letter: char, k: nat): Option<string>
    decreases |SEVENTHS| - k
  {
    if k >= |SEVENTHS| then None
    else if StartsWith(SEVENTHS[k], [letter]) then Some(SEVENTHS[k])
    else SeventhStartingWith(letter, k + 1)
  }

  /** The search finds the first spelling, at or after k, whose first letter matches. */
  lemma {:induction false} SeventhSearchFinds(letter: char, k: nat, m: nat)
    requires k <= m < |SEVENTHS| && SEVENTHS[m][0] == letter
    requires forall j :: k <= j < m ==> SEVENTHS[j][0] != letter
    ensures SeventhStartingWith(letter, k) == Some(SEVENTHS[m])
    decreases m - k
  {
    if k < m {
      assert !StartsWith(SEVENTHS[k], [letter]);
      SeventhSearchFinds(letter, k + 1, m);
    } else {
      assert SEVENTHS[k][..1] == [letter];
    }
  }

  /** The spelling at index k is the only one that starts on step letter k. */
  lemma SpellingOnStep(k: nat)
    requires k < 7
    ensures SeventhStartingWith(STEPS[k], 0) == Some(SEVENTHS[k])
  {
    assert forall j :: 0 <= j < 7 ==> SEVENTHS[j][0] == STEPS[j];
    SeventhSearchFinds(STEPS[k], 0, k);
  }

  /** The spelling of SEVENTHS found for a step letter is the one at its index. */
  lemma SeventhOfStep(o: Ordinal)
    ensures SeventhStartingWith(Step(o), 0) == Some(SEVENTHS[o % 7])
  {
    SpellingOnStep(o % 7);
  }

  /** The spelling of SEVENTHS used for a chord note. */
  function SeventhOn(o: Ordinal): (s: string)
    ensures s == SEVENTHS[o % 7]
  {
    SeventhOfStep(o);
    SeventhStartingWith(Step(o), 0).value
  }

  /** Whether every letter of the chord occurs in the spelling s. */
  predicate Covers(s: string, c: seq<Ordinal>) {
    forall j :: 0 <= j < |c| ==> Step(c[j]) in s
  }

  /** The search of `getRoot`, from voice i on. */
  function RootFrom(c: seq<Ordinal>, i: nat): char
    decreases |c| - i
  {
    if i >= |c| then 'X'
    else
      var spelling := SeventhOn(c[i]);
      if Covers(spelling, c) then spelling[0] else RootFrom(c, i + 1)
  }

  /** `getRoot`: first letter of the first spelling, tried voice by voice, that holds every letter. */
  function Root(c: seq<Ordinal>): char {
    RootFrom(c, 0)
  }

  /** `triadChordTest` */
  function TriadChordTest(c: seq<Ordinal>): char {
    if IsLeadingToneChord(c) then 'X'
    else if !IsTriadShape(Numbers(c)) then 'X'
    else Root(c)
  }

  /** `seventhChordTest` */
  function SeventhChordTest(c: seq<Ordinal>): char {
    if IsLeadingToneChord(c) then 'B'
    else if !IsSeventhShape(Numbers(c)) then 'X'
    else ToLower(Root(c))
  }

  /** `isRootPosition` */
  predicate IsRootPosition(c: seq<Ordinal>) {
    var numbers := Numbers(c);
    if IsLeadingToneChord(c) then numbers == {6, 3}
    else 3 in numbers && numbers <= {7, 5, 3}
  }

  /** `isConsonantInterval` */
  predicate IsConsonantInterval(o1: Ordinal, o2: Ordinal, fourthCons: bool) {
    var d := if o1 >= o2 then o1 - o2 else o2 - o1;
    PitchSet([o1, o2]) != {'F', 'B'}
    && (d % 7 in {0, 2, 4, 5} || (fourthCons && d % 7 == 3))
  }

  /** The indices, from i on, of the voices whose letter is `letter`, in increasing order. */
  function VoicesWithLetter(c: seq<Ordinal>, letter: char, i: nat): (r: seq<nat>)
    requires i <= |c|
    decreases |c| - i
    ensures forall k :: 0 <= k < |r| ==> i <= r[k] < |c| && Step(c[r[k]]) == letter
    ensures forall k, l :: 0 <= k < l < |r| ==> r[k] < r[l]
    ensures forall j :: i <= j < |c| && Step(c[j]) == letter ==> j in r
  {
    if i == |c| then []
    else
      var rest := VoicesWithLetter(c, letter, i + 1);
      if Step(c[i]) == letter then
        var r := [i] + rest;
        assert forall k :: 1 <= k < |r| ==> r[k] == rest[k - 1];
        r
      else rest
  }

  /**
   * `locateSeventhNote`: the voices holding the chord's seventh, F for the
   * leading-tone triad; None where the Java code throws because no spelling
   * starts with the root (the root is 'X').
   */
  function LocateSeventhNote(c: seq<Ordinal>): (r: Option<seq<nat>>)
    ensures r.None? <==> !IsLeadingToneChord(c) && SeventhStartingWith(Root(c), 0).None?
    ensures r.Some? ==> forall k, l :: 0 <= k < l < |r.value| ==> r.value[k] < r.value[l]
    ensures r.Some? ==> forall k :: 0 <= k < |r.value| ==> r.value[k] < |c|
  {
    var root := Root(c);
    if IsLeadingToneChord(c) then Some(VoicesWithLetter(c, 'F', 0))
    else
      match SeventhStartingWith(root, 0)
      case None => None
      case Some(spelling) =>
        if |spelling| < 4 then None else Some(VoicesWithLetter(c, spelling[3], 0))
  }

  // ---------------------------------------------------------------------------
  // Properties of the chord classification

  /** Each spelling starts on a distinct letter and stacks thirds from it. */
  lemma SeventhsStackThirds(k: nat)
    requires k < 7
    ensures |SEVENTHS| == 7 && |SEVENTHS[k]| == 4
    ensures forall j :: 0 <= j < 4 ==> SEVENTHS[k][j] == STEPS[(k + 2 * j) % 7]
  {
  }

  /** A letter belongs to the spelling on letter k iff it lies an even number of steps above k. */
  lemma LetterInSpelling(k: nat, x: nat)
    requires k < 7 && x < 7
    ensures STEPS[x] in SEVENTHS[k] <==> (x - k) % 7 in {0, 2, 4, 6}
  {
    var d := x - k;
    assert d % 7 == if d < 0 then d + 7 else d;
    if k == 0 { assert SEVENTHS[k] == "CEGB"; }
    else if k == 1 { assert SEVENTHS[k] == "DFAC"; }
    else if k == 2 { assert SEVENTHS[k] == "EGBD"; }
    else if k == 3 { assert SEVENTHS[k] == "FACE"; }
    else if k == 4 { assert SEVENTHS[k] == "GBDF"; }
    else if k == 5 { assert SEVENTHS[k] == "ACEG"; }
    else { assert SEVENTHS[k] == "BDFA"; }
  }

  lemma ModDifference(x: int, y: int)
    ensures (x % 7 - y % 7) % 7 == (x - y) % 7
  {
    var qx, qy := x / 7, y / 7;
    assert x == 7 * qx + x % 7 && y == 7 * qy + y % 7;
    assert x - y == 7 * (qx - qy) + (x % 7 - y % 7);
  }

  /** The offset above the bass of the root implied by a triad or seventh shape. */
  function RootOffset(n: set<int>): int {
    if n == {6, 3} || n == {6, 5, 3} || n == {6, 5} then 5
    else if n == {6, 4} || n == {6, 4, 3} then 3
    else if n == {6, 4, 2} || n == {4, 2} then 1
    else 0
  }

  lemma RootOffsetFits(n: set<int>)
    requires IsTriadShape(n) || IsSeventhShape(n)
    ensures RootOffset(n) == 0 || RootOffset(n) + 1 in n
    ensures forall f :: f in n || f == 1 ==> (f - 1 - RootOffset(n)) % 7 in {0, 2, 4, 6}
  {
  }

  /** Two letters each found in the other's spelling of SEVENTHS are the same letter. */
  lemma MutualSpelling(x: nat, k: nat)
    requires x < 7 && k < 7
    requires STEPS[x] in SEVENTHS[k] && STEPS[k] in SEVENTHS[x]
    ensures x == k
  {
    LetterInSpelling(k, x);
    LetterInSpelling(x, k);
    assert (x - k) % 7 == if x >= k then x - k else x - k + 7;
    assert (k - x) % 7 == if k >= x then k - x else k - x + 7;
  }

  /**
   * When the spelling on voice r holds every letter of the chord, the search
   * of `getRoot` from any voice up to r yields the letter of voice r: a
   * spelling found earlier holds that letter too, and so starts on it.
   */
  lemma {:induction false} RootFromSpells(c: seq<Ordinal>, i: nat, r: nat)
    requires i <= r < |c| && Covers(SeventhOn(c[r]), c)
    ensures RootFrom(c, i) == Step(c[r])
    decreases r - i
  {
    SeventhsStackThirds(c[i] % 7);
    if Covers(SeventhOn(c[i]), c) {
      assert Step(c[r]) in SeventhOn(c[i]) && Step(c[i]) in SeventhOn(c[r]);
      MutualSpelling(c[r] % 7, c[i] % 7);
    } else {
      RootFromSpells(c, i + 1, r);
    }
  }

  /** `getRoot` yields a step letter or 'X'. */
  lemma {:induction false} RootFromIsLetterOrX(c: seq<Ordinal>, i: nat)
    ensures RootFrom(c, i) in STEPS || RootFrom(c, i) == 'X'
    decreases |c| - i
  {
    if i < |c| {
      SeventhsStackThirds(c[i] % 7);
      RootFromIsLetterOrX(c, i + 1);
    }
  }

  /** A note o at offset d above the bass b spells every note whose offset differs from d by thirds. */
  lemma SpelledFromOffset(oj: Ordinal, o: Ordinal, b: Ordinal, d: int)
    requires oj >= b && o >= b && (o - b) % 7 == d
    requires ((oj - b) % 7 - d) % 7 in {0, 2, 4, 6}
    ensures Step(oj) in SeventhOn(o)
  {
    ModDifference(oj - b, o - b);
    ModDifference(oj, o);
    assert (oj - b) - (o - b) == oj - o;
    assert ((oj - b) % 7 - d) % 7 == (oj % 7 - o % 7) % 7;
    LetterInSpelling(o % 7, oj % 7);
  }

  /** Some note of the chord lies at the root offset of its shape. */
  lemma RootNoteExists(c: seq<Ordinal>) returns (r: nat)
    requires IsTriadShape(Numbers(c)) || IsSeventhShape(Numbers(c))
    ensures |c| > 0 && r < |c| && Figure(c[r], Bottom(c)) - 1 == RootOffset(Numbers(c))
  {
    var b := Bottom(c);
    RootOffsetFits(Numbers(c));
    if RootOffset(Numbers(c)) == 0 {
      r :| 0 <= r < |c| && c[r] == b;
    } else {
      r :| 0 <= r < |c| && Figure(c[r], b) > 1 && Figure(c[r], b) == RootOffset(Numbers(c)) + 1;
    }
  }

  /**
   * A triad or seventh shape has its root among the chord's notes: the voice
   * at the root offset of the shape, whose letter `getRoot` returns.
   */
  lemma RootNote(c: seq<Ordinal>) returns (r: nat)
    requires IsTriadShape(Numbers(c)) || IsSeventhShape(Numbers(c))
    ensures r < |c| && Root(c) == Step(c[r])
    ensures c[r] >= Bottom(c) && (c[r] - Bottom(c)) % 7 == RootOffset(Numbers(c))
  {
    r := RootNoteExists(c);
    var b, n := Bottom(c), Numbers(c);
    forall j | 0 <= j < |c| ensures Step(c[j]) in SeventhOn(c[r]) {
      FigureOfVoice(c, j);
      VoiceSpelledFromRoot(c[j], c[r], b, n);
    }
    RootFromSpells(c, 0, r);
    FigureOfVoice(c, r);
  }

  /** Every triad or seventh shape has a step letter as its root. */
  lemma ShapeHasRoot(c: seq<Ordinal>)
    requires IsTriadShape(Numbers(c)) || IsSeventhShape(Numbers(c))
    ensures Root(c) in STEPS
  {
    var r := RootNote(c);
  }

  /**
   * Apart from the leading-tone triad, a triad or seventh chord is in root
   * position exactly when its lowest note carries the root letter.
   */
  lemma RootPositionMeansRootInBass(c: seq<Ordinal>)
    requires !IsLeadingToneChord(c)
    requires IsTriadShape(Numbers(c)) || IsSeventhShape(Numbers(c))
    ensures IsRootPosition(c) <==> Root(c) == Step(Bottom(c))
  {
    var r := RootNote(c);
    var o, b, n := c[r], Bottom(c), Numbers(c);
    RootPositionTest(c);
    RootOnBass(o, b, n);
  }

  /** Outside the leading-tone triad, `isRootPosition` is a test on the figured-bass numbers alone. */
  lemma RootPositionTest(c: seq<Ordinal>)
    requires !IsLeadingToneChord(c)
    ensures IsRootPosition(c) <==> 3 in Numbers(c) && Numbers(c) <= {7, 5, 3}
  {
  }

  /** A root note at the root offset of its shape shares the bass letter exactly for the root-position shapes. */
  lemma RootOnBass(o: Ordinal, b: Ordinal, n: set<int>)
    requires IsTriadShape(n) || IsSeventhShape(n)
    requires o >= b && (o - b) % 7 == RootOffset(n)
    ensures (3 in n && n <= {7, 5, 3}) <==> Step(o) == Step(b)
  {
    SameStep(o, b);
    RootOffsetZero(n);
  }

  /** Two notes, the first not below the second, share a letter exactly when they lie whole octaves apart. */
  lemma SameStep(o: Ordinal, b: Ordinal)
    requires o >= b
    ensures Step(o) == Step(b) <==> (o - b) % 7 == 0
  {
    ModDifference(o, b);
    assert forall x, y :: 0 <= x < 7 && 0 <= y < 7 && STEPS[x] == STEPS[y] ==> x == y;
    assert (o % 7 - b % 7) % 7 == if o % 7 >= b % 7 then o % 7 - b % 7 else o % 7 - b % 7 + 7;
  }

  /** The shapes whose root lies on the bass are the ones `isRootPosition` accepts. */
  lemma RootOffsetZero(n: set<int>)
    requires IsTriadShape(n) || IsSeventhShape(n)
    ensures RootOffset(n) == 0 <==> 3 in n && n <= {7, 5, 3}
  {
  }

  /** The spelling on the root note of a triad or seventh shape covers each of its voices. */
  lemma VoiceSpelledFromRoot(oj: Ordinal, o: Ordinal, b: Ordinal, n: set<int>)
    requires IsTriadShape(n) || IsSeventhShape(n)
    requires oj >= b && o >= b && Figure(o, b) - 1 == RootOffset(n)
    requires Figure(oj, b) in n || Figure(oj, b) == 1
    ensures Step(oj) in SeventhOn(o)
  {
    OffsetInThirds(n, Figure(oj, b));
    SpelledFromOffset(oj, o, b, RootOffset(n));
  }

  /** Every voice of a chord is its bass or lies at one of its figured-bass numbers. */
  lemma FigureOfVoice(c: seq<Ordinal>, j: nat)
    requires j < |c|
    ensures c[j] >= Bottom(c)
    ensures Figure(c[j], Bottom(c)) in Numbers(c) || Figure(c[j], Bottom(c)) == 1
  {
  }

  /** A figure of a triad or seventh shape lies an even number of steps above its root offset. */
  lemma OffsetInThirds(n: set<int>, f: int)
    requires IsTriadShape(n) || IsSeventhShape(n)
    requires f in n || f == 1
    ensures (f - 1 - RootOffset(n)) % 7 in {0, 2, 4, 6}
  {
    RootOffsetFits(n);
  }

  lemma PitchSetOfPair(o1: Ordinal, o2: Ordinal)
    ensures PitchSet([o1, o2]) == {Step(o1), Step(o2)}
  {
    var s := [o1, o2];
    assert Step(s[0]) in PitchSet(s) && Step(s[1]) in PitchSet(s);
  }

  /** No chord is both a triad and a seventh chord. */
  lemma TriadAndSeventhExclusive(c: seq<Ordinal>)
    ensures TriadChordTest(c) == 'X' || SeventhChordTest(c) == 'X'
    ensures IsLeadingToneChord(c) ==> TriadChordTest(c) == 'X' && SeventhChordTest(c) == 'B'
    ensures !IsLeadingToneChord(c) && SeventhChordTest(c) != 'X' ==> SeventhChordTest(c) == ToLower(Root(c)) && Root(c) in STEPS
    ensures TriadChordTest(c) != 'X' ==> TriadChordTest(c) in STEPS
  {
    if !IsLeadingToneChord(c) && IsSeventhShape(Numbers(c)) {
      ShapeHasRoot(c);
      assert Root(c) in STEPS;
      assert ToLower(Root(c)) != 'X';
    }
    RootFromIsLetterOrX(c, 0);
  }

  /** Whenever the seventh test passes, the seventh can be located. */
  lemma SeventhIsLocatable(c: seq<Ordinal>)
    requires SeventhChordTest(c) != 'X'
    ensures LocateSeventhNote(c).Some?
  {
    if !IsLeadingToneChord(c) {
      ShapeHasRoot(c);
      var k :| 0 <= k < 7 && STEPS[k] == Root(c);
      SeventhsStackThirds(k);
      SpellingOnStep(k);
    }
  }

  /**
   * `locateSeventhNote` marks exactly the voices on the fourth letter of the
   * root's spelling (F for the leading-tone triad).
   */
  lemma LocateSeventhNoteFinds(c: seq<Ordinal>, j: nat)
    requires LocateSeventhNote(c).Some? && j < |c|
    ensures j in LocateSeventhNote(c).value <==>
              Step(c[j]) == (if IsLeadingToneChord(c) then 'F' else SeventhStartingWith(Root(c), 0).value[3])
  {
  }

  /** Consonance does not depend on the order of the two pitches. */
  lemma ConsonanceIsSymmetric(o1: Ordinal, o2: Ordinal, fourthCons: bool)
    ensures IsConsonantInterval(o1, o2, fourthCons) == IsConsonantInterval(o2, o1, fourthCons)
  {
    PitchSetOfPair(o1, o2);
    PitchSetOfPair(o2, o1);
  }

  /** F against B is a fourth or a fifth by class, yet never consonant. */
  lemma TritoneIsDissonant(o1: Ordinal, o2: Ordinal, fourthCons: bool)
    requires Step(o1) == 'F' && Step(o2) == 'B'
    ensures !IsConsonantInterval(o1, o2, fourthCons)
    ensures (if o1 >= o2 then o1 - o2 else o2 - o1) % 7 in {3, 4}
  {
    PitchSetOfPair(o1, o2);
    assert o1 % 7 == 3 && o2 % 7 == 6;
    ModDifference(o1, o2);
    ModDifference(o2, o1);
  }

  /** `translateO2P`: ordinals to pitches; an ordinal outside the table throws. */
  function TranslateO2P(ords: seq<int>): (r: Result<seq<Ordinal>, Failure>)
    ensures r.Ok? <==> forall i :: 0 <= i < |ords| ==> 0 <= ords[i] < PITCH_COUNT
    ensures r.Ok? ==> r.value == ords
  {
    if forall i :: 0 <= i < |ords| ==> 0 <= ords[i] < PITCH_COUNT then Ok(ords) else Err(IndexOutOfBounds)
  }

  /** `translateP2O`: pitches to ordinals. */
  function TranslateP2O(ps: seq<Ordinal>): seq<int> {
    ps
  }

  lemma TranslateRoundTrip(ps: seq<Ordinal>, ords: seq<int>)
    ensures TranslateO2P(TranslateP2O(ps)) == Ok(ps)
    ensures TranslateO2P(ords).Ok? ==> TranslateP2O(TranslateO2P(ords).value) == ords
  {
  }
}

# vlga.composer: the evolutionary chord-progression engine in Dafny

vlga.composer searches for four-part chord progressions with a genetic
algorithm. This project models its search engine and proves properties of
that model. The engine has six parts.

- **Pitch model** (`pitch.dfy`, `settings.dfy`).
  - A pitch is one of 28 ordinals, C2 to B5. Its step letter is the ordinal mod 7 and its octave is 2 + ordinal div 7.
  - Each voice label S, A, T, B has a register.
  - Chords get figured-bass numbers, a triad or seventh classification, a root, and the position of their seventh.
  - The constant tables (registers, seventh spellings, melodic whitelists, cadence formulas, Roman numerals, penalty weights) are Dafny constants.
- **Genome** (`genome.dfy`).
  - A candidate is a flat, chord-major list of ordinals. Gene i is sung by voice `VOICE[i mod |VOICE|]` and must lie in that voice's register.
  - Melodies and chords are projections by index arithmetic.
  - Three text views give one character per chord: the bracketed `series` and `progression` strings and the Roman-numeral figure.
- **Rule set** (`evaluation.dfy`, `splitting.dfy`).
  - There are eight integer defect counters: melodic smoothness, parallel fifths and octaves, outer-voice placement, chord quality, seventh and leading-tone resolution, start chord and cadence.
  - The counters that the Java code computes with `String.split` are modelled by `Splitting.JavaSplit`.
- **Individual** (`individual.dfy`).
  - A class with the genome and the memo fields of the three views.
  - Its fitness is one minus the positive weighted defect counts.
  - Equality and hash code depend on the genes only.
- **Variation operators**.
  - `crossover.dfy`: the chord-wise splice at a locus, with dispatch between it and uniform crossover.
  - `mutation.dfy`: the chord-wise mutation. It copies the genome and overwrites selected (chord, voice) cells with notes from a filtered pool.
- **Turnover and stopping** (`population.dfy`, `algorithm.dfy`, `explorer.dfy`).
  - The population keeps its elites.
  - The generation fill loop selects parents by tournament and has three probability bands.
  - The explorer holds the operator wiring and the stopping condition.

Every random draw is a parameter: the crossover locus and dice, the chord indices, the voice masks, the pool indices, the band dice and the tournament's picks. Each draw is constrained to the range the generator delivers; both dice lie in [0, 1), as `nextDouble` returns.

The globals `Individual.VOICE` and `Individual.EVALS` are modelled as a `Statics` value that every individual carries. They are set once, before any individual exists.
A list of individuals is *uniform* (`Algorithm.Uniform`) when every member carries the same `Statics`, passed the register check and can be scored. The next generation is uniform whenever the current one is, so runs of any length stay under one configuration.

Java exceptions are modelled as `Result` failures (`Wrappers.Failure`).

## Model

| member | source | states |
|---|---|---|
| Settings.RegistersAreNonEmptyRanges | code/src/main/java/art/cctcc/music/Settings.java:38-41 | The four registers are the non-empty ordinal ranges 18..26, 11..21, 7..17 and 2..14 inside the 28-pitch table |
| Settings.PenaltiesArePositive | code/src/main/java/art/cctcc/music/Settings.java:49-56 | All eight penalty weights are strictly positive |
| Settings.InnerWhitelistIsSmallSteps | code/src/main/java/art/cctcc/music/Settings.java:58 | An interval is on the inner-voice whitelist iff it lies in -3..3, repeated notes included |
| Settings.OuterWhitelistIsAsymmetric | code/src/main/java/art/cctcc/music/Settings.java:59-60 | The outer-voice whitelist is exactly 1..5, 7, -4..-1 and -7: it excludes 0, ±6 and -5 and admits +5 and ±7 |
| Settings.CadenceShape | code/src/main/java/art/cctcc/music/Settings.java:74-81 | A string matching a cadence formula has at least four characters and ends in `]` after the formula's target letter and one of its approach letters; every target is an upper-case step letter |
| Settings.RomanNumeralDomain | code/src/main/java/art/cctcc/music/Settings.java:83-92 | The numeral table is defined for the seven letters and X; X alone maps to "-" |
| Pitch.NamesSpellStepAndOctave | code/src/main/java/art/cctcc/music/ga/Pitch.java:51-59 | Every constant name has two characters; `getStep` is the letter STEPS[o mod 7] and `getOctave` is 2 + o div 7 |
| Pitch.GetRegister | code/src/main/java/art/cctcc/music/ga/Pitch.java:61-70 | A register is returned iff the label is S, A, T or B; any other label throws; every register is a proper range inside the table |
| Pitch.RegisterOf | code/src/main/java/art/cctcc/music/ga/Pitch.java:61-70 | For a valid label it is the register `getRegister` returns |
| Pitch.IsInRegister | code/src/main/java/art/cctcc/music/ga/Pitch.java:45-49 | Fails iff the label is invalid; otherwise true iff low ≤ p ≤ high |
| Pitch.GetNote | code/src/main/java/art/cctcc/music/ga/Pitch.java:39-43 | The note drawn for a valid label lies in its register; an invalid label throws |
| Pitch.GetNoteCoversRegister | code/src/main/java/art/cctcc/music/ga/Pitch.java:39-43 | Every pitch of the register is the outcome of exactly one draw, its offset above the low bound |
| Pitch.PitchSet | code/src/main/java/art/cctcc/music/ga/Pitch.java:183-186 | (function) the set of step letters of a chord's notes |
| Pitch.PitchSetOfPair | code/src/main/java/art/cctcc/music/ga/Pitch.java:183-186 | The letter set of two pitches is exactly their two letters |
| Pitch.Bottom | code/src/main/java/art/cctcc/music/ga/Pitch.java:148-151 | The result is a note of the chord and no note lies below it |
| Pitch.Top | code/src/main/java/art/cctcc/music/ga/Pitch.java:153-156 | The result is a note of the chord and no note lies above it |
| Pitch.NumbersRange | code/src/main/java/art/cctcc/music/ga/Pitch.java:139-146 | The figured-bass numbers are a subset of {2..7} |
| Pitch.NumbersIgnoreVoiceOrder | code/src/main/java/art/cctcc/music/ga/Pitch.java:139-146 | Chords with the same notes in another voice order have the same numbers and the same lowest note |
| Pitch.SeventhSearchFinds | code/src/main/java/art/cctcc/music/ga/Pitch.java:126 | The `startsWith` search returns the first spelling at or after the start index that begins with the letter |
| Pitch.SeventhOfStep | code/src/main/java/art/cctcc/music/ga/Pitch.java:126 | The spelling found for the letter of o is SEVENTHS[o mod 7] |
| Pitch.SpellingOnStep | code/src/main/java/art/cctcc/music/ga/Pitch.java:126 | The spelling found for step letter k is the k-th one |
| Pitch.SeventhOn | code/src/main/java/art/cctcc/music/ga/Pitch.java:126 | The spelling tried for a chord note is the one indexed by its letter |
| Pitch.SeventhsStackThirds | code/src/main/java/art/cctcc/music/Settings.java:46-47 | There are seven spellings of four letters; the k-th starts on letter k and stacks thirds from it, so its fourth letter is the seventh |
| Pitch.LetterInSpelling | code/src/main/java/art/cctcc/music/Settings.java:46-47 | A letter belongs to the spelling on letter k iff it lies an even number of steps above k |
| Pitch.MutualSpelling | code/src/main/java/art/cctcc/music/ga/Pitch.java:126-127 | Two letters each contained in the other's spelling are the same letter |
| Pitch.RootFromSpells | code/src/main/java/art/cctcc/music/ga/Pitch.java:122-130 | When the spelling on voice r holds every letter of the chord, the root search from any earlier voice returns the letter of voice r |
| Pitch.RootFromIsLetterOrX | code/src/main/java/art/cctcc/music/ga/Pitch.java:122-130 | `getRoot` returns a step letter or X |
| Pitch.RootNoteExists | code/src/main/java/art/cctcc/music/ga/Pitch.java:122-130 | A triad or seventh shape has a note at the root offset its figured-bass numbers imply |
| Pitch.RootNote | code/src/main/java/art/cctcc/music/ga/Pitch.java:122-130 | For a triad or seventh shape, `getRoot` returns the letter of a chord note that lies at the shape's root offset above the bass |
| Pitch.ShapeHasRoot | code/src/main/java/art/cctcc/music/ga/Pitch.java:97-130 | Every triad or seventh shape has a step letter, not X, as its root |
| Pitch.RootPositionTest | code/src/main/java/art/cctcc/music/ga/Pitch.java:132-137 | Apart from the {B,D,F} chord, `isRootPosition` holds iff 3 is a number and the numbers lie in {3,5,7} |
| Pitch.RootPositionMeansRootInBass | code/src/main/java/art/cctcc/music/ga/Pitch.java:132-137 | Apart from the {B,D,F} chord, a triad or seventh chord is in root position iff its lowest note carries the root letter |
| Pitch.RootOffsetFits | code/src/main/java/art/cctcc/music/ga/Pitch.java:97-120 | Each triad or seventh shape's root offset is 0 or a figure of the shape, and every figure lies an even number of steps above it |
| Pitch.RootOffsetZero | code/src/main/java/art/cctcc/music/ga/Pitch.java:132-137 | The shapes whose root lies on the bass are exactly those `isRootPosition` accepts |
| Pitch.TriadAndSeventhExclusive | code/src/main/java/art/cctcc/music/ga/Pitch.java:97-120 | No chord passes both tests; {B,D,F} gives X from the triad test and B from the seventh test; the seventh test otherwise gives the lower-cased root, and the triad test a step letter |
| Pitch.VoicesWithLetter | code/src/main/java/art/cctcc/music/ga/Pitch.java:172-175 | Exactly the voices from i on whose letter is the given one, in strictly increasing order |
| Pitch.LocateSeventhNote | code/src/main/java/art/cctcc/music/ga/Pitch.java:164-176 | Fails iff the chord is not {B,D,F} and no spelling starts on its root; otherwise the result is a strictly increasing list of voice indices |
| Pitch.SeventhIsLocatable | code/src/main/java/art/cctcc/music/ga/Pitch.java:164-176 | Whenever the seventh test passes, the seventh can be located |
| Pitch.LocateSeventhNoteFinds | code/src/main/java/art/cctcc/music/ga/Pitch.java:164-176 | A voice is listed iff its letter is the fourth letter of the root's spelling, or F for {B,D,F} |
| Pitch.ConsonanceIsSymmetric | code/src/main/java/art/cctcc/music/ga/Pitch.java:90-95 | `isConsonantInterval` does not depend on the order of its pitches |
| Pitch.TritoneIsDissonant | code/src/main/java/art/cctcc/music/ga/Pitch.java:90-95 | F against B is never consonant, although its interval class is a fourth or fifth |
| Pitch.TranslateO2P | code/src/main/java/art/cctcc/music/ga/Pitch.java:188-191 | Succeeds iff every ordinal is inside the table, and then returns the same pitches |
| Pitch.TranslateRoundTrip | code/src/main/java/art/cctcc/music/ga/Pitch.java:188-196 | Pitches to ordinals and back is the identity, and so is ordinals to pitches and back when it succeeds |
| Genome.Melody | code/src/main/java/art/cctcc/music/ga/Individual.java:177-182 | The melody of voice v has one note per chord, note c being gene c·V + v |
| Genome.Chord | code/src/main/java/art/cctcc/music/ga/Individual.java:190-195 | Chord p has one note per voice, note i being gene p·V + i |
| Genome.LastChord | code/src/main/java/art/cctcc/music/ga/Individual.java:197-200 | The last chord holds the final note of every voice's melody |
| Genome.ChordMeetsMelody | code/src/main/java/art/cctcc/music/ga/Individual.java:177-195 | Note v of chord c is note c of voice v's melody |
| Genome.GeneIsMelodyNote | code/src/main/java/art/cctcc/music/ga/Individual.java:166-182 | Every gene k is note k div V of the melody of voice k mod V |
| Genome.GeneError | code/src/main/java/art/cctcc/music/ga/Individual.java:132-142 | Gene i raises an error iff it is not in the register of voice `VOICE[i mod V]` |
| Genome.CheckValidity | code/src/main/java/art/cctcc/music/ga/Individual.java:128-143 | Succeeds iff every gene is in its voice's register; otherwise fails with the error of the first offending gene |
| Genome.ValidGenomeIsInTable | code/src/main/java/art/cctcc/music/ga/Individual.java:128-143 | A genome that passes the check holds only ordinals of the pitch table |
| Genome.RandomGenes | code/src/main/java/art/cctcc/music/ga/Individual.java:152-159 | Succeeds iff every remaining gene's voice label is valid; then one gene per draw, each in its voice's register |
| Genome.RandomChromosomeIsValid | code/src/main/java/art/cctcc/music/ga/Individual.java:152-159 | A random chromosome of n chords has length n·V and n chords and passes the register check; it fails only for an invalid label when n ≥ 1 |
| Genome.RandomGenesNeedLabels | code/src/main/java/art/cctcc/music/ga/Individual.java:152-159 | With at least one chord, the draws succeed iff every voice label is S, A, T or B |
| Genome.SeriesBody | code/src/main/java/art/cctcc/music/ga/Individual.java:89-106 | One series character per chord |
| Genome.Series | code/src/main/java/art/cctcc/music/ga/Individual.java:89-106 | The series string is two characters longer than the chord count |
| Genome.ProgressionParts | code/src/main/java/art/cctcc/music/ga/Individual.java:75-87 | One progression part per chord |
| Genome.RemoveFirstXOfPair | code/src/main/java/art/cctcc/music/ga/Individual.java:84 | Removing the first X from a pair that holds an X leaves the other character |
| Genome.ChordTestSymbols | code/src/main/java/art/cctcc/music/ga/Individual.java:83 | The triad test yields an upper-case letter or X; the seventh test a lower-case letter, B or X |
| Genome.SlotProgressionIsOneChar | code/src/main/java/art/cctcc/music/ga/Individual.java:83-84 | Every chord contributes exactly one progression character, which is X iff its series character is X |
| Genome.JoinOfSingles | code/src/main/java/art/cctcc/music/ga/Individual.java:85 | Joining one-character parts gives one character per part, in order |
| Genome.BracketedIndex | code/src/main/java/art/cctcc/music/ga/Individual.java:85 | Bracketing shifts every position up by one |
| Genome.BracketedAlignment | code/src/main/java/art/cctcc/music/ga/Individual.java:75-106 | Bracketing two aligned bodies keeps X matched to X |
| Genome.SlotParts | code/src/main/java/art/cctcc/music/ga/Individual.java:75-106 | Progression and series are the bracketed parts and marks of the chords, one character per chord, X where X |
| Genome.BracketedParts | code/src/main/java/art/cctcc/music/ga/Individual.java:75-106 | Bracketed one-character parts sit at position i + 1, aligned with their series marks |
| Genome.ProgressionMatchesSeries | code/src/main/java/art/cctcc/music/ga/Individual.java:75-106 | `progression` is bracketed with one character per chord; position i + 1 is chord i's symbol, and it is X iff position i + 1 of `series` is X |
| Genome.ProgressionFlagsNonChords | code/src/main/java/art/cctcc/music/ga/Individual.java:75-106 | `progression` contains an X iff `series` does |
| Genome.DescendingFrom | code/src/main/java/art/cctcc/music/ga/Individual.java:117 | The numbers from 2 up to k, listed in strictly descending order, each exactly once |
| Genome.FiguredNumerals | code/src/main/java/art/cctcc/music/ga/Individual.java:108-120 | One list of numbers per chord |
| Genome.FiguredNumeralsListNumbers | code/src/main/java/art/cctcc/music/ga/Individual.java:108-120 | The list of chord i is its figured-bass numbers in strictly descending order |
| Genome.UpperString | code/src/main/java/art/cctcc/music/ga/Individual.java:270-283 | Upper-casing keeps the length |
| Genome.NumeralOfSymbol | code/src/main/java/art/cctcc/music/ga/Individual.java:265-267 | Every progression symbol, upper-cased, has a non-empty numeral; the numeral is "-" iff the symbol is X, and otherwise starts with I, i, V or v |
| Genome.ProgressionSymbol | code/src/main/java/art/cctcc/music/ga/Individual.java:265 | Position i + 1 of `progression` exists for every chord i, is a chord symbol or X, and is X iff the series has X there |
| Genome.TextFigureMarksNonChords | code/src/main/java/art/cctcc/music/ga/Individual.java:263-284 | The text figure of chord i is "-" iff the series marks chord i with X |
| Splitting.Occurrences | code/src/main/java/art/cctcc/music/ga/Evaluation.java:75 | The delimiter count is at most the length, and zero iff no character is a delimiter |
| Splitting.Segments | code/src/main/java/art/cctcc/music/ga/Evaluation.java:75 | One piece more than there are delimiters; the first piece is empty iff the string starts with a delimiter, the last iff it ends with one |
| Splitting.DropTrailingEmpty | code/src/main/java/art/cctcc/music/ga/Evaluation.java:75 | Removing trailing empty pieces keeps a prefix, and keeps everything when the last piece is not empty |
| Splitting.EmptySegments | code/src/main/java/art/cctcc/music/ga/Evaluation.java:85 | Empty pieces are the neighbouring delimiter pairs, plus one for a leading and one for a trailing delimiter |
| Splitting.SplitOfEnclosed | code/src/main/java/art/cctcc/music/ga/Evaluation.java:74-85 | For a string that neither starts nor ends with a delimiter, `split` gives one piece more than the delimiters, and its empty pieces are exactly the neighbouring delimiter pairs |
| Splitting.OccurrencesOfConcat | code/src/main/java/art/cctcc/music/ga/Evaluation.java:75 | Delimiter counts add over concatenation |
| Splitting.PairsIgnoreOuterNonDelimiters | code/src/main/java/art/cctcc/music/ga/Evaluation.java:85 | Non-delimiting brackets add no neighbouring delimiter pairs |
| Evaluation.UnitPenalty | code/src/main/java/art/cctcc/music/ga/Evaluation.java:106-113 | Every rule's unit weight is strictly positive |
| Evaluation.IsMelodicFeasible | code/src/main/java/art/cctcc/music/ga/Evaluation.java:138-159 | The early-exit scan computes the feasibility of the figure: no melodic tritone, every step on the voice's whitelist, and the net displacement within the voice's bound |
| Evaluation.IntervalsWithin | code/src/main/java/art/cctcc/music/ga/Evaluation.java:145-158 | The whitelist test on the list of intervals is the test on the figure's consecutive steps |
| Evaluation.TritoneStepIsInfeasible | code/src/main/java/art/cctcc/music/ga/Evaluation.java:140-143 | A step between B and F makes every figure infeasible, whatever the voice |
| Evaluation.InnerFeasibleStepsAreSmall | code/src/main/java/art/cctcc/music/ga/Evaluation.java:152-154 | A feasible alto or tenor figure moves at most a fourth per step |
| Evaluation.OuterRuleIsDirectional | code/src/main/java/art/cctcc/music/ga/Evaluation.java:157-158 | An outer voice may leap a sixth up but not down, and never repeats a note |
| Evaluation.NoInfeasibleWindows | code/src/main/java/art/cctcc/music/ga/Evaluation.java:122-127 | The window count is zero iff every counted three-note window is feasible |
| Evaluation.MelodicInfeasibilityZero | code/src/main/java/art/cctcc/music/ga/Evaluation.java:120-136 | A melody scores 0 iff every interior window is feasible and it leaps no more often than it steps |
| Evaluation.ConstantMelodyMoves | code/src/main/java/art/cctcc/music/ga/Evaluation.java:128-134 | A melody on one note never leaps |
| Evaluation.ConstantWindows | code/src/main/java/art/cctcc/music/ga/Evaluation.java:122-127 | On a repeated note no window is infeasible for A or T, and every counted window is for other voices |
| Evaluation.HeldWindow | code/src/main/java/art/cctcc/music/ga/Evaluation.java:138-159 | Three equal notes are feasible iff the voice is A or T |
| Evaluation.ConstantMelodyScore | code/src/main/java/art/cctcc/music/ga/Evaluation.java:120-136 | A repeated note scores 0 for A and T and one per interior window for any other voice |
| Evaluation.VoiceIndependenceCheck | code/src/main/java/art/cctcc/music/ga/Evaluation.java:169-185 | The counting loop returns the number of parallel time steps over the common length |
| Evaluation.ParallelCountBound | code/src/main/java/art/cctcc/music/ga/Evaluation.java:169-185 | The count is at most the number of time steps after the first |
| Evaluation.ParallelCountIsSymmetric | code/src/main/java/art/cctcc/music/ga/Evaluation.java:169-185 | Swapping the two melodies does not change the count |
| Evaluation.ParallelAtIsSymmetric | code/src/main/java/art/cctcc/music/ga/Evaluation.java:174-181 | Whether one time step counts does not depend on which melody comes first |
| Evaluation.OuterRulesetIsStricter | code/src/main/java/art/cctcc/music/ga/Evaluation.java:177-181 | The outer-voice ruleset counts every step the inner ruleset counts |
| Evaluation.OuterPairIsSopranoAndBass | code/src/main/java/art/cctcc/music/ga/Evaluation.java:56-60 | A voice pair uses the outer ruleset iff it is S with B or B with S |
| Evaluation.OuterVoiceDefectsBound | code/src/main/java/art/cctcc/music/ga/Evaluation.java:213-229 | The outer-voice count is at most the number of S and B voices |
| Evaluation.OuterVoiceDefectsMeaning | code/src/main/java/art/cctcc/music/ga/Evaluation.java:213-229 | The count is zero iff every S voice holds the chord's highest note and every B voice its lowest |
| Evaluation.SeriesAlphabet | code/src/main/java/art/cctcc/music/ga/Individual.java:89-106 | Series characters come from T, t, S, s and X, between brackets |
| Evaluation.NotTriadCountsNonChords | code/src/main/java/art/cctcc/music/ga/Evaluation.java:74-75 | `NotTriadOrSeventhChord` equals the number of X characters in the series, between 0 and the chord count |
| Evaluation.SuccessiveDissonanceCountsPairs | code/src/main/java/art/cctcc/music/ga/Evaluation.java:83-85 | `SuccessiveDissonantChords` equals the number of neighbouring chord pairs both in {S, s, X} |
| Evaluation.AdjacentPairsBound | code/src/main/java/art/cctcc/music/ga/Evaluation.java:83-85 | There are at most length − 1 neighbouring pairs |
| Evaluation.SeriesTextIsAnyPlus | code/src/main/java/art/cctcc/music/ga/Evaluation.java:88-98 | `.+` matches any non-empty piece of series text |
| Evaluation.StartWithNonTriadMeaning | code/src/main/java/art/cctcc/music/ga/Evaluation.java:88 | The start rule scores 0 iff there is a chord and the first series character is T or t |
| Evaluation.SeriesCadenceMeaning | code/src/main/java/art/cctcc/music/ga/Evaluation.java:98 | The series sub-check passes iff there are two chords or more, the last a root-position triad and the one before it a root-position chord |
| Evaluation.BracketedCadence | code/src/main/java/art/cctcc/music/ga/Evaluation.java:98 | On bracketed series text the cadence pattern reads the last two chord characters |
| Evaluation.ImproperCadentialCount | code/src/main/java/art/cctcc/music/ga/Evaluation.java:95-104 | The cadential rule, three 0/1 sub-checks, scores at most 3 |
| Evaluation.RootCheckMeaning | code/src/main/java/art/cctcc/music/ga/Evaluation.java:100-104 | The third sub-check passes iff the root is the letter of the last chord's highest note |
| Evaluation.SeventhDefectsPerChord | code/src/main/java/art/cctcc/music/ga/Evaluation.java:187-200 | One defect count for every chord but the last |
| Evaluation.SumIsZero | code/src/main/java/art/cctcc/music/ga/Evaluation.java:187-200 | A sum of counts is zero iff every count is zero |
| Evaluation.UnresolvedVoicesZero | code/src/main/java/art/cctcc/music/ga/Evaluation.java:194-198 | The unresolved count of the listed voices is at most their number, and zero iff each steps down by one or holds its note |
| Evaluation.UnresolvedSeventhsZero | code/src/main/java/art/cctcc/music/ga/Evaluation.java:189-198 | A chord contributes no defect iff it is not a seventh chord or all its sevenths resolve |
| Evaluation.SeventhResolutionZero | code/src/main/java/art/cctcc/music/ga/Evaluation.java:187-200 | `improperSeventhResolution` is zero iff every seventh steps down or is held into the next chord |
| Evaluation.NoteLetters | code/src/main/java/art/cctcc/music/ga/Evaluation.java:206-209 | The rendered letters of a melody are its notes' step letters, one per note |
| Evaluation.RunStartsAreRunEnds | code/src/main/java/art/cctcc/music/ga/Evaluation.java:202-211 | Runs of B notes start as often as they end, counting a final B |
| Evaluation.RunEndsSplit | code/src/main/java/art/cctcc/music/ga/Evaluation.java:202-211 | A B run ends either by escaping or by moving to C |
| Evaluation.LeadingToneClosedForm | code/src/main/java/art/cctcc/music/ga/Evaluation.java:202-211 | The difference of the two split counts is the number of B notes followed by a note other than B or C, plus one when the melody ends on two B notes |
| Evaluation.LeadingToneResolutionIsCount | code/src/main/java/art/cctcc/music/ga/Evaluation.java:202-211 | The leading-tone rule over the S and B voices is never negative |
| Evaluation.CountIsNonNegative | code/src/main/java/art/cctcc/music/ga/Evaluation.java:35-104 | Every one of the eight rules counts defects: never negative |
| Evaluation.Evaluate | code/src/main/java/art/cctcc/music/ga/Evaluation.java:115-118 | The weighted penalty is never negative, and positive iff the count is |
| Individuals.CanEvaluate | code/src/main/java/art/cctcc/music/ga/Individual.java:61-73 | (predicate) every rule in EVALS can be evaluated: the cadential rule needs a last chord |
| Individuals.PositivePenalties | code/src/main/java/art/cctcc/music/ga/Individual.java:61-73 | The sum of the positive rule contributions is never negative |
| Individuals.NoPenaltyIffNoDefect | code/src/main/java/art/cctcc/music/ga/Individual.java:61-73 | Nothing is subtracted iff no rule in EVALS finds a defect |
| Individuals.PenaltyIncludesEachRule | code/src/main/java/art/cctcc/music/ga/Individual.java:61-73 | The total subtracted is at least every single rule's weighted count |
| Individuals.Int32 | code/src/main/java/art/cctcc/music/ga/Individual.java:208-214 | Java int overflow: a value in [−2^31, 2^31) congruent to the argument modulo 2^32 |
| Individuals.ListHashCode | code/src/main/java/art/cctcc/music/ga/Individual.java:212 | The list hash is a 32-bit int |
| Individuals.Individual.constructor | code/src/main/java/art/cctcc/music/ga/Individual.java:49-52 | A checked genome becomes an individual with empty memos under the given globals |
| Individuals.Individual.FromRepresentation | code/src/main/java/art/cctcc/music/ga/Individual.java:49-52 | Construction succeeds iff the genome passes `checkValidity`, otherwise fails with the first offending gene's error |
| Individuals.Individual.Random | code/src/main/java/art/cctcc/music/ga/Individual.java:44-47 | A random individual has chordNo chords of in-register genes; it fails only for an invalid voice label |
| Individuals.Individual.GetProgression | code/src/main/java/art/cctcc/music/ga/Individual.java:75-87 | Returns the progression of the genome and memoises it, leaving the other memos as they were |
| Individuals.Individual.GetSeries | code/src/main/java/art/cctcc/music/ga/Individual.java:89-106 | Returns the series of the genome and memoises it, leaving the other memos as they were |
| Individuals.Individual.GetFiguredNumerals | code/src/main/java/art/cctcc/music/ga/Individual.java:108-120 | Returns the figured numerals of the genome and memoises them, leaving the other memos as they were |
| Individuals.Individual.GetTextFigure | code/src/main/java/art/cctcc/music/ga/Individual.java:263-284 | Returns the text figure of chord i, which is "-" iff the series marks the chord X |
| Individuals.Individual.Fitness | code/src/main/java/art/cctcc/music/ga/Individual.java:61-73 | Fitness is at most 1, and exactly 1 iff no rule in EVALS finds a defect |
| Individuals.Individual.Equals | code/src/main/java/art/cctcc/music/ga/Individual.java:216-224 | Equal iff the other object is an individual with the same genes |
| Individuals.Individual.HashCode | code/src/main/java/art/cctcc/music/ga/Individual.java:208-214 | The hash is a 32-bit int |
| Individuals.EqualsAgreesWithHashCode | code/src/main/java/art/cctcc/music/ga/Individual.java:208-224 | Equal individuals have equal hash codes; equality is reflexive and symmetric |
| Crossover.Splice | code/src/main/java/art/cctcc/music/ga/CrossoverByChord.java:54-59 | The first n chords of a child; each gene comes from the same position of one parent |
| Crossover.SpliceStep | code/src/main/java/art/cctcc/music/ga/CrossoverByChord.java:56-59 | Each loop pass appends chord i of the parent the locus assigns it to |
| Crossover.SpliceTakesWholeChords | code/src/main/java/art/cctcc/music/ga/CrossoverByChord.java:54-59 | A child has n chords, and chord i is chord i of the first parent before the locus and of the second from the locus on |
| Crossover.SpliceExchangesGenes | code/src/main/java/art/cctcc/music/ga/CrossoverByChord.java:54-59 | At every position the two children hold the two parents' genes, one each, so together they carry exactly the parents' genes |
| Crossover.ExchangeByPosition | code/src/main/java/art/cctcc/music/ga/CrossoverByChord.java:54-59 | Positionwise exchange preserves the combined multiset |
| Crossover.SpliceKeepsRegisters | code/src/main/java/art/cctcc/music/ga/CrossoverByChord.java:57-60 | Children of parents that pass the register check pass it too |
| Crossover.SpliceChords | code/src/main/java/art/cctcc/music/ga/CrossoverByChord.java:54-59 | The chord loop builds both children as the splices at the locus over the first parent's chord count |
| Crossover.Chordal | code/src/main/java/art/cctcc/music/ga/CrossoverByChord.java:50-64 | Fails with an illegal argument for a non-individual or a parent of fewer than two chords, and with an index error when the second parent has fewer chords; otherwise it returns the two splices at locus draw + 1 as new valid individuals |
| Crossover.ChordalGenomes | code/src/main/java/art/cctcc/music/ga/CrossoverByChord.java:52-60 | The chordal splice has children iff 2 ≤ C₁ ≤ C₂ |
| Crossover.DefaultPolicyAlwaysSplices | code/src/main/java/art/cctcc/music/ga/CrossoverByChord.java:37-40 | The no-argument policy splices for every dice value in [0, 1) |
| Crossover.Crossover | code/src/main/java/art/cctcc/music/ga/CrossoverByChord.java:71-78 | For a dice in [0, 1): below the chord ratio the result is the chordal splice, with its failure cases; otherwise it is the uniform crossover's outcome |
| Mutation.Pow2 | code/src/main/java/art/cctcc/music/ga/MutationByChord.java:71 | Powers of two are positive |
| Mutation.BinaryString | code/src/main/java/art/cctcc/music/ga/MutationByChord.java:72 | A non-empty string of binary digits that starts with 1 iff the value is positive |
| Mutation.Ones | code/src/main/java/art/cctcc/music/ga/MutationByChord.java:73 | The count of ones is at most the length |
| Mutation.BinaryStringFits | code/src/main/java/art/cctcc/music/ga/MutationByChord.java:71-74 | A value below 2^V has at most V binary digits |
| Mutation.OnesOfConcat | code/src/main/java/art/cctcc/music/ga/MutationByChord.java:73-74 | Ones add over concatenation |
| Mutation.NoOnesInZeros | code/src/main/java/art/cctcc/music/ga/MutationByChord.java:74 | Padding zeros hold no ones |
| Mutation.Zeros | code/src/main/java/art/cctcc/music/ga/MutationByChord.java:74 | n padding characters, all '0' |
| Mutation.Mask | code/src/main/java/art/cctcc/music/ga/MutationByChord.java:70-76 | The voice mask has one binary digit per voice and as many ones as the drawn integer |
| Mutation.OnesCountsPositions | code/src/main/java/art/cctcc/music/ga/MutationByChord.java:73 | The count of ones is the number of positions holding '1' |
| Mutation.SiteFlagsMVoices | code/src/main/java/art/cctcc/music/ga/MutationByChord.java:70-78 | Every site flags exactly mVoices voices |
| Mutation.Figure | code/src/main/java/art/cctcc/music/ga/MutationByChord.java:84-88 | The figure is two notes: the candidate and its original neighbour |
| Mutation.FilterRange | code/src/main/java/art/cctcc/music/ga/MutationByChord.java:89-93 | Exactly the notes in the range that pass the filter, strictly ascending |
| Mutation.FilterRangeMembers | code/src/main/java/art/cctcc/music/ga/MutationByChord.java:90-92 | A note is kept iff it is in range and passes the filter |
| Mutation.Candidates | code/src/main/java/art/cctcc/music/ga/MutationByChord.java:89-93 | Every pool member lies in the voice's register |
| Mutation.CandidatesAreAdmissibleNotes | code/src/main/java/art/cctcc/music/ga/MutationByChord.java:89-93 | The pool holds exactly the register notes that pass the keep filter and are melodically feasible in their figure, ascending, each once |
| Mutation.VoiceOf | code/src/main/java/art/cctcc/music/ga/MutationByChord.java:94-95 | The voice of a flat index is below the voice count |
| Mutation.CellSplits | code/src/main/java/art/cctcc/music/ga/MutationByChord.java:94-95 | The cell of chord c, voice w splits back into c and w |
| Mutation.CellOfParts | code/src/main/java/art/cctcc/music/ga/MutationByChord.java:94-95 | A flat index is the cell of its chord and voice |
| Mutation.ChordOfIsQuotient | code/src/main/java/art/cctcc/music/ga/MutationByChord.java:94-95 | Chord and voice of a flat index are its quotient and remainder by V |
| Mutation.CellInGenome | code/src/main/java/art/cctcc/music/ga/MutationByChord.java:94-95 | The cell written for chord c, voice w lies inside the genome, where `getChord` reads it |
| Mutation.IndexOf | code/src/main/java/art/cctcc/music/ga/MutationByChord.java:67-68 | The first position of a value in the chord indices, or −1 iff it is absent |
| Mutation.IndexOfDistinct | code/src/main/java/art/cctcc/music/ga/MutationByChord.java:67-68 | In distinct chord indices every index is found at its own position |
| Mutation.Mutated | code/src/main/java/art/cctcc/music/ga/MutationByChord.java:66-96 | The mutated genome has the original length |
| Mutation.PartialAtCell | code/src/main/java/art/cctcc/music/ga/MutationByChord.java:77-96 | Visiting voice v of site j settles its cell: the drawn note if flagged, the original otherwise |
| Mutation.PartialElsewhere | code/src/main/java/art/cctcc/music/ga/MutationByChord.java:77-96 | Visiting voice v of site j leaves every other cell as it was |
| Mutation.SiteDone | code/src/main/java/art/cctcc/music/ga/MutationByChord.java:69-97 | After the last voice of site j the genes are those at the start of site j + 1 |
| Mutation.LabelsOfValidGenome | code/src/main/java/art/cctcc/music/ga/MutationByChord.java:81-82 | A valid genome of at least one chord has a register for every voice |
| Mutation.VisitStep | code/src/main/java/art/cctcc/music/ga/MutationByChord.java:94-96 | The in-place `set` of one flagged voice advances the genes by one voice |
| Mutation.VisitVoice | code/src/main/java/art/cctcc/music/ga/MutationByChord.java:77-97 | One voice of a site: fails iff it is flagged and the genome has one chord or its pool is empty (with the matching error); otherwise it advances the genes by one voice |
| Mutation.MutateSite | code/src/main/java/art/cctcc/music/ga/MutationByChord.java:69-97 | One site: fails iff some flagged voice fails; otherwise it advances the genes to the next site |
| Mutation.MutateGenes | code/src/main/java/art/cctcc/music/ga/MutationByChord.java:66-99 | The copy-then-overwrite loop fails iff a flagged voice fails, with an index error for one chord and an illegal argument otherwise, and else returns the mutated genome |
| Mutation.MutatedAt | code/src/main/java/art/cctcc/music/ga/MutationByChord.java:66-96 | The cell of chord c, voice w afterwards is the drawn note when c is a site that flags w, and the original gene otherwise |
| Mutation.MutationIsLocal | code/src/main/java/art/cctcc/music/ga/MutationByChord.java:66-96 | A gene changes only if its chord was drawn and its voice flagged there |
| Mutation.NewValueInRegister | code/src/main/java/art/cctcc/music/ga/MutationByChord.java:89-96 | Every written note lies in its voice's register |
| Mutation.MutatedIsValid | code/src/main/java/art/cctcc/music/ga/MutationByChord.java:89-99 | The mutated genome passes the register check |
| Mutation.WrittenNotesPassFilters | code/src/main/java/art/cctcc/music/ga/MutationByChord.java:84-96 | After a successful call every flagged cell holds a register note that is feasible against the original neighbour and, unless canKeep, differs from the original |
| Mutation.GetMutation | code/src/main/java/art/cctcc/music/ga/MutationByChord.java:64-100 | Fails exactly as the gene loop does; otherwise a new valid individual under the same globals holding the mutated genome |
| Mutation.Mutate | code/src/main/java/art/cctcc/music/ga/MutationByChord.java:42-55 | Fails for a non-individual or a bound below one, or as `getMutation` with canKeep set; otherwise the mutated individual for mVoices = voiceDraw + 1 and mLoci = lociDraw + 1 |
| Populations.Insert | code/src/main/java/art/cctcc/music/ga/MyPopulation.java:48 | Insertion adds exactly one member |
| Populations.Sort | code/src/main/java/art/cctcc/music/ga/MyPopulation.java:48 | The sort keeps the members with their multiplicities |
| Populations.InsertKeepsSorted | code/src/main/java/art/cctcc/music/ga/MyPopulation.java:48 | Inserting into a sorted list keeps it sorted |
| Populations.InsertedBehindHead | code/src/main/java/art/cctcc/music/ga/MyPopulation.java:48 | Nothing inserted behind the head comes before it |
| Populations.PrependSorted | code/src/main/java/art/cctcc/music/ga/MyPopulation.java:48 | A head that nothing in a sorted tail comes before keeps the list sorted |
| Populations.SortIsOrderedPermutation | code/src/main/java/art/cctcc/music/ga/MyPopulation.java:48 | Both sorts order the population by fitness and are permutations of it |
| Populations.TailAtLeastHead | code/src/main/java/art/cctcc/music/ga/MyPopulation.java:48-50 | In an ascending list the members kept after a skip are at least as fit as those skipped |
| Populations.HeadAtLeastTail | code/src/main/java/art/cctcc/music/ga/MyPopulation.java:62-63 | In a descending list the members taken first are at least as fit as the rest |
| Populations.SortedSlice | code/src/main/java/art/cctcc/music/ga/MyPopulation.java:48-50 | Every slice of a sorted list is sorted |
| Populations.SplitMultiset | code/src/main/java/art/cctcc/music/ga/MyPopulation.java:48-50 | A list is its skipped part and its kept part, as multisets |
| Populations.Ceil | code/src/main/java/art/cctcc/music/ga/MyPopulation.java:49 | The ceiling is the least integer not below the value |
| Populations.DroppedCount | code/src/main/java/art/cctcc/music/ga/MyPopulation.java:49 | No more members are skipped than there are |
| Populations.CeilOfComplement | code/src/main/java/art/cctcc/music/ga/MyPopulation.java:49 | ceil(n − x) = n − floor(x) |
| Populations.KeptCount | code/src/main/java/art/cctcc/music/ga/MyPopulation.java:49 | n − ceil((1 − e)·n) = floor(e·n) |
| Populations.EliteCountIsFloor | code/src/main/java/art/cctcc/music/ga/MyPopulation.java:44-51 | The next generation starts with floor(e·n) elites |
| Populations.ElitesAreFittest | code/src/main/java/art/cctcc/music/ga/MyPopulation.java:47-50 | Elites and dropped members together are the population; every elite is at least as fit as every dropped member; the elites are in ascending order |
| Populations.FittestCount | code/src/main/java/art/cctcc/music/ga/MyPopulation.java:63 | Never more than the population size |
| Populations.AtLeastOne | code/src/main/java/art/cctcc/music/ga/MyPopulation.java:63 | `max(1, x)` truncated to int agrees with raising the floor of x to at least 1 |
| Populations.FittestCountIsBounded | code/src/main/java/art/cctcc/music/ga/MyPopulation.java:63 | The count is min(n, max(1, floor(n·e))) |
| Populations.FittestChromosomesCount | code/src/main/java/art/cctcc/music/ga/MyPopulation.java:59-65 | The fittest list has min(n, max(1, floor(n·e))) members |
| Populations.FittestChromosomesAreFittest | code/src/main/java/art/cctcc/music/ga/MyPopulation.java:59-65 | The fittest list is drawn from the population in descending order, and none of its members is less fit than any member left out |
| Populations.Population.constructor | code/src/main/java/art/cctcc/music/ga/MyPopulation.java:38-41 | An empty population with the given limit and rate |
| Populations.Population.AddChromosome | code/src/main/java/art/cctcc/music/ga/MyPopulation.java:50 | Appends one member below the limit, keeping the bounds |
| Populations.Population.Initial | code/src/main/java/art/cctcc/music/ga/MyPopulation.java:30-36 | populationLimit random individuals of chordNo chords, one per draw list in order; fails only for an invalid voice label |
| Populations.Population.NextGeneration | code/src/main/java/art/cctcc/music/ga/MyPopulation.java:44-52 | A new population with the same limit and rate, holding exactly the elites |
| Populations.Population.GetFittestChromosomes | code/src/main/java/art/cctcc/music/ga/MyPopulation.java:59-65 | min(n, max(1, floor(n·e))) members of the population, at least one when it is non-empty, in descending order and none less fit than a member left out |
| Algorithm.BandOf | code/src/main/java/art/cctcc/music/ga/MyGeneticAlgorithm.java:72-86 | The in-place subtraction of the rates selects crossover-and-mutate iff dice < cm, crossover only iff cm ≤ dice < cm + co, mutation only iff the next band holds the dice, and unchanged otherwise |
| Algorithm.Genomes | code/src/main/java/art/cctcc/music/ga/MyGeneticAlgorithm.java:70-90 | The genes of every member, in order |
| Algorithm.GenomesGrow | code/src/main/java/art/cctcc/music/ga/MyGeneticAlgorithm.java:87-89 | Appending members whose genes are the next brood genomes extends the genome list by that prefix |
| Algorithm.PairsNeeded | code/src/main/java/art/cctcc/music/ga/MyGeneticAlgorithm.java:70-90 | Enough pairs to fill the gap, with at most one member to spare |
| Algorithm.MyGeneticAlgorithm.constructor | code/src/main/java/art/cctcc/music/ga/MyGeneticAlgorithm.java:48-63 | Stores the operators, the tournament arity and the three band rates |
| Algorithm.MyGeneticAlgorithm.Brood | code/src/main/java/art/cctcc/music/ga/MyGeneticAlgorithm.java:70-90 | The rounds that go through add two genomes each; no round goes through when the tournament selection fails |
| Algorithm.MyGeneticAlgorithm.BroodExtends | code/src/main/java/art/cctcc/music/ga/MyGeneticAlgorithm.java:70-90 | If n rounds go through so do the first m, and their genomes come first |
| Algorithm.MyGeneticAlgorithm.CrossPair | code/src/main/java/art/cctcc/music/ga/MyGeneticAlgorithm.java:74 | The crossover succeeds iff its genome function does, and returns those genomes as well-formed individuals under the same globals |
| Algorithm.MyGeneticAlgorithm.MutatePair | code/src/main/java/art/cctcc/music/ga/MyGeneticAlgorithm.java:76-78 | Both mutations succeed iff their genome function does, and return those genomes |
| Algorithm.MyGeneticAlgorithm.OffspringKeepChords | code/src/main/java/art/cctcc/music/ga/MyGeneticAlgorithm.java:72-86 | Every band keeps the chord count: each offspring has the chord count of one of its parents, so offspring of scorable parents can be scored |
| Algorithm.MyGeneticAlgorithm.CrossedKeepChords | code/src/main/java/art/cctcc/music/ga/CrossoverByChord.java:53-60 | Both children of a crossover that goes through have the first parent's chord count |
| Algorithm.MyGeneticAlgorithm.BredUniform | code/src/main/java/art/cctcc/music/ga/MyGeneticAlgorithm.java:72-86 | The bred members of scorable parents are built under the parents' globals, well formed and scorable |
| Algorithm.ElitesUniform | code/src/main/java/art/cctcc/music/ga/MyPopulation.java:44-52 | The elites of a population whose members share the globals, are well formed and scorable, have the same three properties |
| Algorithm.MyGeneticAlgorithm.Breed | code/src/main/java/art/cctcc/music/ga/MyGeneticAlgorithm.java:71-86 | One round applies the operators of its band in source order; it succeeds iff the round's offspring exist, and returns them |
| Algorithm.MyGeneticAlgorithm.AddRound | code/src/main/java/art/cctcc/music/ga/MyGeneticAlgorithm.java:71-89 | One loop pass fails iff the selection or round i fails; otherwise it grows `next` by one or two members and keeps the loop state: the earlier members in front, every member uniform, the added genes following the brood |
| Algorithm.MyGeneticAlgorithm.AddBred | code/src/main/java/art/cctcc/music/ga/MyGeneticAlgorithm.java:72-89 | After a selection that goes through, the pass fails iff round i's operators fail, and otherwise keeps the loop state with one or two bred members added |
| Algorithm.MyGeneticAlgorithm.AddPair | code/src/main/java/art/cctcc/music/ga/MyGeneticAlgorithm.java:87-89 | Appends exactly the first child, and the second only while there is room; never exceeds the limit, and keeps every member uniform |
| Algorithm.MyGeneticAlgorithm.Fill | code/src/main/java/art/cctcc/music/ga/MyGeneticAlgorithm.java:70-90 | The loop fails iff one of the needed rounds fails; otherwise `next` reaches exactly its limit, keeps its elites in front, every member is uniform, and the added genes are the brood's, two per round in order |
| Algorithm.MyGeneticAlgorithm.NextFrom | code/src/main/java/art/cctcc/music/ga/MyGeneticAlgorithm.java:68-106 | The next generation starts with the elites of the current one and is then filled to the limit with the offspring of parents selected from the current population; all its members share the globals and are well formed and scorable, so it can be evolved again |
| Algorithm.MyGeneticAlgorithm.NextGeneration | code/src/main/java/art/cctcc/music/ga/MyGeneticAlgorithm.java:66-109 | Null for a population of another class; otherwise a full, uniform population with the same limit and rate that starts with the elites |
| Explorers.Explorer.constructor | code/src/main/java/art/cctcc/music/ga/Explorer.java:54-104 | Wires CrossoverByChord(0.8, 0.3), MutationByChord(max loci, max voices), tournaments of two and the three band rates, and sets the globals from the configuration |
| Explorers.Explorer.Condition | code/src/main/java/art/cctcc/music/ga/Explorer.java:94-100 | Stops never while the fittest individual's progression holds an X, and otherwise iff the fitness aim or the generation limit is reached |
| Explorers.Explorer.StopsMeaning | code/src/main/java/art/cctcc/music/ga/Explorer.java:94-100 | The run stops iff the fittest individual has no non-chord (`NotTriadOrSeventhChord` is zero) and the fitness aim or the generation limit is reached |

## Left out

- Rendering and I/O are not modelled. This covers MusicXML output, console and file logging, timers, the progress log in `MyGeneticAlgorithm.nextGeneration`, `Explorer.start`, `saveScore`, `saveData`, `logParameters` and the command-line entry point.
- `Individual.toString`, `toRomanNumerals` and `getLaTeXFigure` are display formatting only.
- `Pitch.isConsonantChordFromBasso`, `Pitch.isConsonantChord` and `Settings.TRIADS` are not modelled; no modelled operation uses them.
- `getAvgFitness` and `getAvgEliteFitness` are averages used only for logging.
- The genetic-algorithm library is not part of this model. Its parts enter as parameters:
  - the tournament selection outcome, as the parent indices of each round. The selection fails when the population holds fewer members than a tournament, or none;
  - the uniform crossover outcome, as a given result whose children are as long as the first parent;
  - the evolve loop and its generation counter, as the generation count the stopping condition reads.
  - The population's capacity errors are excluded by the population's validity bounds.
- The shared random generator is replaced by explicit draws, each constrained to the range it would have.
- Algorithm.MyGeneticAlgorithm.SelectionFails: a tournament of arity 0 over a non-empty population is not treated as a failure. `Explorer` always builds tournaments of two.
- Every member requires a non-empty voice string (`WellFormed`). On an empty one, `getChordNumber` would divide by zero; the configuration pattern `[SATB]+` (Main.java:39) rules it out.
- Fitness, penalty weights, the elitism rate and the band dice are exact reals, so there is no floating-point rounding and no NaN.
- Mutation.WellDrawn: `getMutation` loops forever when mLoci exceeds the chord count or no mask has mVoices ones. The model requires draws the generators can deliver, so non-termination is not modelled.
- Mutation.Mask: the mask bound `1 << V` overflows for 31 or more voices. The model uses the exact power of two.
- Populations.Population.Initial: states when construction fails, but not the kind of error. The error of the first failing `Individual(chord_no)` passes through unchanged.
- Algorithm.MyGeneticAlgorithm.NextGeneration: the genomes added after the elites are stated by `NextFrom`. This method states only the shape of the result.
- Evaluation.LeadingToneResolutionIsCount: states only non-negativity of the whole rule. The exact per-melody value is `LeadingToneClosedForm`.
- Individuals.ListHashCode: states only the 32-bit range. Its partner is `EqualsAgreesWithHashCode`.

Where the code departs from a natural reading of the design, the model follows the code:
- The outer-voice whitelist lacks −5 while it has +5.
- `MyPopulation.nextGeneration` keeps floor(e·n) elites, because it skips ceil((1 − e)·n) members.
- `progression` keeps an X for every non-chord rather than omitting it.
- The successive-dissonance rule counts neighbouring pairs, not runs.
- The third cadential sub-check compares the root with the letter of the highest note of the last chord.
- The cadential rule reads the last chord, so it needs at least one chord.
- The stopping condition never fires while the progression holds an X, even past the generation limit.
- The leading-tone rule, written as a difference of two regular-expression split counts, equals the closed form in `LeadingToneClosedForm`.

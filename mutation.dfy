/**
 * `MutationByChord`: a copy of the genome in which, at a few distinct chord
 * positions, a masked subset of the voices is redrawn from a pool of
 * register notes that move feasibly to or from the original neighbour.
 * Every random draw is an argument.
 */
module Mutation {
  import opened Wrappers
  import opened Settings
  import opened Pitch
  import opened Genome
  import opened Evaluation
  import opened Individuals

  // ---------------------------------------------------------------------------
  // Voice masks

  function Pow2(n: nat): (r: nat)
    ensures r >= 1
  {
    if n == 0 then 1 else 2 * Pow2(n - 1)
  }

  /** `Integer.toBinaryString` of a non-negative value: no leading zeros, "0" for zero. */
  function BinaryString(n: nat): (s: string)
    ensures |s| >= 1
    ensures forall i :: 0 <= i < |s| ==> s[i] == '0' || s[i] == '1'
    ensures s[0] == '1' <==> n > 0
    decreases n
  {
    if n < 2 then [if n == 0 then '0' else '1']
    else BinaryString(n / 2) + [if n % 2 == 0 then '0' else '1']
  }

  /** `s.replace("0", "").length()` on a string of binary digits: the number of ones. */
  function Ones(s: string): (r: nat)
    ensures r <= |s|
  {
    if |s| == 0 then 0 else (if s[0] == '1' then 1 else 0) + Ones(s[1..])
  }

  lemma {:induction false} BinaryStringFits(n: nat, width: nat)
    requires width >= 1 && n < Pow2(width)
    ensures |BinaryString(n)| <= width
  {
    if n >= 2 {
      BinaryStringFits(n / 2, width - 1);
    }
  }

  lemma {:induction false} OnesOfConcat(a: string, b: string)
    ensures Ones(a + b) == Ones(a) + Ones(b)
  {
    if |a| > 0 {
      assert (a + b)[1..] == a[1..] + b;
      OnesOfConcat(a[1..], b);
    } else {
      assert a + b == b;
    }
  }

  lemma {:induction false} NoOnesInZeros(n: nat)
    ensures Ones(Zeros(n)) == 0
  {
    if n > 0 {
      assert Zeros(n)[1..] == Zeros(n - 1);
      NoOnesInZeros(n - 1);
    }
  }

  function Zeros(n: nat): (s: string)
    ensures |s| == n && forall i :: 0 <= i < n ==> s[i] == '0'
  {
    seq(n, _ => '0')
  }

  /**
   * The voice flag string of one site: the drawn integer in binary, padded
   * with '0' on the left to one character per voice.
   */
  function Mask(draw: nat, vCount: nat): (mask: string)
    requires vCount >= 1 && draw < Pow2(vCount)
    ensures |mask| == vCount
    ensures forall i :: 0 <= i < |mask| ==> mask[i] == '0' || mask[i] == '1'
    ensures Ones(mask) == Ones(BinaryString(draw))
  {
    BinaryStringFits(draw, vCount);
    var b := BinaryString(draw);
    OnesOfConcat(Zeros(vCount - |b|), b);
    NoOnesInZeros(vCount - |b|);
    Zeros(vCount - |b|) + b
  }

  // ---------------------------------------------------------------------------
  // The candidate pool

  /**
   * `figure.apply(p)`: a candidate note with its original neighbour, the
   * previous note in the last chord and the next note elsewhere.
   */
  function Figure(vCount: nat, rep: seq<Ordinal>, c: nat, v: nat, p: Ordinal): (f: seq<Ordinal>)
    requires v < vCount && 2 <= ChordNumber(vCount, rep) && c < ChordNumber(vCount, rep)
    ensures |f| == 2
  {
    var melody := Melody(vCount, rep, v);
    if c == ChordNumber(vCount, rep) - 1 then [melody[c - 1], p] else [p, melody[c + 1]]
  }

  /** The two filters on a candidate note p for voice v at chord c. */
  predicate Admissible(voice: string, rep: seq<Ordinal>, c: nat, v: nat, canKeep: bool, p: Ordinal)
    requires v < |voice| && 2 <= ChordNumber(|voice|, rep) && c < ChordNumber(|voice|, rep)
  {
    (canKeep || p != Chord(|voice|, rep, c)[v])
    && MelodicFeasible(voice[v], Figure(|voice|, rep, c, v, p))
  }

  /** Each note lower than every later one: ascending, without repeats. */
  predicate StrictlyAscending(pool: seq<Ordinal>) {
    forall i, j :: 0 <= i < j < |pool| ==> pool[i] < pool[j]
  }

  /** The notes q from p up to high with ok(q), in ascending order. */
  function FilterRange(ok: Ordinal -> bool, p: nat, high: Ordinal): (pool: seq<Ordinal>)
    ensures forall i :: 0 <= i < |pool| ==> p <= pool[i] <= high && ok(pool[i])
    ensures forall q: Ordinal :: p <= q <= high && ok(q) ==> q in pool
    ensures StrictlyAscending(pool)
    decreases high + 1 - p
  {
    if p > high then []
    else
      var rest := FilterRange(ok, p + 1, high);
      if ok(p as Ordinal) then
        var pool := [p as Ordinal] + rest;
        assert forall i :: 1 <= i < |pool| ==> pool[i] == rest[i - 1];
        pool
      else rest
  }

  /**
   * `candidates`: the notes of the voice's register, ascending, that pass
   * the keep filter and are melodically feasible in their figure.
   */
  function Candidates(voice: string, rep: seq<Ordinal>, c: nat, v: nat, canKeep: bool): (pool: seq<Ordinal>)
    requires v < |voice| && IsVoiceLabel(voice[v])
    requires 2 <= ChordNumber(|voice|, rep) && c < ChordNumber(|voice|, rep)
    ensures forall i :: 0 <= i < |pool| ==> IsInRegister(voice[v], pool[i]) == Ok(true)
  {
    var register := RegisterOf(voice[v]);
    FilterRange((q: Ordinal) => Admissible(voice, rep, c, v, canKeep, q), register.low, register.high)
  }

  /**
   * The pool holds exactly the admissible notes of the register, each once,
   * in ascending order.
   */
  lemma CandidatesAreAdmissibleNotes(voice: string, rep: seq<Ordinal>, c: nat, v: nat, canKeep: bool)
    requires v < |voice| && IsVoiceLabel(voice[v])
    requires 2 <= ChordNumber(|voice|, rep) && c < ChordNumber(|voice|, rep)
    ensures forall q: Ordinal :: q in Candidates(voice, rep, c, v, canKeep) <==>
              IsInRegister(voice[v], q) == Ok(true) && Admissible(voice, rep, c, v, canKeep, q)
    ensures StrictlyAscending(Candidates(voice, rep, c, v, canKeep))
  {
    var register := RegisterOf(voice[v]);
    var ok := (q: Ordinal) => Admissible(voice, rep, c, v, canKeep, q);
    assert FilterRange(ok, register.low, register.high) == Candidates(voice, rep, c, v, canKeep);
    forall q: Ordinal
      ensures q in FilterRange(ok, register.low, register.high) <==>
                IsInRegister(voice[v], q) == Ok(true) && Admissible(voice, rep, c, v, canKeep, q)
    {
      FilterRangeMembers(ok, register.low, register.high, q);
      assert ok(q) == Admissible(voice, rep, c, v, canKeep, q);
    }
  }

  /** The notes kept by the filter are exactly those in range that pass it. */
  lemma FilterRangeMembers(ok: Ordinal -> bool, p: nat, high: Ordinal, q: Ordinal)
    ensures q in FilterRange(ok, p, high) <==> p <= q <= high && ok(q)
  {
    var pool := FilterRange(ok, p, high);
    if q in pool {
      var i :| 0 <= i < |pool| && pool[i] == q;
    }
  }

  // ---------------------------------------------------------------------------
  // Flat indices, by repeated addition and subtraction

  /** The flat index `c * vCount + w` of voice w in chord c. */
  function Cell(vCount: nat, c: nat, w: nat): nat {
    if c == 0 then w else vCount + Cell(vCount, c - 1, w)
  }

  /** The chord of flat index k, `k / vCount`. */
  function ChordOf(vCount: nat, k: nat): nat
    requires vCount > 0
    decreases k
  {
    if k < vCount then 0 else 1 + ChordOf(vCount, k - vCount)
  }

  /** The voice of flat index k, `k % vCount`. */
  function VoiceOf(vCount: nat, k: nat): (w: nat)
    requires vCount > 0
    ensures w < vCount
    decreases k
  {
    if k < vCount then k else VoiceOf(vCount, k - vCount)
  }

  lemma {:induction false} CellIsProduct(vCount: nat, c: nat, w: nat)
    ensures Cell(vCount, c, w) == c * vCount + w
  {
    if c > 0 {
      CellIsProduct(vCount, c - 1, w);
    }
  }

  lemma {:induction false} CellSplits(vCount: nat, c: nat, w: nat)
    requires w < vCount
    ensures ChordOf(vCount, Cell(vCount, c, w)) == c && VoiceOf(vCount, Cell(vCount, c, w)) == w
  {
    if c > 0 {
      CellSplits(vCount, c - 1, w);
    }
  }

  lemma {:induction false} CellOfParts(vCount: nat, k: nat)
    requires vCount > 0
    ensures Cell(vCount, ChordOf(vCount, k), VoiceOf(vCount, k)) == k
    decreases k
  {
    if k >= vCount {
      CellOfParts(vCount, k - vCount);
    }
  }

  lemma ChordOfIsQuotient(vCount: nat, k: nat)
    requires vCount > 0
    ensures ChordOf(vCount, k) == k / vCount && VoiceOf(vCount, k) == k % vCount
  {
    CellOfParts(vCount, k);
    CellIsProduct(vCount, ChordOf(vCount, k), VoiceOf(vCount, k));
    DivUnique(k, vCount, ChordOf(vCount, k), VoiceOf(vCount, k));
  }

  /** A cell of a chord of the genome lies inside the genome, where `Chord` reads it. */
  lemma CellInGenome(vCount: nat, rep: seq<Ordinal>, c: nat, w: nat)
    requires vCount > 0 && c < ChordNumber(vCount, rep) && w < vCount
    ensures Cell(vCount, c, w) < |rep|
    ensures Chord(vCount, rep, c)[w] == rep[Cell(vCount, c, w)]
  {
    CellIsProduct(vCount, c, w);
    SlotInBounds(|rep|, vCount, c, w);
  }

  // ---------------------------------------------------------------------------
  // Draws and the outcome they determine

  /**
   * The random draws of one `getMutation` call: the chord indices in the
   * order the distinct stream yields them, the accepted mask integer of each
   * site, and for each site one pool index per voice (read only for flagged
   * voices).
   */
  datatype Draws = Draws(loci: seq<nat>, masks: seq<nat>, picks: seq<seq<nat>>)

  predicate Distinct(s: seq<nat>) {
    forall i, j :: 0 <= i < j < |s| ==> s[i] != s[j]
  }

  /** The ranges `R.nextInt` keeps the draws in. */
  predicate Shaped(voice: string, rep: seq<Ordinal>, canKeep: bool, d: Draws)
    requires |voice| > 0
  {
    var n := ChordNumber(|voice|, rep);
    (forall j :: 0 <= j < |d.loci| ==> d.loci[j] < n)
    && |d.masks| == |d.loci| && (forall j :: 0 <= j < |d.masks| ==> d.masks[j] < Pow2(|voice|))
    && |d.picks| == |d.loci| && (forall j :: 0 <= j < |d.picks| ==> |d.picks[j]| == |voice|)
  }

  /** Every pool index lies below the size of its pool, when that pool is drawn from. */
  predicate PicksFit(voice: string, rep: seq<Ordinal>, canKeep: bool, d: Draws)
    requires |voice| > 0 && Shaped(voice, rep, canKeep, d)
  {
    forall j, v :: 0 <= j < |d.loci| && 0 <= v < |voice| && 2 <= ChordNumber(|voice|, rep) && IsVoiceLabel(voice[v])
      && |Candidates(voice, rep, d.loci[j], v, canKeep)| > 0
      ==> d.picks[j][v] < |Candidates(voice, rep, d.loci[j], v, canKeep)|
  }

  /**
   * Draws the generators can deliver for `mLoci` sites of `mVoices` voices:
   * distinct chord indices (none are drawn when there is no chord) and
   * masks whose binary form has exactly `mVoices` ones.
   */
  predicate WellDrawn(voice: string, rep: seq<Ordinal>, mLoci: nat, mVoices: nat, canKeep: bool, d: Draws)
    requires |voice| > 0
  {
    Shaped(voice, rep, canKeep, d)
    && PicksFit(voice, rep, canKeep, d)
    && |d.loci| == (if ChordNumber(|voice|, rep) == 0 then 0 else mLoci)
    && Distinct(d.loci)
    && forall j :: 0 <= j < |d.masks| ==> Ones(BinaryString(d.masks[j])) == mVoices
  }

  /** Whether voice v is flagged at site j. */
  predicate Flag(voice: string, rep: seq<Ordinal>, canKeep: bool, d: Draws, j: nat, v: nat)
    requires |voice| > 0 && Shaped(voice, rep, canKeep, d) && j < |d.loci| && v < |voice|
  {
    Mask(d.masks[j], |voice|)[v] == '1'
  }

  /** The first position of x in s, or -1. */
  function IndexOf(s: seq<nat>, x: nat): (i: int)
    ensures -1 <= i < |s|
    ensures i >= 0 ==> s[i] == x && forall m :: 0 <= m < i ==> s[m] != x
    ensures i < 0 <==> x !in s
  {
    if |s| == 0 then -1
    else if s[0] == x then 0
    else var r := IndexOf(s[1..], x); if r < 0 then -1 else r + 1
  }

  lemma IndexOfDistinct(s: seq<nat>, j: nat)
    requires Distinct(s) && j < |s|
    ensures IndexOf(s, s[j]) == j
  {
  }

  /**
   * The note written for voice v at site j. On a site that fails (one chord,
   * or an empty pool) nothing is written, and the original note stands in.
   */
  function NewValue(voice: string, rep: seq<Ordinal>, canKeep: bool, d: Draws, j: nat, v: nat): Ordinal
    requires |voice| > 0 && Shaped(voice, rep, canKeep, d) && j < |d.loci| && v < |voice|
  {
    var c := d.loci[j];
    if 2 <= ChordNumber(|voice|, rep) && IsVoiceLabel(voice[v])
       && d.picks[j][v] < |Candidates(voice, rep, c, v, canKeep)|
    then Candidates(voice, rep, c, v, canKeep)[d.picks[j][v]]
    else CellInGenome(|voice|, rep, c, v); rep[Cell(|voice|, c, v)]
  }

  /**
   * Gene k once the sites before J, and the voices before W of site J, have
   * been processed.
   */
  function Partial(voice: string, rep: seq<Ordinal>, canKeep: bool, d: Draws, k: nat, J: nat, W: nat): Ordinal
    requires |voice| > 0 && Shaped(voice, rep, canKeep, d) && k < |rep|
  {
    var c := ChordOf(|voice|, k);
    var w := VoiceOf(|voice|, k);
    var j := IndexOf(d.loci, c);
    if 0 <= j && (j < J || (j == J && w < W)) && Flag(voice, rep, canKeep, d, j, w)
    then NewValue(voice, rep, canKeep, d, j, w)
    else rep[k]
  }

  /** The genome after every site has been processed. */
  function Mutated(voice: string, rep: seq<Ordinal>, canKeep: bool, d: Draws): (out: seq<Ordinal>)
    requires |voice| > 0 && Shaped(voice, rep, canKeep, d)
    ensures |out| == |rep|
  {
    seq(|rep|, k requires 0 <= k < |rep| => Partial(voice, rep, canKeep, d, k, |d.loci|, 0))
  }

  /** Whether some flagged voice makes the call throw: a one-chord genome, or an empty pool. */
  predicate SiteFails(voice: string, rep: seq<Ordinal>, canKeep: bool, d: Draws, j: nat, v: nat)
    requires |voice| > 0 && Shaped(voice, rep, canKeep, d) && j < |d.loci| && v < |voice|
  {
    Flag(voice, rep, canKeep, d, j, v)
    && (ChordNumber(|voice|, rep) < 2
        || (IsVoiceLabel(voice[v]) && |Candidates(voice, rep, d.loci[j], v, canKeep)| == 0))
  }

  /** The call throws: no chord to draw from, or some flagged voice fails. */
  predicate Fails(voice: string, rep: seq<Ordinal>, mLoci: nat, canKeep: bool, d: Draws)
    requires |voice| > 0 && Shaped(voice, rep, canKeep, d)
  {
    (ChordNumber(|voice|, rep) == 0 && mLoci > 0)
    || exists j, v :: 0 <= j < |d.loci| && 0 <= v < |voice| && SiteFails(voice, rep, canKeep, d, j, v)
  }

  // ---------------------------------------------------------------------------
  // The loop

  /** Visiting voice v of site j settles the cell of chord `d.loci[j]`, voice v. */
  lemma PartialAtCell(voice: string, rep: seq<Ordinal>, canKeep: bool, d: Draws, j: nat, v: nat)
    requires |voice| > 0 && Shaped(voice, rep, canKeep, d) && Distinct(d.loci)
    requires j < |d.loci| && v < |voice|
    ensures Cell(|voice|, d.loci[j], v) < |rep|
    ensures Partial(voice, rep, canKeep, d, Cell(|voice|, d.loci[j], v), j, v + 1)
            == if Flag(voice, rep, canKeep, d, j, v) then NewValue(voice, rep, canKeep, d, j, v)
               else rep[Cell(|voice|, d.loci[j], v)]
    ensures Partial(voice, rep, canKeep, d, Cell(|voice|, d.loci[j], v), j, v) == rep[Cell(|voice|, d.loci[j], v)]
  {
    CellInGenome(|voice|, rep, d.loci[j], v);
    CellSplits(|voice|, d.loci[j], v);
    IndexOfDistinct(d.loci, j);
  }

  /** Visiting voice v of site j leaves every other cell as it was. */
  lemma PartialElsewhere(voice: string, rep: seq<Ordinal>, canKeep: bool, d: Draws, j: nat, v: nat, k: nat)
    requires |voice| > 0 && Shaped(voice, rep, canKeep, d) && Distinct(d.loci)
    requires j < |d.loci| && v < |voice| && k < |rep| && k != Cell(|voice|, d.loci[j], v)
    ensures Partial(voice, rep, canKeep, d, k, j, v + 1) == Partial(voice, rep, canKeep, d, k, j, v)
  {
    CellOfParts(|voice|, k);
  }

  lemma SiteDone(voice: string, rep: seq<Ordinal>, canKeep: bool, d: Draws, j: nat)
    requires |voice| > 0 && Shaped(voice, rep, canKeep, d)
    ensures forall k :: 0 <= k < |rep| ==>
              Partial(voice, rep, canKeep, d, k, j, |voice|) == Partial(voice, rep, canKeep, d, k, j + 1, 0)
  {
  }

  /** A valid genome with at least one chord names a register for every voice. */
  lemma LabelsOfValidGenome(voice: string, rep: seq<Ordinal>)
    requires |voice| > 0 && IsValidGenome(voice, rep) && ChordNumber(|voice|, rep) >= 1
    ensures forall v :: 0 <= v < |voice| ==> IsVoiceLabel(voice[v])
  {
    forall v | 0 <= v < |voice| ensures IsVoiceLabel(voice[v]) {
      DivUnique(v, |voice|, 0, v);
      assert IsInRegister(voice[v % |voice|], rep[v]) == Ok(true);
    }
  }

  /** After voice v of site j, the genes agree with `Partial` one voice further. */
  lemma VisitStep(voice: string, rep: seq<Ordinal>, canKeep: bool, d: Draws, genes: seq<Ordinal>, j: nat, v: nat)
    requires |voice| > 0 && Shaped(voice, rep, canKeep, d) && Distinct(d.loci)
    requires j < |d.loci| && v < |voice| && |genes| == |rep|
    requires forall k :: 0 <= k < |rep| ==> genes[k] == Partial(voice, rep, canKeep, d, k, j, v)
    ensures Cell(|voice|, d.loci[j], v) < |rep|
    ensures var next := if Flag(voice, rep, canKeep, d, j, v)
                        then genes[Cell(|voice|, d.loci[j], v) := NewValue(voice, rep, canKeep, d, j, v)]
                        else genes;
            forall k :: 0 <= k < |rep| ==> next[k] == Partial(voice, rep, canKeep, d, k, j, v + 1)
  {
    PartialAtCell(voice, rep, canKeep, d, j, v);
    forall k | 0 <= k < |rep| && k != Cell(|voice|, d.loci[j], v)
      ensures Partial(voice, rep, canKeep, d, k, j, v + 1) == Partial(voice, rep, canKeep, d, k, j, v)
    {
      PartialElsewhere(voice, rep, canKeep, d, j, v, k);
    }
  }

  /**
   * The body of the per-voice `forEach`: a flagged voice gets the pool
   * member its draw picks; an unflagged voice is skipped.
   */
  method VisitVoice(voice: string, rep: seq<Ordinal>, canKeep: bool, d: Draws, genes: seq<Ordinal>, j: nat, v: nat)
    returns (r: Result<seq<Ordinal>, Failure>)
    requires |voice| > 0 && Shaped(voice, rep, canKeep, d) && PicksFit(voice, rep, canKeep, d)
    requires Distinct(d.loci) && j < |d.loci| && v < |voice| && IsVoiceLabel(voice[v])
    requires |genes| == |rep|
    requires forall k :: 0 <= k < |rep| ==> genes[k] == Partial(voice, rep, canKeep, d, k, j, v)
    ensures r.Err? <==> SiteFails(voice, rep, canKeep, d, j, v)
    ensures r.Err? ==> r.error == (if ChordNumber(|voice|, rep) < 2 then IndexOutOfBounds else IllegalArgument)
    ensures r.Ok? ==> |r.value| == |rep|
    ensures r.Ok? ==> forall k :: 0 <= k < |rep| ==> r.value[k] == Partial(voice, rep, canKeep, d, k, j, v + 1)
  {
    VisitStep(voice, rep, canKeep, d, genes, j, v);
    if Mask(d.masks[j], |voice|)[v] != '1' {
      return Ok(genes);
    }
    if ChordNumber(|voice|, rep) < 2 {
      return Err(IndexOutOfBounds);
    }
    var pool := Candidates(voice, rep, d.loci[j], v, canKeep);
    if |pool| == 0 {
      return Err(IllegalArgument);
    }
    var note := pool[d.picks[j][v]];
    assert note == NewValue(voice, rep, canKeep, d, j, v);
    return Ok(genes[Cell(|voice|, d.loci[j], v) := note]);
  }

  /** One site: every voice of site j in turn. */
  method MutateSite(voice: string, rep: seq<Ordinal>, canKeep: bool, d: Draws, genes: seq<Ordinal>, j: nat)
    returns (r: Result<seq<Ordinal>, Failure>)
    requires |voice| > 0 && Shaped(voice, rep, canKeep, d) && PicksFit(voice, rep, canKeep, d)
    requires Distinct(d.loci) && j < |d.loci|
    requires forall v :: 0 <= v < |voice| ==> IsVoiceLabel(voice[v])
    requires |genes| == |rep|
    requires forall k :: 0 <= k < |rep| ==> genes[k] == Partial(voice, rep, canKeep, d, k, j, 0)
    ensures r.Err? <==> exists v :: 0 <= v < |voice| && SiteFails(voice, rep, canKeep, d, j, v)
    ensures r.Err? ==> r.error == (if ChordNumber(|voice|, rep) < 2 then IndexOutOfBounds else IllegalArgument)
    ensures r.Ok? ==> |r.value| == |rep|
    ensures r.Ok? ==> forall k :: 0 <= k < |rep| ==> r.value[k] == Partial(voice, rep, canKeep, d, k, j + 1, 0)
  {
    var current := genes;
    for v := 0 to |voice|
      invariant |current| == |rep|
      invariant forall k :: 0 <= k < |rep| ==> current[k] == Partial(voice, rep, canKeep, d, k, j, v)
      invariant forall w :: 0 <= w < v ==> !SiteFails(voice, rep, canKeep, d, j, w)
    {
      var visited := VisitVoice(voice, rep, canKeep, d, current, j, v);
      if visited.Err? {
        return Err(visited.error);
      }
      current := visited.value;
    }
    SiteDone(voice, rep, canKeep, d, j);
    return Ok(current);
  }

  /**
   * `getMutation` on the genes: copy the genome, then for every site and
   * every flagged voice overwrite the cell with the drawn pool member.
   */
  method MutateGenes(voice: string, rep: seq<Ordinal>, mLoci: nat, mVoices: nat, canKeep: bool, d: Draws)
    returns (r: Result<seq<Ordinal>, Failure>)
    requires |voice| > 0 && IsValidGenome(voice, rep)
    requires WellDrawn(voice, rep, mLoci, mVoices, canKeep, d)
    ensures r.Err? <==> Fails(voice, rep, mLoci, canKeep, d)
    ensures r.Err? ==> r.error == (if ChordNumber(|voice|, rep) == 1 then IndexOutOfBounds else IllegalArgument)
    ensures r.Ok? ==> r.value == Mutated(voice, rep, canKeep, d)
  {
    var n := ChordNumber(|voice|, rep);
    if n == 0 && mLoci > 0 {
      return Err(IllegalArgument);
    }
    if |d.loci| == 0 {
      assert rep == Mutated(voice, rep, canKeep, d);
      return Ok(rep);
    }
    LabelsOfValidGenome(voice, rep);
    var genes := rep;
    for j := 0 to |d.loci|
      invariant |genes| == |rep|
      invariant forall k :: 0 <= k < |rep| ==> genes[k] == Partial(voice, rep, canKeep, d, k, j, 0)
      invariant forall j', w :: 0 <= j' < j && 0 <= w < |voice| ==> !SiteFails(voice, rep, canKeep, d, j', w)
    {
      var site := MutateSite(voice, rep, canKeep, d, genes, j);
      if site.Err? {
        return Err(site.error);
      }
      genes := site.value;
    }
    assert genes == Mutated(voice, rep, canKeep, d);
    return Ok(genes);
  }

  // ---------------------------------------------------------------------------
  // What the mutated genome is

  /** The cell of chord c, voice w after the call: the drawn note when c was a site that flagged w. */
  lemma MutatedAt(voice: string, rep: seq<Ordinal>, canKeep: bool, d: Draws, c: nat, w: nat)
    requires |voice| > 0 && Shaped(voice, rep, canKeep, d) && Distinct(d.loci)
    requires c < ChordNumber(|voice|, rep) && w < |voice|
    ensures Cell(|voice|, c, w) < |rep|
    ensures var j := IndexOf(d.loci, c);
            Mutated(voice, rep, canKeep, d)[Cell(|voice|, c, w)]
            == if j >= 0 && Flag(voice, rep, canKeep, d, j, w) then NewValue(voice, rep, canKeep, d, j, w)
               else rep[Cell(|voice|, c, w)]
  {
    CellInGenome(|voice|, rep, c, w);
    CellSplits(|voice|, c, w);
  }

  /** The note written at a flagged voice stays in that voice's register. */
  lemma NewValueInRegister(voice: string, rep: seq<Ordinal>, canKeep: bool, d: Draws, j: nat, v: nat)
    requires |voice| > 0 && IsValidGenome(voice, rep) && Shaped(voice, rep, canKeep, d)
    requires j < |d.loci| && v < |voice|
    ensures IsInRegister(voice[v], NewValue(voice, rep, canKeep, d, j, v)) == Ok(true)
  {
    var c := d.loci[j];
    CellInGenome(|voice|, rep, c, v);
    CellIsProduct(|voice|, c, v);
    DivUnique(Cell(|voice|, c, v), |voice|, c, v);
    assert IsInRegister(voice[Cell(|voice|, c, v) % |voice|], rep[Cell(|voice|, c, v)]) == Ok(true);
  }

  /**
   * Only flagged voices at drawn chords change: gene k differs from the
   * original only if chord k / |voice| is a site whose mask flags voice
   * k % |voice|.
   */
  lemma MutationIsLocal(voice: string, rep: seq<Ordinal>, canKeep: bool, d: Draws, k: nat)
    requires |voice| > 0 && Shaped(voice, rep, canKeep, d) && Distinct(d.loci) && k < |rep|
    ensures Mutated(voice, rep, canKeep, d)[k] != rep[k] ==>
              exists j :: 0 <= j < |d.loci| && d.loci[j] == k / |voice| && Flag(voice, rep, canKeep, d, j, k % |voice|)
  {
    ChordOfIsQuotient(|voice|, k);
  }

  /** The mutated genome passes the register check of the `Individual` constructor. */
  lemma MutatedIsValid(voice: string, rep: seq<Ordinal>, canKeep: bool, d: Draws)
    requires |voice| > 0 && IsValidGenome(voice, rep) && Shaped(voice, rep, canKeep, d)
    ensures IsValidGenome(voice, Mutated(voice, rep, canKeep, d))
  {
    var out := Mutated(voice, rep, canKeep, d);
    forall k | 0 <= k < |out|
      ensures IsInRegister(voice[k % |voice|], out[k]) == Ok(true)
    {
      ChordOfIsQuotient(|voice|, k);
      var j := IndexOf(d.loci, ChordOf(|voice|, k));
      if j >= 0 && Flag(voice, rep, canKeep, d, j, VoiceOf(|voice|, k)) {
        NewValueInRegister(voice, rep, canKeep, d, j, VoiceOf(|voice|, k));
      }
    }
  }

  /**
   * When the call succeeds, each flagged voice of each site holds a note of
   * its register that moves feasibly to or from the ORIGINAL neighbouring
   * note of its melody and, unless `canKeep`, differs from the original.
   */
  lemma WrittenNotesPassFilters(voice: string, rep: seq<Ordinal>, mLoci: nat, mVoices: nat, canKeep: bool,
                                d: Draws, j: nat, v: nat)
    requires |voice| > 0 && IsValidGenome(voice, rep)
    requires WellDrawn(voice, rep, mLoci, mVoices, canKeep, d) && !Fails(voice, rep, mLoci, canKeep, d)
    requires j < |d.loci| && v < |voice| && Flag(voice, rep, canKeep, d, j, v)
    ensures 2 <= ChordNumber(|voice|, rep)
    ensures var note := Chord(|voice|, Mutated(voice, rep, canKeep, d), d.loci[j])[v];
            IsInRegister(voice[v], note) == Ok(true)
            && Admissible(voice, rep, d.loci[j], v, canKeep, note)
            && (!canKeep ==> note != Chord(|voice|, rep, d.loci[j])[v])
  {
    var c := d.loci[j];
    assert !SiteFails(voice, rep, canKeep, d, j, v);
    LabelsOfValidGenome(voice, rep);
    CandidatesAreAdmissibleNotes(voice, rep, c, v, canKeep);
    var note := NewValue(voice, rep, canKeep, d, j, v);
    assert note in Candidates(voice, rep, c, v, canKeep);
    IndexOfDistinct(d.loci, j);
    MutatedAt(voice, rep, canKeep, d, c, v);
    CellInGenome(|voice|, Mutated(voice, rep, canKeep, d), c, v);
  }

  /** A string of binary digits has as many ones as it has positions holding '1'. */
  lemma {:induction false} OnesCountsPositions(s: string)
    ensures Ones(s) == |set i | 0 <= i < |s| && s[i] == '1'|
  {
    if |s| > 0 {
      var n := |s| - 1;
      OnesCountsPositions(s[..n]);
      OnesOfConcat(s[..n], [s[n]]);
      assert s[..n] + [s[n]] == s;
      assert Ones([s[n]]) == if s[n] == '1' then 1 else 0 by {
        assert [s[n]][1..] == [];
      }
      var before := set i | 0 <= i < n && s[..n][i] == '1';
      var all := set i | 0 <= i < |s| && s[i] == '1';
      if s[n] == '1' {
        assert all == before + {n};
      } else {
        assert all == before;
      }
    }
  }

  /** Each site flags exactly `mVoices` voices. */
  lemma SiteFlagsMVoices(voice: string, rep: seq<Ordinal>, mLoci: nat, mVoices: nat, canKeep: bool, d: Draws, j: nat)
    requires |voice| > 0 && WellDrawn(voice, rep, mLoci, mVoices, canKeep, d) && j < |d.loci|
    ensures |set v | 0 <= v < |voice| && Flag(voice, rep, canKeep, d, j, v)| == mVoices
  {
    var mask := Mask(d.masks[j], |voice|);
    OnesCountsPositions(mask);
    assert (set v | 0 <= v < |voice| && Flag(voice, rep, canKeep, d, j, v))
           == set i | 0 <= i < |mask| && mask[i] == '1';
  }

  // ---------------------------------------------------------------------------
  // The policy

  /**
   * `getMutation(idv, mLoci, mVoices, canKeep)`: the mutated genes become a
   * new individual under the same globals.
   */
  method GetMutation(idv: Individual, mLoci: nat, mVoices: nat, canKeep: bool, d: Draws)
    returns (r: Result<Individual, Failure>)
    requires idv.WellFormed()
    requires WellDrawn(idv.statics.voice, idv.representation, mLoci, mVoices, canKeep, d)
    ensures r.Err? <==> Fails(idv.statics.voice, idv.representation, mLoci, canKeep, d)
    ensures r.Err? ==> r.error == (if ChordNumber(|idv.statics.voice|, idv.representation) == 1
                                  then IndexOutOfBounds else IllegalArgument)
    ensures r.Ok? ==> fresh(r.value) && r.value.Valid() && r.value.statics == idv.statics
                      && r.value.representation == Mutated(idv.statics.voice, idv.representation, canKeep, d)
  {
    var genes := MutateGenes(idv.statics.voice, idv.representation, mLoci, mVoices, canKeep, d);
    if genes.Err? {
      return Err(genes.error);
    }
    MutatedIsValid(idv.statics.voice, idv.representation, canKeep, d);
    var mutant := new Individual(idv.statics, genes.value);
    return Ok(mutant);
  }

  /** The two constructor arguments: the bounds on the number of sites and of voices per site. */
  datatype MutationPolicy = MutationByChord(maxLoci: int, maxVoices: int)

  /**
   * `mutate`: anything but an individual is refused; otherwise the number of
   * voices and then of sites is drawn from [1, max], which `R.nextInt`
   * refuses for a bound below one, and `getMutation` runs with `canKeep`.
   */
  method Mutate(policy: MutationPolicy, original: ObjectRef, voiceDraw: nat, lociDraw: nat, d: Draws)
    returns (r: Result<Individual, Failure>)
    requires original.Ind? ==> original.individual.WellFormed()
    requires original.Ind? && policy.maxVoices > 0 && policy.maxLoci > 0 ==>
               voiceDraw < policy.maxVoices && lociDraw < policy.maxLoci
               && WellDrawn(original.individual.statics.voice, original.individual.representation,
                            lociDraw + 1, voiceDraw + 1, true, d)
    ensures r.Err? <==> !original.Ind? || policy.maxVoices <= 0 || policy.maxLoci <= 0
                        || Fails(original.individual.statics.voice, original.individual.representation,
                                 lociDraw + 1, true, d)
    ensures r.Ok? ==> original.Ind? && fresh(r.value) && r.value.Valid()
                      && r.value.statics == original.individual.statics
                      && r.value.representation
                         == Mutated(original.individual.statics.voice, original.individual.representation, true, d)
  {
    if !original.Ind? || policy.maxVoices <= 0 || policy.maxLoci <= 0 {
      return Err(IllegalArgument);
    }
    r := GetMutation(original.individual, lociDraw + 1, voiceDraw + 1, true, d);
  }
}

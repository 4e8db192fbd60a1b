/**
 * `CrossoverByChord`: the chordal splice of two parents at a locus, and the
 * choice between it and the library's uniform crossover.
 */
module Crossover {
  import opened Wrappers
  import opened Pitch
  import opened Genome
  import opened Individuals

  /**
   * The first `n` chords of a child: chords before `locus` come from `a`,
   * the others from `b`, each gene staying at its own position.
   */
  function Splice(vCount: nat, a: seq<Ordinal>, b: seq<Ordinal>, locus: nat, n: nat): (child: seq<Ordinal>)
    requires vCount > 0 && n * vCount <= |a| && n * vCount <= |b|
    ensures |child| == n * vCount
    ensures forall k :: 0 <= k < |child| ==> child[k] == a[k] || child[k] == b[k]
  {
    seq(n * vCount, k requires 0 <= k < n * vCount => if k / vCount < locus then a[k] else b[k])
  }

  lemma ChordsFit(vCount: nat, n: nat, len: nat)
    requires vCount > 0 && n <= len / vCount
    ensures n * vCount <= len
  {
    assert (len / vCount) * vCount <= len;
    assert (len / vCount - n) * vCount >= 0;
  }

  /** Appending chord i of the right parent extends the splice by one chord. */
  lemma SpliceStep(vCount: nat, a: seq<Ordinal>, b: seq<Ordinal>, locus: nat, i: nat)
    requires vCount > 0 && i < ChordNumber(vCount, a) && i < ChordNumber(vCount, b)
    ensures (i + 1) * vCount <= |a| && (i + 1) * vCount <= |b|
    ensures Splice(vCount, a, b, locus, i + 1)
            == Splice(vCount, a, b, locus, i) + (if i < locus then Chord(vCount, a, i) else Chord(vCount, b, i))
  {
    ChordsFit(vCount, i + 1, |a|);
    ChordsFit(vCount, i + 1, |b|);
    var next := if i < locus then Chord(vCount, a, i) else Chord(vCount, b, i);
    var lhs := Splice(vCount, a, b, locus, i + 1);
    var rhs := Splice(vCount, a, b, locus, i) + next;
    assert |lhs| == |rhs|;
    forall k | 0 <= k < |lhs| ensures lhs[k] == rhs[k] {
      if k >= i * vCount {
        DivUnique(k, vCount, i, k - i * vCount);
        assert rhs[k] == next[k - i * vCount];
      }
    }
  }

  /** Chord i of a child is chord i of the parent the locus assigns it to. */
  lemma SpliceTakesWholeChords(vCount: nat, a: seq<Ordinal>, b: seq<Ordinal>, locus: nat, n: nat, i: nat)
    requires vCount > 0 && n <= ChordNumber(vCount, a) && n <= ChordNumber(vCount, b) && i < n
    ensures n * vCount <= |a| && n * vCount <= |b|
    ensures ChordNumber(vCount, Splice(vCount, a, b, locus, n)) == n
    ensures Chord(vCount, Splice(vCount, a, b, locus, n), i)
            == if i < locus then Chord(vCount, a, i) else Chord(vCount, b, i)
  {
    ChordsFit(vCount, n, |a|);
    ChordsFit(vCount, n, |b|);
    ProductDividesBack(n, vCount);
    var child := Splice(vCount, a, b, locus, n);
    var lhs := Chord(vCount, child, i);
    var rhs := if i < locus then Chord(vCount, a, i) else Chord(vCount, b, i);
    forall j | 0 <= j < vCount ensures lhs[j] == rhs[j] {
      SlotInBounds(|child|, vCount, i, j);
      DivUnique(i * vCount + j, vCount, i, j);
    }
  }

  /**
   * At every position the two children hold the two parents' genes, one
   * each, so the pair of children carries exactly the parents' genes.
   */
  lemma SpliceExchangesGenes(vCount: nat, a: seq<Ordinal>, b: seq<Ordinal>, locus: nat, n: nat)
    requires vCount > 0 && n * vCount <= |a| && n * vCount <= |b|
    ensures forall k :: 0 <= k < n * vCount ==>
              multiset{Splice(vCount, a, b, locus, n)[k], Splice(vCount, b, a, locus, n)[k]} == multiset{a[k], b[k]}
    ensures multiset(Splice(vCount, a, b, locus, n)) + multiset(Splice(vCount, b, a, locus, n))
            == multiset(a[..n * vCount]) + multiset(b[..n * vCount])
  {
    var c1 := Splice(vCount, a, b, locus, n);
    var c2 := Splice(vCount, b, a, locus, n);
    ExchangeByPosition(c1, c2, a[..n * vCount], b[..n * vCount]);
  }

  lemma {:induction false} ExchangeByPosition<T>(c1: seq<T>, c2: seq<T>, a: seq<T>, b: seq<T>)
    requires |c1| == |c2| == |a| == |b|
    requires forall k :: 0 <= k < |a| ==> (c1[k] == a[k] && c2[k] == b[k]) || (c1[k] == b[k] && c2[k] == a[k])
    ensures multiset(c1) + multiset(c2) == multiset(a) + multiset(b)
  {
    if |a| > 0 {
      var m := |a| - 1;
      ExchangeByPosition(c1[..m], c2[..m], a[..m], b[..m]);
      MultisetOfSnoc(c1);
      MultisetOfSnoc(c2);
      MultisetOfSnoc(a);
      MultisetOfSnoc(b);
      calc {
        multiset(c1) + multiset(c2);
        (multiset(c1[..m]) + multiset{c1[m]}) + (multiset(c2[..m]) + multiset{c2[m]});
        (multiset(c1[..m]) + multiset(c2[..m])) + (multiset{c1[m]} + multiset{c2[m]});
        { assert multiset{c1[m]} + multiset{c2[m]} == multiset{a[m]} + multiset{b[m]}; }
        (multiset(a[..m]) + multiset(b[..m])) + (multiset{a[m]} + multiset{b[m]});
        (multiset(a[..m]) + multiset{a[m]}) + (multiset(b[..m]) + multiset{b[m]});
      }
    }
  }

  lemma MultisetOfSnoc<T>(s: seq<T>)
    requires |s| > 0
    ensures multiset(s) == multiset(s[..|s| - 1]) + multiset{s[|s| - 1]}
  {
    assert s == s[..|s| - 1] + [s[|s| - 1]];
  }

  /** Children of parents that pass the register check pass it too. */
  lemma SpliceKeepsRegisters(voice: string, a: seq<Ordinal>, b: seq<Ordinal>, locus: nat, n: nat)
    requires |voice| > 0 && n * |voice| <= |a| && n * |voice| <= |b|
    requires IsValidGenome(voice, a) && IsValidGenome(voice, b)
    ensures IsValidGenome(voice, Splice(|voice|, a, b, locus, n))
  {
  }

  /** The loop of `CHORDAL`: both children start with their own parent's first chord and grow chord by chord. */
  method SpliceChords(vCount: nat, a: seq<Ordinal>, b: seq<Ordinal>, locus: nat) returns (c1: seq<Ordinal>, c2: seq<Ordinal>)
    requires vCount > 0 && locus >= 1 && 1 <= ChordNumber(vCount, a) <= ChordNumber(vCount, b)
    ensures ChordNumber(vCount, a) * vCount <= |a| && ChordNumber(vCount, a) * vCount <= |b|
    ensures c1 == Splice(vCount, a, b, locus, ChordNumber(vCount, a))
    ensures c2 == Splice(vCount, b, a, locus, ChordNumber(vCount, a))
  {
    var n := ChordNumber(vCount, a);
    ChordsFit(vCount, n, |a|);
    ChordsFit(vCount, n, |b|);
    SpliceStep(vCount, a, b, locus, 0);
    SpliceStep(vCount, b, a, locus, 0);
    c1 := Chord(vCount, a, 0);
    c2 := Chord(vCount, b, 0);
    for i := 1 to n
      invariant i * vCount <= |a| && i * vCount <= |b|
      invariant c1 == Splice(vCount, a, b, locus, i)
      invariant c2 == Splice(vCount, b, a, locus, i)
    {
      SpliceStep(vCount, a, b, locus, i);
      SpliceStep(vCount, b, a, locus, i);
      c1 := c1 + (if i < locus then Chord(vCount, a, i) else Chord(vCount, b, i));
      c2 := c2 + (if i < locus then Chord(vCount, b, i) else Chord(vCount, a, i));
    }
  }

  /**
   * `CHORDAL`: both arguments must be individuals; the locus is drawn from
   * [1, C - 1] for the first parent's chord count C, and the second parent
   * must have at least C chords.
   */
  method Chordal(first: ObjectRef, second: ObjectRef, draw: nat) returns (r: Result<(Individual, Individual), Failure>)
    requires first.Ind? ==> first.individual.WellFormed()
    requires second.Ind? ==> second.individual.WellFormed()
    requires first.Ind? && second.Ind? ==> first.individual.statics == second.individual.statics
    requires first.Ind? && ChordNumber(|first.individual.statics.voice|, first.individual.representation) >= 2 ==>
               draw < ChordNumber(|first.individual.statics.voice|, first.individual.representation) - 1
    ensures r.Err? <==>
              !first.Ind? || !second.Ind?
              || ChordNumber(|first.individual.statics.voice|, first.individual.representation) < 2
              || ChordNumber(|first.individual.statics.voice|, second.individual.representation)
                 < ChordNumber(|first.individual.statics.voice|, first.individual.representation)
    ensures r.Err? && first.Ind? && second.Ind?
            && ChordNumber(|first.individual.statics.voice|, first.individual.representation) >= 2
            ==> r.error == IndexOutOfBounds
    ensures r.Err? && !(first.Ind? && second.Ind?
                        && ChordNumber(|first.individual.statics.voice|, first.individual.representation) >= 2)
            ==> r.error == IllegalArgument
    ensures r.Ok? ==>
              var (p1, p2) := (first.individual, second.individual);
              var vCount := |p1.statics.voice|;
              var n := ChordNumber(vCount, p1.representation);
              n * vCount <= |p1.representation| && n * vCount <= |p2.representation|
              && fresh(r.value.0) && fresh(r.value.1)
              && r.value.0.Valid() && r.value.1.Valid()
              && r.value.0.statics == p1.statics && r.value.1.statics == p1.statics
              && r.value.0.representation == Splice(vCount, p1.representation, p2.representation, draw + 1, n)
              && r.value.1.representation == Splice(vCount, p2.representation, p1.representation, draw + 1, n)
  {
    if !first.Ind? || !second.Ind? {
      return Err(IllegalArgument);
    }
    var p1 := first.individual;
    var p2 := second.individual;
    var vCount := |p1.statics.voice|;
    var n := ChordNumber(vCount, p1.representation);
    if n < 2 {
      return Err(IllegalArgument);
    }
    if ChordNumber(vCount, p2.representation) < n {
      return Err(IndexOutOfBounds);
    }
    var locus := draw + 1;
    var c1, c2 := SpliceChords(vCount, p1.representation, p2.representation, locus);
    SpliceKeepsRegisters(p1.statics.voice, p1.representation, p2.representation, locus, n);
    SpliceKeepsRegisters(p1.statics.voice, p2.representation, p1.representation, locus, n);
    var child1 := new Individual(p1.statics, c1);
    var child2 := new Individual(p1.statics, c2);
    return Ok((child1, child2));
  }

  /** The genomes of the two children of a successful chordal splice at locus `draw + 1`. */
  function ChordalGenomes(p1: Individual, p2: Individual, draw: nat): (g: Option<(seq<Ordinal>, seq<Ordinal>)>)
    requires |p1.statics.voice| > 0
    ensures g.Some? <==> 2 <= ChordNumber(|p1.statics.voice|, p1.representation)
                         <= ChordNumber(|p1.statics.voice|, p2.representation)
  {
    var vCount := |p1.statics.voice|;
    var n := ChordNumber(vCount, p1.representation);
    if n < 2 || ChordNumber(vCount, p2.representation) < n then None
    else
      ChordsFit(vCount, n, |p1.representation|);
      ChordsFit(vCount, n, |p2.representation|);
      Some((Splice(vCount, p1.representation, p2.representation, draw + 1, n),
            Splice(vCount, p2.representation, p1.representation, draw + 1, n)))
  }

  /** The two constructor arguments: the chance of a chordal splice and the uniform mixing ratio. */
  datatype CrossoverPolicy = CrossoverByChord(byChordRatio: real, uniformRatio: real)

  /** The constructor without arguments. */
  const DEFAULT_POLICY: CrossoverPolicy := CrossoverByChord(1.0, 0.0)

  /** `crossover` splices when the draw in [0, 1) falls below the chordal ratio. */
  predicate UsesChordal(policy: CrossoverPolicy, dice: real) {
    dice < policy.byChordRatio
  }

  /** The policy built without arguments always splices. */
  lemma DefaultPolicyAlwaysSplices(dice: real)
    requires 0.0 <= dice < 1.0
    ensures UsesChordal(DEFAULT_POLICY, dice)
  {
  }

  /**
   * `crossover`: the chordal splice when `UsesChordal`, otherwise the outcome
   * `uniform` of the library's uniform crossover, which is not part of this
   * model.
   */
  method Crossover(policy: CrossoverPolicy, first: ObjectRef, second: ObjectRef, dice: real, draw: nat,
                   uniform: Result<(Individual, Individual), Failure>)
    returns (r: Result<(Individual, Individual), Failure>)
    requires 0.0 <= dice < 1.0
    requires first.Ind? ==> first.individual.WellFormed()
    requires second.Ind? ==> second.individual.WellFormed()
    requires first.Ind? && second.Ind? ==> first.individual.statics == second.individual.statics
    requires first.Ind? && ChordNumber(|first.individual.statics.voice|, first.individual.representation) >= 2 ==>
               draw < ChordNumber(|first.individual.statics.voice|, first.individual.representation) - 1
    ensures !UsesChordal(policy, dice) ==> r == uniform
    ensures UsesChordal(policy, dice) && r.Ok? ==>
              first.Ind? && second.Ind? && fresh(r.value.0) && fresh(r.value.1)
              && r.value.0.Valid() && r.value.1.Valid()
              && r.value.0.statics == first.individual.statics && r.value.1.statics == first.individual.statics
    ensures UsesChordal(policy, dice) ==>
              (r.Err? <==> !first.Ind? || !second.Ind?
                           || ChordNumber(|first.individual.statics.voice|, first.individual.representation) < 2
                           || ChordNumber(|first.individual.statics.voice|, second.individual.representation)
                              < ChordNumber(|first.individual.statics.voice|, first.individual.representation))
    ensures UsesChordal(policy, dice) && r.Ok? ==>
              ChordalGenomes(first.individual, second.individual, draw)
              == Some((r.value.0.representation, r.value.1.representation))
  {
    if UsesChordal(policy, dice) {
      r := Chordal(first, second, draw);
    } else {
      r := uniform;
    }
  }
}

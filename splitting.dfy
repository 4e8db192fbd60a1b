/**
 * `String.split` with a one-character-class pattern such as `[X]` or
 * `[SsX]`: the pieces between delimiter characters, with trailing empty
 * pieces removed, and the whole string when no delimiter occurs.
 */
module Splitting {

  /** How many characters of s are delimiters. */
  function Occurrences(s: string, delims: set<char>): (r: nat)
    ensures r <= |s|
    ensures r == 0 <==> forall k :: 0 <= k < |s| ==> s[k] !in delims
  {
    if |s| == 0 then 0
    else (if s[0] in delims then 1 else 0) + Occurrences(s[1..], delims)
  }

  /** How many neighbouring positions k, k + 1 both hold delimiters. */
  function AdjacentPairs(s: string, delims: set<char>): nat {
    if |s| < 2 then 0
    else (if s[0] in delims && s[1] in delims then 1 else 0) + AdjacentPairs(s[1..], delims)
  }

  /** The pieces between delimiters, before trailing empty pieces are removed. */
  function Segments(s: string, delims: set<char>): (r: seq<string>)
    ensures |r| == Occurrences(s, delims) + 1
    ensures r[0] == "" <==> |s| == 0 || s[0] in delims
    ensures r[|r| - 1] == "" <==> |s| == 0 || s[|s| - 1] in delims
  {
    if |s| == 0 then [""]
    else
      var rest := Segments(s[1..], delims);
      if s[0] in delims then [""] + rest
      else [[s[0]] + rest[0]] + rest[1..]
  }

  function DropTrailingEmpty(parts: seq<string>): (r: seq<string>)
    ensures |r| <= |parts| && r == parts[..|r|]
    ensures |parts| > 0 && parts[|parts| - 1] != "" ==> r == parts
  {
    if |parts| > 0 && parts[|parts| - 1] == "" then DropTrailingEmpty(parts[..|parts| - 1]) else parts
  }

  /** `s.split(pattern)` for a pattern matching exactly the characters of `delims`. */
  function JavaSplit(s: string, delims: set<char>): seq<string> {
    if Occurrences(s, delims) == 0 then [s]
    else DropTrailingEmpty(Segments(s, delims))
  }

  /** How many pieces are empty strings. */
  function EmptyPieces(parts: seq<string>): nat {
    if |parts| == 0 then 0
    else (if parts[0] == "" then 1 else 0) + EmptyPieces(parts[1..])
  }

  /**
   * Empty pieces arise between two neighbouring delimiters, before a leading
   * delimiter and after a trailing one.
   */
  lemma {:induction false} EmptySegments(s: string, delims: set<char>)
    ensures EmptyPieces(Segments(s, delims)) ==
              AdjacentPairs(s, delims)
              + (if |s| == 0 || s[0] in delims then 1 else 0)
              + (if |s| > 0 && s[|s| - 1] in delims then 1 else 0)
  {
    if |s| > 0 {
      var t := s[1..];
      var rest := Segments(t, delims);
      EmptySegments(t, delims);
      if |t| > 0 {
        assert t[|t| - 1] == s[|s| - 1];
        assert t[0] == s[1];
      }
      if s[0] in delims {
        assert Segments(s, delims) == [""] + rest;
        assert ([""] + rest)[1..] == rest;
      } else {
        var r := Segments(s, delims);
        assert r == [[s[0]] + rest[0]] + rest[1..];
        assert r[1..] == rest[1..];
        assert EmptyPieces(rest) == (if rest[0] == "" then 1 else 0) + EmptyPieces(rest[1..]);
      }
    }
  }

  /**
   * For a string that neither starts nor ends with a delimiter, `split`
   * yields one piece more than there are delimiters, and its empty pieces
   * are exactly the neighbouring delimiter pairs.
   */
  lemma SplitOfEnclosed(s: string, delims: set<char>)
    requires |s| > 0 && s[0] !in delims && s[|s| - 1] !in delims
    ensures |JavaSplit(s, delims)| == Occurrences(s, delims) + 1
    ensures EmptyPieces(JavaSplit(s, delims)) == AdjacentPairs(s, delims)
  {
    if Occurrences(s, delims) == 0 {
      SplitWithoutDelimiter(s, delims);
    } else {
      SplitAtDelimiters(s, delims);
    }
  }

  /** Without a delimiter, `split` returns the string itself. */
  lemma SplitWithoutDelimiter(s: string, delims: set<char>)
    requires |s| > 0 && Occurrences(s, delims) == 0
    ensures JavaSplit(s, delims) == [s]
    ensures AdjacentPairs(s, delims) == 0 && EmptyPieces([s]) == 0
  {
    NoDelimiterNoPairs(s, delims);
    assert [s][1..] == [];
  }

  /** With a delimiter and a non-delimiter at the end, `split` returns every segment. */
  lemma SplitAtDelimiters(s: string, delims: set<char>)
    requires |s| > 0 && s[0] !in delims && s[|s| - 1] !in delims && Occurrences(s, delims) > 0
    ensures JavaSplit(s, delims) == Segments(s, delims)
    ensures EmptyPieces(Segments(s, delims)) == AdjacentPairs(s, delims)
  {
    var parts := Segments(s, delims);
    EmptySegments(s, delims);
    assert parts[|parts| - 1] != "";
  }

  lemma {:induction false} NoDelimiterNoPairs(s: string, delims: set<char>)
    requires forall k :: 0 <= k < |s| ==> s[k] !in delims
    ensures AdjacentPairs(s, delims) == 0
  {
    if |s| >= 2 {
      NoDelimiterNoPairs(s[1..], delims);
    }
  }

  lemma {:induction false} OccurrencesOfConcat(a: string, b: string, delims: set<char>)
    ensures Occurrences(a + b, delims) == Occurrences(a, delims) + Occurrences(b, delims)
  {
    if |a| > 0 {
      assert (a + b)[1..] == a[1..] + b;
      OccurrencesOfConcat(a[1..], b, delims);
    } else {
      assert a + b == b;
    }
  }

  lemma {:induction false} PairsIgnoreOuterNonDelimiters(body: string, open: char, close: char, delims: set<char>)
    requires open !in delims && close !in delims
    ensures AdjacentPairs([open] + body + [close], delims) == AdjacentPairs(body, delims)
  {
    PairsIgnoreTrailingNonDelimiter(body, close, delims);
    var s := [open] + body + [close];
    assert s[1..] == body + [close];
  }

  lemma {:induction false} PairsIgnoreTrailingNonDelimiter(body: string, close: char, delims: set<char>)
    requires close !in delims
    ensures AdjacentPairs(body + [close], delims) == AdjacentPairs(body, delims)
  {
    if |body| > 0 {
      assert (body + [close])[1..] == body[1..] + [close];
      PairsIgnoreTrailingNonDelimiter(body[1..], close, delims);
    }
  }
}

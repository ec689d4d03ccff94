/** The subset of JavaScript regular expressions the scanners use, with the
    meaning of `RegExp.prototype.test` for a pattern without the `g`, `y`,
    `m`, `s` or `u` flags.

    A pattern is a sequence of pieces: literal characters, `.*` (any run of
    characters other than line terminators) and `\s*` (any run of white
    space). A plain alternation of literals such as `/a|b|c/i` tests true
    exactly when one of its alternatives does, so it is modelled as a list
    of single-literal patterns (`AnyTest`). Every literal in the scanners'
    tables is ASCII; for ASCII pattern characters the `i` flag's
    canonicalisation (upper-casing that never maps a non-ASCII character to
    an ASCII one) is exactly ASCII case folding. */
module Patterns {
  import opened Text

  datatype Piece =
    | Lit(text: string)  // the characters themselves (`\.` is a literal dot)
    | Gap                // `.*`
    | Blanks             // `\s*`
    | End                // `$`: the end of the input

  datatype Regex = Regex(pieces: seq<Piece>, ignoreCase: bool)

  predicate IsLineTerminator(c: char) {
    c == '\n' || c == '\r' || c == '\U{2028}' || c == '\U{2029}'
  }

  predicate CharMatches(p: char, c: char, ignoreCase: bool) {
    if ignoreCase then LowerAscii(p) == LowerAscii(c) else p == c
  }

  /** The literal `w` matches the first `|w|` characters of `t`. */
  predicate LitAt(w: string, t: string, ignoreCase: bool) {
    |w| <= |t| && forall k :: 0 <= k < |w| ==> CharMatches(w[k], t[k], ignoreCase)
  }

  /** The pieces match some prefix of `t`, trying every run length for the
      starred pieces. */
  predicate MatchesPrefix(ps: seq<Piece>, t: string, ignoreCase: bool)
    decreases |ps|, |t|
  {
    if |ps| == 0 then true
    else match ps[0]
      case Lit(w) =>
        LitAt(w, t, ignoreCase) && MatchesPrefix(ps[1..], t[|w|..], ignoreCase)
      case Gap =>
        || MatchesPrefix(ps[1..], t, ignoreCase)
        || (|t| > 0 && !IsLineTerminator(t[0]) && MatchesPrefix(ps, t[1..], ignoreCase))
      case Blanks =>
        || MatchesPrefix(ps[1..], t, ignoreCase)
        || (|t| > 0 && IsSpace(t[0]) && MatchesPrefix(ps, t[1..], ignoreCase))
      case End =>
        |t| == 0 && MatchesPrefix(ps[1..], t, ignoreCase)
  }

  /** `re.test(t)`: the search tries each start position from the left. */
  predicate Test(re: Regex, t: string)
    decreases |t|
  {
    MatchesPrefix(re.pieces, t, re.ignoreCase) || (|t| > 0 && Test(re, t[1..]))
  }

  /** A list of alternatives tests true when one of them does. */
  predicate AnyTest(res: seq<Regex>, t: string) {
    exists k :: 0 <= k < |res| && Test(res[k], t)
  }

  /** Single-literal patterns, one per word, sharing a flag. */
  function Words(ws: seq<string>, ignoreCase: bool): (res: seq<Regex>)
    ensures |res| == |ws|
    ensures forall k :: 0 <= k < |ws| ==> res[k] == Regex([Lit(ws[k])], ignoreCase)
  {
    seq(|ws|, k requires 0 <= k < |ws| => Regex([Lit(ws[k])], ignoreCase))
  }

  /** The search finds a match exactly when the pattern matches at some
      start position of `t`. */
  lemma {:induction false} TestSpec(re: Regex, t: string)
    ensures Test(re, t) <==>
      exists i :: 0 <= i <= |t| && MatchesPrefix(re.pieces, t[i..], re.ignoreCase)
    decreases |t|
  {
    assert t[0..] == t;
    if |t| > 0 {
      TestSpec(re, t[1..]);
      if Test(re, t[1..]) {
        var i :| 0 <= i <= |t[1..]| && MatchesPrefix(re.pieces, t[1..][i..], re.ignoreCase);
        assert t[1..][i..] == t[i + 1..];
      }
      if exists i :: 0 <= i <= |t| && MatchesPrefix(re.pieces, t[i..], re.ignoreCase) {
        var i :| 0 <= i <= |t| && MatchesPrefix(re.pieces, t[i..], re.ignoreCase);
        if i > 0 {
          assert t[1..][i - 1..] == t[i..];
        }
      }
    }
  }

  /** A match found at position `i` makes the test succeed. */
  lemma TestAt(re: Regex, t: string, i: nat)
    requires i <= |t| && MatchesPrefix(re.pieces, t[i..], re.ignoreCase)
    ensures Test(re, t)
  {
    TestSpec(re, t);
  }

  /** A one-literal pattern tests true exactly when the literal occurs,
      modulo the pattern's case folding, at some position of `t`. */
  lemma LiteralTest(w: string, ignoreCase: bool, t: string)
    ensures Test(Regex([Lit(w)], ignoreCase), t) <==>
      exists i :: 0 <= i <= |t| && LitAt(w, t[i..], ignoreCase)
  {
    TestSpec(Regex([Lit(w)], ignoreCase), t);
  }

  /** Without the `i` flag a literal pattern is plain `includes`. */
  lemma CaseSensitiveLiteralTest(w: string, t: string)
    ensures Test(Regex([Lit(w)], false), t) <==> Contains(t, w)
  {
    LiteralTest(w, false, t);
    if Contains(t, w) {
      var i :| 0 <= i <= |t| - |w| && StartsWith(t[i..], w);
      assert LitAt(w, t[i..], false);
    }
    if exists i :: 0 <= i <= |t| && LitAt(w, t[i..], false) {
      var i :| 0 <= i <= |t| && LitAt(w, t[i..], false);
      assert t[i..][..|w|] == w;
      assert StartsWith(t[i..], w);
    }
  }

  /** A one-literal pattern finds its own text wherever it sits. */
  lemma WordIn(w: string, ignoreCase: bool, before: string, after: string)
    ensures Test(Regex([Lit(w)], ignoreCase), before + w + after)
  {
    var t := before + w + after;
    var u := t[|before|..];
    assert u[..|w|] == w;
    assert LitAt(w, u, ignoreCase);
    assert [Lit(w)][1..] == [];
    TestAt(Regex([Lit(w)], ignoreCase), t, |before|);
  }

  /** If `w` matches at a position, so does each of its prefixes: the
      alternative `keylogger` adds nothing beside `keylog`. */
  lemma LiteralPrefixTest(w: string, v: string, ignoreCase: bool, t: string)
    requires StartsWith(w, v)
    requires Test(Regex([Lit(w)], ignoreCase), t)
    ensures Test(Regex([Lit(v)], ignoreCase), t)
  {
    LiteralTest(w, ignoreCase, t);
    LiteralTest(v, ignoreCase, t);
    var i :| 0 <= i <= |t| && LitAt(w, t[i..], ignoreCase);
    assert forall k :: 0 <= k < |v| ==> v[k] == w[k];
    assert LitAt(v, t[i..], ignoreCase);
  }

  /** A `.*` between two literals (`/a.*b/`) matches exactly when `b`
      starts somewhere after the end of an occurrence of `a` on the same
      line. */
  lemma {:induction false} GapSpec(b: string, t: string, ignoreCase: bool)
    ensures MatchesPrefix([Gap, Lit(b)], t, ignoreCase) <==>
      (exists j :: 0 <= j <= |t| && LitAt(b, t[j..], ignoreCase) &&
                   forall k :: 0 <= k < j ==> !IsLineTerminator(t[k]))
    decreases |t|
  {
    var ps := [Gap, Lit(b)];
    assert ps[1..] == [Lit(b)];
    assert MatchesPrefix([Lit(b)], t, ignoreCase) <==> LitAt(b, t, ignoreCase) by {
      assert [Lit(b)][1..] == [];
    }
    assert t[0..] == t;
    if |t| > 0 {
      GapSpec(b, t[1..], ignoreCase);
      if MatchesPrefix(ps, t, ignoreCase) && !LitAt(b, t, ignoreCase) {
        var j :| 0 <= j <= |t[1..]| && LitAt(b, t[1..][j..], ignoreCase) &&
          forall k :: 0 <= k < j ==> !IsLineTerminator(t[1..][k]);
        assert t[1..][j..] == t[j + 1..];
        assert forall k :: 0 <= k < j + 1 ==> !IsLineTerminator(t[k]) by {
          forall k | 0 <= k < j + 1 ensures !IsLineTerminator(t[k]) {
            if k > 0 { assert t[k] == t[1..][k - 1]; }
          }
        }
      }
      if (exists j :: 0 <= j <= |t| && LitAt(b, t[j..], ignoreCase) &&
            forall k :: 0 <= k < j ==> !IsLineTerminator(t[k])) {
        var j :| 0 <= j <= |t| && LitAt(b, t[j..], ignoreCase) &&
          forall k :: 0 <= k < j ==> !IsLineTerminator(t[k]);
        if j > 0 {
          assert t[1..][j - 1..] == t[j..];
          assert forall k :: 0 <= k < j - 1 ==> !IsLineTerminator(t[1..][k]);
        }
      }
    }
  }

  /** `w$` matches a prefix of `u` exactly when `u` is `w` itself. */
  lemma AnchoredLiteralPrefix(w: string, ignoreCase: bool, u: string)
    ensures MatchesPrefix([Lit(w), End], u, ignoreCase) <==> |u| == |w| && LitAt(w, u, ignoreCase)
  {
    var ps := [Lit(w), End];
    assert ps[1..] == [End];
    assert [End][1..] == [];
    if LitAt(w, u, ignoreCase) {
      assert MatchesPrefix([End], u[|w|..], ignoreCase) <==> |u[|w|..]| == 0;
    }
  }

  /** A literal anchored at the end (`/w$/`) matches exactly when `t` ends
      with `w` modulo the pattern's case folding. */
  lemma SuffixTest(w: string, ignoreCase: bool, t: string)
    ensures Test(Regex([Lit(w), End], ignoreCase), t) <==>
      |w| <= |t| && LitAt(w, t[|t| - |w|..], ignoreCase)
  {
    var ps := [Lit(w), End];
    TestSpec(Regex(ps, ignoreCase), t);
    if |w| <= |t| && LitAt(w, t[|t| - |w|..], ignoreCase) {
      AnchoredLiteralPrefix(w, ignoreCase, t[|t| - |w|..]);
    }
    if Test(Regex(ps, ignoreCase), t) {
      var i :| 0 <= i <= |t| && MatchesPrefix(ps, t[i..], ignoreCase);
      AnchoredLiteralPrefix(w, ignoreCase, t[i..]);
    }
  }
}

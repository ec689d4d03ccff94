/** String helpers shared by the scanners: prefixes and containment, ASCII
    case mapping, JavaScript's `split`/`join`/`trim`, and decimal rendering
    of a count. Strings are sequences of Unicode scalar values. */
module Text {

  datatype Option<T> = None | Some(value: T)

  predicate StartsWith(s: string, prefix: string) {
    |prefix| <= |s| && s[..|prefix|] == prefix
  }

  predicate EndsWith(s: string, suffix: string) {
    |suffix| <= |s| && s[|s| - |suffix|..] == suffix
  }

  /** `s.includes(w)`: `w` occurs at some position of `s`. */
  predicate Contains(s: string, w: string) {
    exists i :: 0 <= i <= |s| - |w| && StartsWith(s[i..], w)
  }

  lemma StartsWithTransitive(s: string, p: string, q: string)
    requires StartsWith(s, p) && StartsWith(p, q)
    ensures StartsWith(s, q)
  {
    assert s[..|q|] == s[..|p|][..|q|];
  }

  /** A concatenation starts with its first part and ends with its last. */
  lemma ConcatFrame(a: string, b: string, c: string)
    ensures StartsWith(a + b + c, a) && EndsWith(a + b + c, c)
  {
    assert (a + b + c)[..|a|] == a;
    assert (a + b + c)[|a + b|..] == c;
  }

  lemma ConcatFrame4(a: string, b: string, c: string, d: string)
    ensures StartsWith(a + b + c + d, a) && StartsWith(a + b + c + d, a + b)
    ensures EndsWith(a + b + c + d, d)
  {
    assert (a + b + c + d)[..|a|] == a;
    assert (a + b + c + d)[..|a + b|] == a + b;
    assert (a + b + c + d)[|a + b + c|..] == d;
  }

  /** The last two parts of a concatenation end it. */
  lemma EndsWithLastTwo(a: string, b: string, c: string)
    ensures EndsWith(a + b + c, b + c)
  {
    assert (a + b + c)[|a|..] == b + c;
  }

  /** A suffix no longer than the right part ends the whole exactly when it
      ends the right part. */
  lemma EndsWithRight(a: string, b: string, s: string)
    requires |s| <= |b|
    ensures EndsWith(a + b, s) <==> EndsWith(b, s)
  {
    assert (a + b)[|a + b| - |s|..] == b[|b| - |s|..];
  }

  /** The `k`-th character from the end of `a + b + c`, when it lies in `b`. */
  lemma CharFromEnd(a: string, b: string, c: string, k: nat)
    requires |c| < k <= |b| + |c|
    ensures (a + b + c)[|a + b + c| - k] == b[|b| + |c| - k]
  {
  }

  /** Strings that differ in their `k`-th character from the end do not end
      alike. */
  lemma NotEndsWithAt(h: string, s: string, k: nat)
    requires 0 < k <= |s| <= |h| && h[|h| - k] != s[|s| - k]
    ensures !EndsWith(h, s)
  {
    assert h[|h| - |s|..][|s| - k] == h[|h| - k];
  }

  // ---------------------------------------------------------------------
  // ASCII case mapping

  function LowerAscii(c: char): char {
    if 'A' <= c <= 'Z' then (c as int + 32) as char else c
  }

  function UpperAscii(c: char): char {
    if 'a' <= c <= 'z' then (c as int - 32) as char else c
  }

  function LowerAsciiString(s: string): (r: string)
    ensures |r| == |s|
  {
    seq(|s|, i requires 0 <= i < |s| => LowerAscii(s[i]))
  }

  function UpperAsciiString(s: string): (r: string)
    ensures |r| == |s|
  {
    seq(|s|, i requires 0 <= i < |s| => UpperAscii(s[i]))
  }

  /** Lower-casing leaves a string without capitals as it is. */
  lemma LowerAsciiNoCapitals(s: string)
    requires forall i :: 0 <= i < |s| ==> !('A' <= s[i] <= 'Z')
    ensures LowerAsciiString(s) == s
  {
  }

  /** Upper-casing leaves no lower-case ASCII letter behind, and changes a
      character only by mapping a lower-case letter to its capital. */
  lemma UpperAsciiStringSpec(s: string)
    ensures forall i :: 0 <= i < |s| ==> !('a' <= UpperAsciiString(s)[i] <= 'z')
    ensures forall i :: 0 <= i < |s| && !('a' <= s[i] <= 'z') ==> UpperAsciiString(s)[i] == s[i]
    ensures UpperAsciiString(UpperAsciiString(s)) == UpperAsciiString(s)
  {
  }

  // ---------------------------------------------------------------------
  // White space and `trim`

  /** The characters JavaScript's `\s` and `String.prototype.trim` treat as
      white space: the WhiteSpace and LineTerminator productions. */
  predicate IsSpace(c: char) {
    || c == '\t' || c == '\n' || c == '\U{B}' || c == '\U{C}' || c == '\r'
    || c == ' ' || c == '\U{A0}' || c == '\U{1680}' || ('\U{2000}' <= c <= '\U{200A}')
    || c == '\U{2028}' || c == '\U{2029}' || c == '\U{202F}' || c == '\U{205F}'
    || c == '\U{3000}' || c == '\U{FEFF}'
  }

  function TrimStart(s: string): (r: string)
    decreases |s|
  {
    if |s| > 0 && IsSpace(s[0]) then TrimStart(s[1..]) else s
  }

  function TrimEnd(s: string): (r: string)
    decreases |s|
  {
    if |s| > 0 && IsSpace(s[|s| - 1]) then TrimEnd(s[..|s| - 1]) else s
  }

  /** `s.trim()`. */
  function Trim(s: string): string {
    TrimEnd(TrimStart(s))
  }

  lemma {:induction false} TrimStartSpec(s: string)
    ensures EndsWith(s, TrimStart(s))
    ensures |TrimStart(s)| > 0 ==> !IsSpace(TrimStart(s)[0])
    ensures forall i :: 0 <= i < |s| - |TrimStart(s)| ==> IsSpace(s[i])
    decreases |s|
  {
    if |s| > 0 && IsSpace(s[0]) {
      TrimStartSpec(s[1..]);
      assert s[1..][|s[1..]| - |TrimStart(s)|..] == s[|s| - |TrimStart(s)|..];
      forall i | 0 <= i < |s| - |TrimStart(s)|
        ensures IsSpace(s[i])
      {
        if i > 0 {
          assert s[i] == s[1..][i - 1];
        }
      }
    }
  }

  lemma {:induction false} TrimEndSpec(s: string)
    ensures StartsWith(s, TrimEnd(s))
    ensures |TrimEnd(s)| > 0 ==> !IsSpace(TrimEnd(s)[|TrimEnd(s)| - 1])
    ensures forall i :: |TrimEnd(s)| <= i < |s| ==> IsSpace(s[i])
    decreases |s|
  {
    if |s| > 0 && IsSpace(s[|s| - 1]) {
      TrimEndSpec(s[..|s| - 1]);
      assert s[..|s| - 1][..|TrimEnd(s)|] == s[..|TrimEnd(s)|];
    }
  }

  /** The trimmed text is a contiguous piece of the input with no white
      space at either end, and everything removed before and after it is
      white space. */
  lemma TrimSpec(s: string)
    ensures exists i :: TrimmedAt(s, Trim(s), i)
    ensures |Trim(s)| > 0 ==> !IsSpace(Trim(s)[0]) && !IsSpace(Trim(s)[|Trim(s)| - 1])
  {
    var t := TrimStart(s);
    var r := Trim(s);
    TrimStartSpec(s);
    TrimEndSpec(t);
    var i := |s| - |t|;
    assert s[i..] == t;
    assert s[i..i + |r|] == t[..|r|] == r;
    forall j | i + |r| <= j < |s|
      ensures IsSpace(s[j])
    {
      assert s[j] == t[j - i];
    }
    if |r| > 0 {
      assert r[0] == t[0];
    }
    assert TrimmedAt(s, r, i);
  }

  /** `r` occurs in `s` at offset `i`, and every character of `s` before
      and after that occurrence is white space. */
  predicate TrimmedAt(s: string, r: string, i: int) {
    && 0 <= i <= |s| - |r|
    && s[i..i + |r|] == r
    && (forall j :: 0 <= j < i ==> IsSpace(s[j]))
    && (forall j :: i + |r| <= j < |s| ==> IsSpace(s[j]))
  }

  // ---------------------------------------------------------------------
  // `split` and `join` on a single separator character

  /** `s.split(sep)`: the maximal separator-free pieces, including empty
      ones; an empty input gives one empty piece. */
  function Split(s: string, sep: char): (parts: seq<string>)
    ensures |parts| >= 1
    decreases |s|
  {
    if |s| == 0 then [""]
    else
      var rest := Split(s[1..], sep);
      if s[0] == sep then [""] + rest
      else [[s[0]] + rest[0]] + rest[1..]
  }

  /** `parts.join(sep)`. */
  function Join(parts: seq<string>, sep: char): string
    decreases |parts|
  {
    if |parts| == 0 then ""
    else if |parts| == 1 then parts[0]
    else parts[0] + [sep] + Join(parts[1..], sep)
  }

  predicate SeparatorFree(parts: seq<string>, sep: char) {
    forall k :: 0 <= k < |parts| ==> sep !in parts[k]
  }

  /** Joining the pieces back gives the original text, and no piece holds
      the separator. */
  lemma {:induction false} JoinSplit(s: string, sep: char)
    ensures Join(Split(s, sep), sep) == s
    ensures SeparatorFree(Split(s, sep), sep)
    decreases |s|
  {
    if |s| > 0 {
      var rest := Split(s[1..], sep);
      JoinSplit(s[1..], sep);
      if s[0] == sep {
        assert Split(s, sep) == [""] + rest;
        assert ([""] + rest)[1..] == rest;
      } else {
        var parts := Split(s, sep);
        assert parts == [[s[0]] + rest[0]] + rest[1..];
        if |rest| == 1 {
          assert Join(parts, sep) == [s[0]] + rest[0];
        } else {
          assert parts[1..] == rest[1..];
          assert Join(rest, sep) == rest[0] + [sep] + Join(rest[1..], sep);
        }
        assert s == [s[0]] + s[1..];
        forall k | 0 <= k < |parts|
          ensures sep !in parts[k]
        {
          if k > 0 {
            assert parts[k] == rest[k];
          } else {
            assert sep !in rest[0];
          }
        }
      }
    }
  }

  /** The converse round trip: separator-free pieces are recovered from
      their join. */
  lemma {:induction false} SplitJoin(parts: seq<string>, sep: char)
    requires |parts| >= 1 && SeparatorFree(parts, sep)
    ensures Split(Join(parts, sep), sep) == parts
    decreases |parts|
  {
    if |parts| == 1 {
      SplitNoSeparator(parts[0], sep);
    } else {
      SplitJoin(parts[1..], sep);
      SplitAtSeparator(parts[0], Join(parts[1..], sep), sep);
      assert [parts[0]] + parts[1..] == parts;
    }
  }

  lemma {:induction false} SplitNoSeparator(s: string, sep: char)
    requires sep !in s
    ensures Split(s, sep) == [s]
    decreases |s|
  {
    if |s| > 0 {
      assert sep !in s[1..];
      SplitNoSeparator(s[1..], sep);
      assert [s[0]] + s[1..] == s;
    }
  }

  /** Splitting `a + sep + b` with a separator-free `a` yields `a` followed
      by the pieces of `b`. */
  lemma {:induction false} SplitAtSeparator(a: string, b: string, sep: char)
    requires sep !in a
    ensures Split(a + [sep] + b, sep) == [a] + Split(b, sep)
    decreases |a|
  {
    var s := a + [sep] + b;
    if |a| == 0 {
      assert s[1..] == b;
    } else {
      assert s[1..] == a[1..] + [sep] + b;
      assert sep !in a[1..];
      SplitAtSeparator(a[1..], b, sep);
      assert [a[0]] + a[1..] == a;
    }
  }

  /** Splitting a concatenation around a separator: the pieces of the two
      sides, side by side. */
  lemma {:induction false} SplitConcat(a: string, b: string, sep: char)
    ensures Split(a + [sep] + b, sep) == Split(a, sep) + Split(b, sep)
    decreases |a|
  {
    if |a| == 0 {
      assert a + [sep] + b == [sep] + b;
      SplitCons(sep, b, sep);
    } else {
      var tail := a[1..];
      assert a == [a[0]] + tail;
      assert a + [sep] + b == [a[0]] + (tail + [sep] + b);
      SplitConcat(tail, b, sep);
      SplitConsAppend(a[0], tail, tail + [sep] + b, Split(b, sep), sep);
    }
  }

  /** One step of `split`: a leading separator starts a new piece, any
      other character joins the first piece. */
  lemma SplitCons(c: char, t: string, sep: char)
    ensures Split([c] + t, sep) ==
      if c == sep then [""] + Split(t, sep)
      else [[c] + Split(t, sep)[0]] + Split(t, sep)[1..]
  {
    assert ([c] + t)[1..] == t;
  }

  /** If the pieces of `u` are those of `t` followed by `more`, the same
      holds after putting one character in front of both. */
  lemma SplitConsAppend(c: char, t: string, u: string, more: seq<string>, sep: char)
    requires Split(u, sep) == Split(t, sep) + more
    ensures Split([c] + u, sep) == Split([c] + t, sep) + more
  {
    SplitCons(c, u, sep);
    SplitCons(c, t, sep);
    if c != sep {
      JoinFirstPiece([c], Split(t, sep), more);
    } else {
      assert [""] + (Split(t, sep) + more) == ([""] + Split(t, sep)) + more;
    }
  }

  /** Extending the first piece commutes with appending more pieces. */
  lemma JoinFirstPiece(w: string, ps: seq<string>, more: seq<string>)
    requires |ps| >= 1
    ensures [w + (ps + more)[0]] + (ps + more)[1..] == ([w + ps[0]] + ps[1..]) + more
  {
    assert (ps + more)[0] == ps[0];
    assert (ps + more)[1..] == ps[1..] + more;
  }

  /** `s.split(sep).pop()`: the text after the last separator, or all of
      `s` when it has none. */
  function LastPiece(s: string, sep: char): string {
    var parts := Split(s, sep);
    parts[|parts| - 1]
  }

  /** The last piece is a separator-free suffix of `s`, preceded by a
      separator whenever it is not the whole of `s`. */
  lemma LastPieceSpec(s: string, sep: char)
    ensures sep !in LastPiece(s, sep)
    ensures EndsWith(s, LastPiece(s, sep))
    ensures |LastPiece(s, sep)| < |s| ==> s[|s| - |LastPiece(s, sep)| - 1] == sep
  {
    var parts := Split(s, sep);
    JoinSplit(s, sep);
    JoinEndsWithLast(parts, sep);
  }

  lemma {:induction false} JoinEndsWithLast(parts: seq<string>, sep: char)
    requires |parts| >= 1
    ensures EndsWith(Join(parts, sep), parts[|parts| - 1])
    ensures |parts| > 1 ==> |Join(parts, sep)| > |parts[|parts| - 1]|
    ensures |parts| > 1 ==>
      Join(parts, sep)[|Join(parts, sep)| - |parts[|parts| - 1]| - 1] == sep
    decreases |parts|
  {
    if |parts| > 1 {
      JoinEndsWithLast(parts[1..], sep);
      var j := Join(parts[1..], sep);
      var last := parts[|parts| - 1];
      assert parts[1..][|parts[1..]| - 1] == last;
      if |parts| == 2 {
        assert j == last;
      }
      assert Join(parts, sep) == (parts[0] + [sep]) + j;
    }
  }

  /** For a name `base.ext` whose extension has no dot, the last piece is
      exactly the extension. */
  lemma LastPieceOfDotted(base: string, ext: string, sep: char)
    requires sep !in ext
    ensures LastPiece(base + [sep] + ext, sep) == ext
  {
    SplitConcat(base, ext, sep);
    SplitNoSeparator(ext, sep);
  }

  /** Joining two non-empty lists of pieces puts one separator between the
      two joins. */
  lemma {:induction false} JoinAppend(a: seq<string>, b: seq<string>, sep: char)
    requires |a| >= 1 && |b| >= 1
    ensures Join(a + b, sep) == Join(a, sep) + [sep] + Join(b, sep)
    decreases |a|
  {
    if |a| == 1 {
      assert (a + b)[1..] == b;
    } else {
      assert (a + b)[1..] == a[1..] + b;
      JoinAppend(a[1..], b, sep);
    }
  }

  // ---------------------------------------------------------------------
  // Decimal rendering of a count (template-literal interpolation)

  function DigitChar(d: nat): (c: char)
    requires d < 10
    ensures '0' <= c <= '9'
  {
    ('0' as int + d) as char
  }

  predicate IsDigits(s: string) {
    forall i :: 0 <= i < |s| ==> '0' <= s[i] <= '9'
  }

  /** The decimal numeral of `n` without leading zeros, as `${n}` renders it. */
  function NatToString(n: nat): (r: string)
    decreases n
  {
    if n < 10 then [DigitChar(n)] else NatToString(n / 10) + [DigitChar(n % 10)]
  }

  /** Reads a numeral back; the partner of `NatToString`. */
  function ParseNat(s: string): nat
    requires IsDigits(s)
    decreases |s|
  {
    if |s| == 0 then 0
    else ParseNat(s[..|s| - 1]) * 10 + (s[|s| - 1] as int - '0' as int)
  }

  /** The numeral is a non-empty digit string without a leading zero (unless
      it is "0"), and reading it back gives the count. */
  lemma {:induction false} NatToStringRoundTrip(n: nat)
    ensures IsDigits(NatToString(n)) && |NatToString(n)| >= 1
    ensures NatToString(n)[0] == '0' <==> n == 0
    ensures ParseNat(NatToString(n)) == n
    decreases n
  {
    if n >= 10 {
      NatToStringRoundTrip(n / 10);
      var s := NatToString(n);
      assert s[..|s| - 1] == NatToString(n / 10);
      assert s[0] == NatToString(n / 10)[0];
    }
  }
}

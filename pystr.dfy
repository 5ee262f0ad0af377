/**
 * The parts of Python's `str` behaviour that the two scripts rely on,
 * written out over `seq<char>`: the strip family, `isspace`, `upper`,
 * `in`, `find`, `split`, `replace`, `int(str)` and `str(int)`, and the
 * two regular-expression substitutions of the name sanitizer.
 */
module PyStr {
  import opened Wrappers

  // ---------------------------------------------------------------------------
  // Prefixes, suffixes, substrings
  // ---------------------------------------------------------------------------

  predicate StartsWith(s: string, p: string) {
    |p| <= |s| && s[..|p|] == p
  }

  predicate EndsWith(s: string, p: string) {
    |p| <= |s| && s[|s| - |p|..] == p
  }

  /** Python's `t in s`. */
  predicate Contains(s: string, t: string)
    decreases |s|
  {
    StartsWith(s, t) || (|s| > 0 && Contains(s[1..], t))
  }

  /** `t in s` holds exactly when `t` sits at some position of `s`. */
  lemma {:induction false} ContainsAt(s: string, t: string, k: nat)
    requires k + |t| <= |s| && s[k..k + |t|] == t
    ensures Contains(s, t)
    decreases k
  {
    if k > 0 {
      assert s[1..][k - 1..k - 1 + |t|] == s[k..k + |t|];
      ContainsAt(s[1..], t, k - 1);
    }
  }

  /** A string that lacks some character of `t` cannot contain `t`. */
  lemma {:induction false} MissingCharNotContained(s: string, t: string, j: nat)
    requires j < |t|
    requires forall i :: 0 <= i < |s| ==> s[i] != t[j]
    ensures !Contains(s, t)
    decreases |s|
  {
    if |t| <= |s| {
      assert s[..|t|][j] != t[j];
    }
    if |s| > 0 {
      MissingCharNotContained(s[1..], t, j);
    }
  }

  /** One more character in front that is not `t[j]` keeps `t[j]`, and so `t`, out. */
  lemma PrefixMissing(c: char, v: string, t: string, j: nat)
    requires j < |t| && c != t[j]
    requires forall i :: 0 <= i < |v| ==> v[i] != t[j]
    ensures !Contains([c] + v, t)
  {
    forall i | 0 <= i < |[c] + v|
      ensures ([c] + v)[i] != t[j]
    {
      if i > 0 {
        assert ([c] + v)[i] == v[i - 1];
      }
    }
    MissingCharNotContained([c] + v, t, j);
  }

  /** Containment is transitive: a string holding `t` holds every substring of `t`. */
  lemma {:induction false} ContainsTransitive(s: string, t: string, u: string)
    requires Contains(s, t) && Contains(t, u)
    ensures Contains(s, u)
    decreases |s|
  {
    if StartsWith(s, t) {
      var k := FindFirst(t, u);
      PrefixSlice(s, t, k, |u|);
      ContainsAt(s, u, k);
    } else {
      ContainsTransitive(s[1..], t, u);
    }
  }

  /** A slice inside a prefix `t` of `s` is the same slice of `t`. */
  lemma PrefixSlice(s: string, t: string, k: nat, n: nat)
    requires StartsWith(s, t) && k + n <= |t|
    ensures s[k..k + n] == t[k..k + n]
  {
    assert forall i | k <= i < k + n :: s[i] == s[..|t|][i];
  }

  /** The position of the first occurrence of `t` in `s`, which must be there. */
  function FindFirst(s: string, t: string): (k: nat)
    requires Contains(s, t)
    ensures k + |t| <= |s| && s[k..k + |t|] == t
    ensures forall i :: 0 <= i < k ==> !StartsWith(s[i..], t)
    decreases |s|
  {
    if StartsWith(s, t) then 0
    else
      var k := FindFirst(s[1..], t);
      assert forall i :: 1 <= i < k + 1 ==> s[i..] == s[1..][i - 1..];
      k + 1
  }

  /** A string holding `t` holds each of `t`'s characters. */
  lemma ContainedChar(s: string, t: string, j: nat)
    requires Contains(s, t) && j < |t|
    ensures exists p :: 0 <= p < |s| && s[p] == t[j]
  {
    var k := FindFirst(s, t);
    assert s[k..k + |t|][j] == s[k + j];
  }

  /** Python's `s.find(t)`, with `None` for -1. */
  function Find(s: string, t: string): (r: Option<nat>)
    ensures r.None? <==> !Contains(s, t)
    ensures r.Some? ==> r.value + |t| <= |s| && s[r.value..r.value + |t|] == t
    ensures r.Some? ==> forall i :: 0 <= i < r.value ==> !StartsWith(s[i..], t)
  {
    if Contains(s, t) then Some(FindFirst(s, t)) else None
  }

  /** An occurrence with none before it is the one `find` reports. */
  lemma FindIs(s: string, t: string, k: nat)
    requires k + |t| <= |s| && s[k..k + |t|] == t
    requires forall i :: 0 <= i < k ==> !StartsWith(s[i..], t)
    ensures Find(s, t) == Some(k)
  {
    ContainsAt(s, t, k);
    var k' := FindFirst(s, t);
    assert StartsWith(s[k'..], t) by {
      assert s[k'..][..|t|] == s[k'..k' + |t|];
    }
    assert StartsWith(s[k..], t) by {
      assert s[k..][..|t|] == s[k..k + |t|];
    }
  }

  /** Appending text cannot move an occurrence that already lies inside `p`. */
  lemma FindExtends(p: string, y: string, t: string)
    requires Find(p, t).Some?
    ensures Find(p + y, t) == Find(p, t)
  {
    var k := Find(p, t).value;
    forall i | 0 <= i < k
      ensures !StartsWith((p + y)[i..], t)
    {
      assert (p + y)[i..][..|t|] == p[i..][..|t|];
    }
    assert (p + y)[k..k + |t|] == p[k..k + |t|];
    FindIs(p + y, t, k);
  }


  /**
   * Python's `s.split(sep)` for a non-empty separator: the pieces between
   * the non-overlapping occurrences of `sep`, scanned from the left.
   */
  function Split(s: string, sep: string): (parts: seq<string>)
    requires |sep| > 0
    ensures |parts| >= 1
    ensures !Contains(s, sep) <==> parts == [s]
    ensures Contains(s, sep) ==> |parts| >= 2
    ensures JoinWith(parts, sep) == s
    ensures forall i :: 0 <= i < |parts| ==> !Contains(parts[i], sep)
    decreases |s|
  {
    match Find(s, sep)
    case None => [s]
    case Some(k) =>
      assert k + |sep| <= |s|;
      var rest := Split(s[k + |sep|..], sep);
      OccurrenceInPrefix(s, sep, k);
      assert s[..k] + sep + s[k + |sep|..] == s;
      [s[..k]] + rest
  }

  /** `sep.join(parts)`. */
  function JoinWith(parts: seq<string>, sep: string): string
    requires |parts| >= 1
    decreases |parts|
  {
    if |parts| == 1 then parts[0] else parts[0] + sep + JoinWith(parts[1..], sep)
  }

  /** An occurrence of `t` inside `s[..k]` is an occurrence in `s` that starts before `k`. */
  lemma OccurrenceInPrefix(s: string, t: string, k: nat)
    requires |t| > 0 && k <= |s|
    ensures Contains(s[..k], t) ==> exists i :: 0 <= i < k && StartsWith(s[i..], t)
  {
    var p := s[..k];
    if Contains(p, t) {
      var j := FindFirst(p, t);
      assert s[j..][..|t|] == p[j..j + |t|];
    }
  }

  /** When `sep` begins with a character `x` lacks, its first occurrence in `x + sep` is the one after `x`. */
  lemma FindAtEnd(x: string, sep: string)
    requires |sep| > 0 && forall i :: 0 <= i < |x| ==> x[i] != sep[0]
    ensures Find(x + sep, sep) == Some(|x|)
  {
    var s := x + sep;
    assert s[|x|..|x| + |sep|] == sep;
    forall i | 0 <= i < |x|
      ensures !StartsWith(s[i..], sep)
    {
      assert s[i..][0] == x[i];
    }
    FindIs(s, sep, |x|);
  }

  /** With exactly one occurrence of `sep`, the split has the text on its two sides. */
  lemma SplitOnce(x: string, sep: string, y: string)
    requires |sep| > 0
    requires Find(x + sep, sep) == Some(|x|)
    requires !Contains(y, sep)
    ensures Split(x + sep + y, sep) == [x, y]
  {
    FindExtends(x + sep, y, sep);
    assert x + sep + y == (x + sep) + y;
    assert (x + sep + y)[|x| + |sep|..] == y;
    assert (x + sep + y)[..|x|] == x;
  }

  /** A separator whose first character `x` lacks splits `x + sep + y` into `x` and `y` when `y` holds no further `sep`. */
  lemma SplitAtFirst(x: string, sep: string, y: string)
    requires |sep| > 0 && forall i :: 0 <= i < |x| ==> x[i] != sep[0]
    requires !Contains(y, sep)
    ensures Split(x + sep + y, sep) == [x, y]
  {
    FindAtEnd(x, sep);
    SplitOnce(x, sep, y);
  }

  /**
   * Python's `s.replace(pat, "")` for a non-empty `pat`: removes the
   * non-overlapping occurrences of `pat`, scanned from the left.
   */
  function RemoveAll(s: string, pat: string): (r: string)
    requires |pat| > 0
    ensures |r| <= |s|
    ensures IsSubsequence(r, s)
    ensures !Contains(s, pat) ==> r == s
    decreases |s|
  {
    if |s| < |pat| then
      SubsequenceRefl(s);
      s
    else if s[..|pat|] == pat then
      var r := RemoveAll(s[|pat|..], pat);
      SubsequenceOfSuffix(r, s, |pat|);
      r
    else
      var r := RemoveAll(s[1..], pat);
      assert ([s[0]] + r)[1..] == r;
      [s[0]] + r
  }

  /** `r` is `s` with some characters deleted: the rest in their order. */
  predicate IsSubsequence(r: string, s: string)
    decreases |s|
  {
    if r == [] then true
    else if s == [] then false
    else (r[0] == s[0] && IsSubsequence(r[1..], s[1..])) || IsSubsequence(r, s[1..])
  }

  lemma {:induction false} SubsequenceRefl(s: string)
    ensures IsSubsequence(s, s)
    decreases |s|
  {
    if s != [] {
      SubsequenceRefl(s[1..]);
    }
  }

  /** A subsequence of a suffix is a subsequence of the whole. */
  lemma {:induction false} SubsequenceOfSuffix(r: string, s: string, k: nat)
    requires k <= |s| && IsSubsequence(r, s[k..])
    ensures IsSubsequence(r, s)
    decreases k
  {
    if k > 0 {
      assert s[1..][k - 1..] == s[k..];
      SubsequenceOfSuffix(r, s[1..], k - 1);
    }
  }

  /**
   * When no occurrence of `pat` straddles the boundary, removing it from
   * `x + y` removes it from `x` and from `y` separately.
   */
  lemma {:induction false} RemoveAllConcat(x: string, y: string, pat: string)
    requires |pat| > 0
    requires NoStraddle(x, y, pat)
    ensures RemoveAll(x + y, pat) == RemoveAll(x, pat) + RemoveAll(y, pat)
    decreases |x|
  {
    if x == [] {
      assert x + y == y;
    } else if |x| >= |pat| {
      var d := if x[..|pat|] == pat then |pat| else 1;
      NoStraddleTail(x, y, pat, d);
      RemoveAllConcat(x[d..], y, pat);
      RemoveAllLongStep(x, y, pat);
    } else {
      assert (x + y)[0..] == x + y;
      NoStraddleTail(x, y, pat, 1);
      RemoveAllConcat(x[1..], y, pat);
      RemoveAllShortStep(x, y, pat);
    }
  }

  /** No occurrence of `pat` in `x + y` starts in `x` and ends in `y`. */
  predicate NoStraddle(x: string, y: string, pat: string) {
    forall i :: 0 <= i < |x| < i + |pat| <= |x| + |y| ==> !StartsWith((x + y)[i..], pat)
  }

  lemma NoStraddleTail(x: string, y: string, pat: string, d: nat)
    requires d <= |x| && NoStraddle(x, y, pat)
    ensures NoStraddle(x[d..], y, pat)
  {
    var x' := x[d..];
    forall i | 0 <= i < |x'| < i + |pat| <= |x'| + |y|
      ensures !StartsWith((x' + y)[i..], pat)
    {
      assert (x' + y)[i..] == (x + y)[i + d..];
    }
  }

  /** One step of the scan from a position at least `|pat|` before the boundary. */
  lemma RemoveAllLongStep(x: string, y: string, pat: string)
    requires 0 < |pat| <= |x|
    ensures x[..|pat|] == pat ==>
              RemoveAll(x + y, pat) == RemoveAll(x[|pat|..] + y, pat)
              && RemoveAll(x, pat) == RemoveAll(x[|pat|..], pat)
    ensures x[..|pat|] != pat ==>
              RemoveAll(x + y, pat) == [x[0]] + RemoveAll(x[1..] + y, pat)
              && RemoveAll(x, pat) == [x[0]] + RemoveAll(x[1..], pat)
  {
    var s := x + y;
    assert s[..|pat|] == x[..|pat|];
    assert s[|pat|..] == x[|pat|..] + y;
    assert s[1..] == x[1..] + y;
    RemoveAllHead(s, pat);
    RemoveAllHead(x, pat);
  }

  /** The first step of `replace(pat, "")` on text at least as long as `pat`. */
  lemma RemoveAllHead(s: string, pat: string)
    requires 0 < |pat| <= |s|
    ensures s[..|pat|] == pat ==> RemoveAll(s, pat) == RemoveAll(s[|pat|..], pat)
    ensures s[..|pat|] != pat ==> RemoveAll(s, pat) == [s[0]] + RemoveAll(s[1..], pat)
  {
  }

  /** One step of the scan from a position less than `|pat|` before the boundary, where nothing matches. */
  lemma RemoveAllShortStep(x: string, y: string, pat: string)
    requires 0 < |x| < |pat|
    requires |x| + |y| >= |pat| ==> !StartsWith(x + y, pat)
    ensures RemoveAll(x + y, pat) == [x[0]] + RemoveAll(x[1..] + y, pat)
    ensures RemoveAll(x, pat) == [x[0]] + RemoveAll(x[1..], pat)
  {
    var s := x + y;
    assert s[1..] == x[1..] + y;
    RemoveAllNoMatchHead(s, pat);
    RemoveAllNoMatchHead(x, pat);
  }

  /** Text that does not start with `pat` keeps its first character and goes on from the second. */
  lemma RemoveAllNoMatchHead(s: string, pat: string)
    requires 0 < |s| && 0 < |pat|
    requires |s| >= |pat| ==> !StartsWith(s, pat)
    ensures RemoveAll(s, pat) == [s[0]] + RemoveAll(s[1..], pat)
  {
    if |s| < |pat| {
      assert [s[0]] + s[1..] == s;
    } else {
      assert s[..|pat|] != pat;
    }
  }

  // ---------------------------------------------------------------------------
  // Whitespace and the strip family
  // ---------------------------------------------------------------------------

  /** The characters for which Python's `str.isspace()` holds. */
  const Whitespace: set<char> := {
    '\t', '\n', '\U{0B}', '\U{0C}', '\r', '\U{1C}', '\U{1D}', '\U{1E}', '\U{1F}', ' ',
    '\U{85}', '\U{A0}', '\U{1680}',
    '\U{2000}', '\U{2001}', '\U{2002}', '\U{2003}', '\U{2004}', '\U{2005}',
    '\U{2006}', '\U{2007}', '\U{2008}', '\U{2009}', '\U{200A}',
    '\U{2028}', '\U{2029}', '\U{202F}', '\U{205F}', '\U{3000}'
  }

  /** `s.lstrip(chars)`: drops the longest prefix made of `cs`. */
  function LStrip(s: string, cs: set<char>): (r: string)
    ensures |r| <= |s|
    ensures r == [] || r[0] !in cs
    ensures forall i :: 0 <= i < |s| - |r| ==> s[i] in cs
    decreases |s|
  {
    if |s| > 0 && s[0] in cs then LStrip(s[1..], cs) else s
  }

  /** `s.rstrip(chars)`: drops the longest suffix made of `cs`. */
  function RStrip(s: string, cs: set<char>): (r: string)
    ensures |r| <= |s|
    ensures r == [] || r[|r| - 1] !in cs
    ensures forall i :: |r| <= i < |s| ==> s[i] in cs
    decreases |s|
  {
    if |s| > 0 && s[|s| - 1] in cs then RStrip(s[..|s| - 1], cs) else s
  }

  /** What `lstrip` leaves is a suffix of its input. */
  lemma {:induction false} LStripSuffix(s: string, cs: set<char>)
    ensures LStrip(s, cs) == s[|s| - |LStrip(s, cs)|..]
    decreases |s|
  {
    if |s| > 0 && s[0] in cs {
      LStripSuffix(s[1..], cs);
      assert s[1..][|s[1..]| - |LStrip(s[1..], cs)|..] == s[|s| - |LStrip(s, cs)|..];
    }
  }

  /** What `rstrip` leaves is a prefix of its input. */
  lemma {:induction false} RStripPrefix(s: string, cs: set<char>)
    ensures RStrip(s, cs) == s[..|RStrip(s, cs)|]
    decreases |s|
  {
    if |s| > 0 && s[|s| - 1] in cs {
      RStripPrefix(s[..|s| - 1], cs);
      assert s[..|s| - 1][..|RStrip(s, cs)|] == s[..|RStrip(s, cs)|];
    }
  }

  /** `s.strip(chars)`. */
  function Strip(s: string, cs: set<char>): (r: string)
    ensures |r| <= |s|
    ensures r == [] || (r[0] !in cs && r[|r| - 1] !in cs)
  {
    RStripPrefix(LStrip(s, cs), cs);
    RStrip(LStrip(s, cs), cs)
  }

  /** Each character `strip` keeps sits in its input just past what `lstrip` dropped. */
  lemma StripIndex(s: string, cs: set<char>, j: nat)
    requires j < |Strip(s, cs)|
    ensures |s| - |LStrip(s, cs)| + j < |s| && s[|s| - |LStrip(s, cs)| + j] == Strip(s, cs)[j]
  {
    LStripSuffix(s, cs);
    RStripPrefix(LStrip(s, cs), cs);
  }

  /** A character outside `cs` survives stripping. */
  lemma StripKeepsChar(s: string, cs: set<char>, p: nat)
    requires p < |s| && s[p] !in cs
    ensures Contains(Strip(s, cs), [s[p]])
  {
    var l := LStrip(s, cs);
    LStripSuffix(s, cs);
    RStripPrefix(l, cs);
    var q := p - (|s| - |l|);
    assert 0 <= q && l[q] == s[p];
    ContainsCharAt(RStrip(l, cs), q);
  }

  lemma ContainsCharAt(r: string, q: nat)
    requires q < |r|
    ensures Contains(r, [r[q]])
  {
    assert r[q..q + 1] == [r[q]];
    ContainsAt(r, [r[q]], q);
  }

  /** A string that neither begins nor ends with a character of `cs` is left alone. */
  lemma StripNoop(s: string, cs: set<char>)
    requires s == [] || (s[0] !in cs && s[|s| - 1] !in cs)
    ensures LStrip(s, cs) == s && RStrip(s, cs) == s && Strip(s, cs) == s
  {
  }

  /** Stripping a stripped character off the front of text that is already stripped. */
  lemma StripLeading(c: char, v: string, cs: set<char>)
    requires c in cs && v != [] && v[0] !in cs && v[|v| - 1] !in cs
    ensures Strip([c] + v, cs) == v
  {
    assert ([c] + v)[1..] == v;
    StripNoop(v, cs);
  }

  /** Right strip of text that ends in a kept character only looks at that text. */
  lemma RStripAppend(x: string, y: string, cs: set<char>)
    requires y != [] && y[|y| - 1] !in cs
    ensures RStrip(x + y, cs) == x + y
  {
  }

  /** Left strip of text followed by a kept character stops before that character. */
  lemma {:induction false} LStripConcat(x: string, y: string, cs: set<char>)
    requires y != [] && y[0] !in cs
    ensures LStrip(x + y, cs) == LStrip(x, cs) + y
    decreases |x|
  {
    if x != [] && x[0] in cs {
      assert (x + y)[1..] == x[1..] + y;
      LStripConcat(x[1..], y, cs);
    }
  }

  // ---------------------------------------------------------------------------
  // Case mapping
  // ---------------------------------------------------------------------------

  /**
   * Python's `upper()` on one character, as far as it can map onto the
   * ASCII letters: `a`-`z`, dotless i (U+0131) and long s (U+017F).
   * Every other character keeps a non-ASCII or unchanged upper form,
   * which is all the comparisons against ASCII names in the scripts see.
   */
  function UpperChar(c: char): char {
    if 'a' <= c <= 'z' then (c as int - 32) as char
    else if c == '\U{0131}' then 'I'
    else if c == '\U{017F}' then 'S'
    else c
  }

  function Upper(s: string): (r: string)
    ensures |r| == |s|
    ensures forall i :: 0 <= i < |s| ==> r[i] == UpperChar(s[i])
  {
    seq(|s|, i requires 0 <= i < |s| => UpperChar(s[i]))
  }

  // ---------------------------------------------------------------------------
  // Digits, int(str) and str(int)
  // ---------------------------------------------------------------------------

  predicate IsDigit(c: char) {
    '0' <= c <= '9'
  }

  /** Python's `s.isdigit()` on text that holds only ASCII characters. */
  predicate IsAllDigits(s: string) {
    |s| > 0 && forall i :: 0 <= i < |s| ==> IsDigit(s[i])
  }

  function DigitChar(d: nat): char
    requires d < 10
  {
    ('0' as int + d) as char
  }

  /** `str(n)` for a non-negative integer. */
  function NatToString(n: nat): (r: string)
    ensures IsAllDigits(r)
    decreases n
  {
    if n < 10 then [DigitChar(n)] else NatToString(n / 10) + [DigitChar(n % 10)]
  }

  /** A decimal literal as `int()` accepts it: digits, single underscores between them. */
  predicate IsDecimalLiteral(d: string) {
    && |d| > 0 && IsDigit(d[0]) && IsDigit(d[|d| - 1])
    && (forall i :: 0 <= i < |d| ==> IsDigit(d[i]) || d[i] == '_')
    && (forall i :: 0 <= i < |d| - 1 ==> !(d[i] == '_' && d[i + 1] == '_'))
  }

  /** The value of a decimal literal; the underscores carry no value. */
  function LiteralValue(d: string): nat
    decreases |d|
  {
    if |d| == 0 then 0
    else if IsDigit(d[|d| - 1]) then LiteralValue(d[..|d| - 1]) * 10 + (d[|d| - 1] as int - '0' as int)
    else LiteralValue(d[..|d| - 1])
  }

  /**
   * Python's `int(s)` (base 10, ASCII digits): surrounding whitespace is
   * ignored, one sign is allowed; anything else raises `ValueError`,
   * which is `None` here.
   */
  function ParseInt(s: string): (r: Option<int>)
    ensures r.Some? ==> exists k :: 0 <= k < |s| && IsDigit(s[k])
  {
    var t := Strip(s, Whitespace);
    if |t| > 0 && (t[0] == '+' || t[0] == '-') then
      if IsDecimalLiteral(t[1..]) then
        assert IsDigit(t[1..][0]);
        StripIndex(s, Whitespace, 1);
        var v: int := LiteralValue(t[1..]);
        Some(if t[0] == '-' then -v else v)
      else None
    else if IsDecimalLiteral(t) then
      assert IsDigit(t[0]);
      StripIndex(s, Whitespace, 0);
      Some(LiteralValue(t))
    else None
  }

  lemma {:induction false} NatToStringValue(n: nat)
    ensures LiteralValue(NatToString(n)) == n
    decreases n
  {
    if n >= 10 {
      var p := NatToString(n / 10);
      assert (p + [DigitChar(n % 10)])[..|p|] == p;
      NatToStringValue(n / 10);
    }
  }

  /**
   * `int()` of a decimal literal, signed or not, between runs of
   * whitespace is the literal's value, negated under `-`.
   */
  lemma ParseIntOfLiteral(pre: string, sign: string, d: string, post: string)
    requires forall i :: 0 <= i < |pre| ==> pre[i] in Whitespace
    requires forall i :: 0 <= i < |post| ==> post[i] in Whitespace
    requires sign == "" || sign == "+" || sign == "-"
    requires IsDecimalLiteral(d)
    ensures ParseInt(pre + sign + d + post) == Some(if sign == "-" then -(LiteralValue(d) as int) else LiteralValue(d))
  {
    LiteralStrips(pre, sign, d, post);
    ParseIntOfStripped(pre + sign + d + post, sign, d);
  }

  /** Whitespace around an optionally signed literal is all `strip()` removes. */
  lemma LiteralStrips(pre: string, sign: string, d: string, post: string)
    requires forall i :: 0 <= i < |pre| ==> pre[i] in Whitespace
    requires forall i :: 0 <= i < |post| ==> post[i] in Whitespace
    requires sign == "" || sign == "+" || sign == "-"
    requires IsDecimalLiteral(d)
    ensures Strip(pre + sign + d + post, Whitespace) == sign + d
  {
    SignedEnds(sign, d);
    StripPadded(pre, sign + d, post, Whitespace);
    assert pre + sign + d + post == pre + (sign + d) + post;
  }

  /** An optionally signed literal neither starts nor ends with whitespace. */
  lemma SignedEnds(sign: string, d: string)
    requires sign == "" || sign == "+" || sign == "-"
    requires |d| > 0 && IsDigit(d[0]) && IsDigit(d[|d| - 1])
    ensures (sign + d) != [] && (sign + d)[0] !in Whitespace && (sign + d)[|sign + d| - 1] !in Whitespace
  {
    var t := sign + d;
    assert t[|t| - 1] == d[|d| - 1];
    DigitNotWhitespace(d[|d| - 1]);
    if sign != "" {
      assert t[0] == sign[0];
      VisibleNotWhitespace(sign[0]);
    } else {
      assert t[0] == d[0];
      DigitNotWhitespace(d[0]);
    }
  }

  /** `int()` of text that strips to an optionally signed decimal literal. */
  lemma ParseIntOfStripped(s: string, sign: string, d: string)
    requires sign == "" || sign == "+" || sign == "-"
    requires IsDecimalLiteral(d) && Strip(s, Whitespace) == sign + d
    ensures ParseInt(s) == Some(if sign == "-" then -(LiteralValue(d) as int) else LiteralValue(d))
  {
    var t := Strip(s, Whitespace);
    if sign == "" {
      assert t == d;
      assert !(t[0] == '+' || t[0] == '-');
    } else {
      assert t[0] == sign[0] && t[1..] == d;
    }
  }

  /** Stripping text padded on both sides with characters of `cs` gives back the text. */
  lemma StripPadded(pre: string, t: string, post: string, cs: set<char>)
    requires forall i :: 0 <= i < |pre| ==> pre[i] in cs
    requires forall i :: 0 <= i < |post| ==> post[i] in cs
    requires t != [] && t[0] !in cs && t[|t| - 1] !in cs
    ensures Strip(pre + t + post, cs) == t
  {
    assert pre + t + post == pre + (t + post);
    LStripConcat(pre, t + post, cs);
    LStripAll(pre, cs);
    assert [] + (t + post) == t + post;
    RStripTail(t, post, cs);
  }

  /** Text made only of characters of `cs` strips to nothing from the left. */
  lemma {:induction false} LStripAll(s: string, cs: set<char>)
    requires forall i :: 0 <= i < |s| ==> s[i] in cs
    ensures LStrip(s, cs) == []
    decreases |s|
  {
    if s != [] {
      LStripAll(s[1..], cs);
    }
  }

  /** A tail made only of characters of `cs` after a kept last character is what `rstrip` drops. */
  lemma {:induction false} RStripTail(t: string, post: string, cs: set<char>)
    requires t != [] && t[|t| - 1] !in cs
    requires forall i :: 0 <= i < |post| ==> post[i] in cs
    ensures RStrip(t + post, cs) == t
    decreases |post|
  {
    if post == [] {
      assert t + post == t;
    } else {
      var p' := post[..|post| - 1];
      assert (t + post)[..|t + post| - 1] == t + p';
      RStripTail(t, p', cs);
    }
  }

  /** Visible ASCII characters are not whitespace. */
  lemma VisibleNotWhitespace(c: char)
    requires 0x21 <= c as int <= 0x7E
    ensures c !in Whitespace
  {
  }

  lemma DigitNotWhitespace(c: char)
    requires IsDigit(c)
    ensures c !in Whitespace
  {
  }

  /** `int(str(n)) == n`, the step the ledger's round trip relies on. */
  lemma ParseNatToString(n: nat)
    ensures ParseInt(NatToString(n)) == Some(n)
  {
    var d := NatToString(n);
    DigitNotWhitespace(d[0]);
    DigitNotWhitespace(d[|d| - 1]);
    StripNoop(d, Whitespace);
    NatToStringValue(n);
  }

  // ---------------------------------------------------------------------------
  // The two substitutions of the name sanitizer
  // ---------------------------------------------------------------------------

  /** `re.sub(r'__+', '_', s)`: every run of underscores becomes one. */
  function CollapseUnderscores(s: string): (r: string)
    ensures |r| <= |s|
    ensures forall i :: 0 <= i < |r| - 1 ==> !(r[i] == '_' && r[i + 1] == '_')
    ensures |s| > 0 ==> |r| > 0 && r[0] == s[0] && r[|r| - 1] == s[|s| - 1]
    ensures WithoutUnderscores(r) == WithoutUnderscores(s)
    decreases |s|
  {
    if |s| <= 1 then s
    else if s[0] == '_' && s[1] == '_' then CollapseUnderscores(s[1..])
    else
      var r := CollapseUnderscores(s[1..]);
      assert ([s[0]] + r)[1..] == r;
      [s[0]] + r
  }

  /** The text with every `_` deleted: what collapsing must keep, in order. */
  function WithoutUnderscores(s: string): string
    decreases |s|
  {
    if s == [] then [] else (if s[0] == '_' then [] else [s[0]]) + WithoutUnderscores(s[1..])
  }

  /** Collapsing only drops underscores: every character it keeps comes from `s`. */
  lemma {:induction false} CollapseKeepsCharacters(s: string)
    ensures forall i :: 0 <= i < |CollapseUnderscores(s)| ==> CollapseUnderscores(s)[i] in s
    decreases |s|
  {
    if |s| > 1 {
      var t := s[1..];
      var rt := CollapseUnderscores(t);
      CollapseKeepsCharacters(t);
      assert forall c :: c in t ==> c in s;
      if s[0] == '_' && s[1] == '_' {
        assert CollapseUnderscores(s) == rt;
      } else {
        var r := [s[0]] + rt;
        assert CollapseUnderscores(s) == r;
        forall i | 0 <= i < |r|
          ensures r[i] in s
        {
          if i > 0 {
            assert r[i] == rt[i - 1];
          }
        }
      }
    }
  }
}

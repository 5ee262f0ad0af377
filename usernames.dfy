/**
 * `sanitize_username` of fetch_all_models.py: the sanitized account name
 * that names the ledger file, or the reason it is refused.
 */
module Usernames {
  import opened Wrappers
  import opened PyStr
  import Paths

  /** The characters of `[a-zA-Z0-9_\-]`. */
  predicate IsUsernameChar(c: char) {
    ('a' <= c <= 'z') || ('A' <= c <= 'Z') || ('0' <= c <= '9') || c == '_' || c == '-'
  }

  predicate IsAlphanumeric(c: char) {
    ('a' <= c <= 'z') || ('A' <= c <= 'Z') || ('0' <= c <= '9')
  }

  predicate AllUsernameChars(s: string) {
    forall i :: 0 <= i < |s| ==> IsUsernameChar(s[i])
  }

  /** The longest name `sanitize_username` returns. */
  const MaxUsernameLength := 64

  /** The `ValueError`s `sanitize_username` raises. */
  datatype UsernameError =
    | EmptyUsername    // "Username must be a non-empty string"
    | NothingLeft      // "... cannot be sanitized to a valid filename"
    | NoAlphanumeric   // "... contains no alphanumeric characters"
    | ReservedName     // "... is a reserved system name"

  /** `re.sub(r'[^a-zA-Z0-9_\-]', '_', s)`. */
  function ReplaceDisallowed(s: string): (r: string)
    ensures |r| == |s| && AllUsernameChars(r)
    ensures forall i :: 0 <= i < |s| ==> r[i] == if IsUsernameChar(s[i]) then s[i] else '_'
  {
    seq(|s|, i requires 0 <= i < |s| => if IsUsernameChar(s[i]) then s[i] else '_')
  }

  lemma AllUsernameCharsSlice(s: string, a: int, b: int)
    requires AllUsernameChars(s) && 0 <= a <= b <= |s|
    ensures AllUsernameChars(s[a..b])
  {
    forall i | 0 <= i < b - a
      ensures IsUsernameChar(s[a..b][i])
    {
      assert s[a..b][i] == s[a + i];
    }
  }

  /** `re.sub(...)` followed by `.strip('_.')`. */
  function Cleaned(username: string): (r: string)
    ensures AllUsernameChars(r)
    ensures r == [] || (r[0] != '_' && r[|r| - 1] != '_')
  {
    var s := ReplaceDisallowed(username);
    StripKeepsUsernameChars(s, {'_', '.'});
    Strip(s, {'_', '.'})
  }

  lemma StripKeepsUsernameChars(s: string, cs: set<char>)
    requires AllUsernameChars(s)
    ensures AllUsernameChars(Strip(s, cs))
  {
    var l := LStrip(s, cs);
    LStripSuffix(s, cs);
    RStripPrefix(l, cs);
    AllUsernameCharsSlice(s, |s| - |l|, |s|);
    AllUsernameCharsSlice(l, 0, |RStrip(l, cs)|);
  }

  /** An all-digit name gets the `user_` prefix. */
  function Prefixed(c: string): (p: string)
    ensures !IsAllDigits(p)
    ensures |c| <= |p| && p[|p| - |c|..] == c
  {
    if IsAllDigits(c) then
      assert !IsDigit(("user_" + c)[0]);
      "user_" + c
    else c
  }

  /** What every accepted name satisfies. */
  predicate ValidUsername(r: string) {
    && r != []
    && AllUsernameChars(r)
    && |r| <= MaxUsernameLength
    && r[0] != '_'
    && Upper(r) !in Paths.ReservedNames
  }

  lemma PrefixedKeepsShape(c: string)
    requires c != [] && AllUsernameChars(c) && c[0] != '_'
    ensures var p := Prefixed(c); p != [] && AllUsernameChars(p) && p[0] != '_' && |p| >= |c|
  {
    if IsAllDigits(c) {
      var p := "user_" + c;
      forall i | 0 <= i < |p|
        ensures IsUsernameChar(p[i])
      {
        if i >= 5 {
          assert p[i] == c[i - 5];
        }
      }
    }
  }

  /** `safe[:64]`. */
  function CutToMaxLength(p: string): (r: string)
    ensures |r| <= MaxUsernameLength && |r| <= |p| && r == p[..|r|]
    ensures |p| <= MaxUsernameLength ==> r == p
  {
    if |p| > MaxUsernameLength then p[..MaxUsernameLength] else p
  }

  lemma ShortCutIsIdentity(p: string)
    requires |CutToMaxLength(p)| < MaxUsernameLength
    ensures CutToMaxLength(p) == p
  {
  }

  /** The last two steps: the device-name test and the cut to 64 characters. */
  function RejectReservedAndCut(p: string): (r: Result<string, UsernameError>)
    requires p != [] && AllUsernameChars(p) && p[0] != '_'
    ensures r.Ok? || r == Err(ReservedName)
    ensures r == Err(ReservedName) <==> Upper(p) in Paths.ReservedNames
    ensures r.Ok? ==> ValidUsername(r.value)
    ensures r.Ok? ==> r.value == CutToMaxLength(p)
  {
    if Upper(p) in Paths.ReservedNames then Err(ReservedName)
    else if |p| > MaxUsernameLength then
      var t := p[..MaxUsernameLength];
      Paths.LongNameNotReserved(Upper(t));
      AllUsernameCharsSlice(p, 0, MaxUsernameLength);
      Ok(t)
    else Ok(p)
  }

  /**
   * `sanitize_username(username)`; `Err` stands for the `ValueError`.
   * Accepted names satisfy `ValidUsername`, and each error is raised
   * exactly under its own condition, checked in the source's order.
   */
  function SanitizeUsername(username: string): (r: Result<string, UsernameError>)
    ensures r.Ok? ==> ValidUsername(r.value)
  {
    if username == [] then Err(EmptyUsername)
    else
      var safe := Cleaned(username);
      if safe == [] then Err(NothingLeft)
      else if Strip(safe, {'_', '-'}) == [] then Err(NoAlphanumeric)
      else
        PrefixedKeepsShape(safe);
        RejectReservedAndCut(Prefixed(safe))
  }

  /**
   * Each error is raised exactly under its own condition, checked in the
   * source's order, and an accepted name is the cleaned name, prefixed
   * when all digits, cut to 64 characters.
   */
  lemma SanitizeUsernameOutcomes(username: string)
    ensures var r := SanitizeUsername(username);
            && (r == Err(EmptyUsername) <==> username == [])
            && (r == Err(NothingLeft) <==> username != [] && Cleaned(username) == [])
            && (r == Err(NoAlphanumeric) <==>
                  username != [] && Cleaned(username) != [] && Strip(Cleaned(username), {'_', '-'}) == [])
            && (r == Err(ReservedName) <==>
                  username != [] && Cleaned(username) != [] && Strip(Cleaned(username), {'_', '-'}) != []
                  && Upper(Prefixed(Cleaned(username))) in Paths.ReservedNames)
            && (r.Ok? ==> r.value == CutToMaxLength(Prefixed(Cleaned(username))))
  {
    if username != [] && Cleaned(username) != [] {
      PrefixedKeepsShape(Cleaned(username));
    }
  }

  /** The conditions under which a name is accepted, and the name it becomes. */
  lemma SanitizeUsernameAccepts(u: string)
    requires u != [] && Cleaned(u) != [] && Strip(Cleaned(u), {'_', '-'}) != []
    requires Upper(Prefixed(Cleaned(u))) !in Paths.ReservedNames
    ensures SanitizeUsername(u) == Ok(CutToMaxLength(Prefixed(Cleaned(u))))
  {
    PrefixedKeepsShape(Cleaned(u));
  }

  /** An accepted name passed every test and is the cleaned name, prefixed when all digits, then cut. */
  lemma SanitizeUsernameAccepted(u: string)
    requires SanitizeUsername(u).Ok?
    ensures u != [] && Cleaned(u) != [] && Strip(Cleaned(u), {'_', '-'}) != []
    ensures SanitizeUsername(u).value == CutToMaxLength(Prefixed(Cleaned(u)))
  {
    PrefixedKeepsShape(Cleaned(u));
  }

  /** A name is kept only if one of its characters is neither `_` nor `-`. */
  lemma {:induction false} StripLeavesKept(s: string, cs: set<char>, k: nat)
    requires k < |s| && s[k] !in cs
    ensures Strip(s, cs) != []
  {
    var l := LStrip(s, cs);
    LStripSuffix(s, cs);
    assert |s| - |l| <= k;
    assert l[k - (|s| - |l|)] == s[k];
    var r := RStrip(l, cs);
    assert |r| > k - (|s| - |l|);
  }

  /** A name that survives the `_`/`-` strip holds a letter or digit. */
  lemma KeptCharIsAlphanumeric(safe: string) returns (k: nat)
    requires AllUsernameChars(safe) && Strip(safe, {'_', '-'}) != []
    ensures k < |safe| && IsAlphanumeric(safe[k])
  {
    var l := LStrip(safe, {'_', '-'});
    LStripSuffix(safe, {'_', '-'});
    k := |safe| - |l|;
    assert l[0] == safe[k];
    assert IsUsernameChar(safe[k]);
  }

  /** An accepted name shorter than the cap is the cleaned name, prefixed when all digits. */
  lemma ShortResultIsPrefixed(username: string)
    requires SanitizeUsername(username).Ok? && |SanitizeUsername(username).value| < MaxUsernameLength
    ensures username != [] && Cleaned(username) != [] && Strip(Cleaned(username), {'_', '-'}) != []
    ensures SanitizeUsername(username).value == Prefixed(Cleaned(username))
  {
    SanitizeUsernameAccepted(username);
    ShortCutIsIdentity(Prefixed(Cleaned(username)));
  }

  /** The `user_` prefix keeps the letter or digit the strip test found. */
  lemma PrefixedHasAlphanumeric(safe: string) returns (i: nat)
    requires AllUsernameChars(safe) && Strip(safe, {'_', '-'}) != []
    ensures i < |Prefixed(safe)| && IsAlphanumeric(Prefixed(safe)[i])
  {
    var k := KeptCharIsAlphanumeric(safe);
    i := if IsAllDigits(safe) then k + 5 else k;
  }

  /** No accepted name of fewer than 64 characters is made of `_` and `-` alone. */
  lemma ShortResultHasAlphanumeric(username: string)
    requires SanitizeUsername(username).Ok? && |SanitizeUsername(username).value| < MaxUsernameLength
    ensures exists i :: 0 <= i < |SanitizeUsername(username).value| && IsAlphanumeric(SanitizeUsername(username).value[i])
  {
    ShortResultIsPrefixed(username);
    var i := PrefixedHasAlphanumeric(Cleaned(username));
    assert IsAlphanumeric(SanitizeUsername(username).value[i]);
  }

  /** Cleaning leaves a name of allowed characters without edge underscores alone. */
  lemma CleanedNoop(u: string)
    requires AllUsernameChars(u) && (u == [] || (u[0] != '_' && u[|u| - 1] != '_'))
    ensures ReplaceDisallowed(u) == u && LStrip(u, {'_', '.'}) == u && RStrip(u, {'_', '.'}) == u
    ensures Cleaned(u) == u
  {
    assert ReplaceDisallowed(u) == u;
    StripNoop(u, {'_', '.'});
  }

  /** A name that is already clean is accepted unchanged. */
  lemma CleanNameIsKept(u: string)
    requires u != [] && AllUsernameChars(u) && u[0] != '_' && u[|u| - 1] != '_'
    requires exists k :: 0 <= k < |u| && IsAlphanumeric(u[k])
    requires !IsAllDigits(u) && Upper(u) !in Paths.ReservedNames && |u| <= MaxUsernameLength
    ensures SanitizeUsername(u) == Ok(u)
  {
    var k :| 0 <= k < |u| && IsAlphanumeric(u[k]);
    CleanNameSurvives(u, k);
    SanitizeUsernameOutcomes(u);
  }

  lemma CleanNameSurvives(u: string, k: nat)
    requires u != [] && AllUsernameChars(u) && u[0] != '_' && u[|u| - 1] != '_'
    requires k < |u| && IsAlphanumeric(u[k]) && !IsAllDigits(u) && |u| <= MaxUsernameLength
    ensures Cleaned(u) == u && Strip(u, {'_', '-'}) != [] && CutToMaxLength(Prefixed(u)) == u
  {
    var c := u[k];
    assert c != '_' && c != '-';
    assert c !in {'_', '-'};
    StripLeavesKept(u, {'_', '-'}, k);
    assert Prefixed(u) == u;
    assert CutToMaxLength(u) == u;
    CleanedNoop(u);
  }

  /**
   * The cut to 64 characters comes after the alphanumeric test, so 64
   * hyphens followed by a letter are accepted as the 64 hyphens alone.
   */
  lemma CutCanLeaveOnlyHyphens(h: string, c: char)
    requires |h| == MaxUsernameLength && forall i :: 0 <= i < |h| ==> h[i] == '-'
    requires 'a' <= c <= 'z'
    ensures SanitizeUsername(h + [c]) == Ok(h)
    ensures forall i :: 0 <= i < |h| ==> !IsAlphanumeric(h[i])
  {
    var u := h + [c];
    assert AllUsernameChars(u) by {
      forall i | 0 <= i < |u|
        ensures IsUsernameChar(u[i])
      {
        if i < |h| {
          assert u[i] == h[i];
        }
      }
    }
    assert u[|h|] == c;
    HyphenNameSurvives(u, h, MaxUsernameLength);
  }

  lemma HyphenNameSurvives(u: string, h: string, k: nat)
    requires AllUsernameChars(u) && |u| > MaxUsernameLength && u[..MaxUsernameLength] == h
    requires u[0] == '-' && k < |u| && 'a' <= u[k] <= 'z' && u[|u| - 1] != '_'
    ensures SanitizeUsername(u) == Ok(h)
  {
    HyphenNamePasses(u, k);
    SanitizeUsernameAccepts(u);
  }

  lemma HyphenNamePasses(u: string, k: nat)
    requires AllUsernameChars(u) && |u| > MaxUsernameLength
    requires u[0] == '-' && k < |u| && 'a' <= u[k] <= 'z' && u[|u| - 1] != '_'
    ensures Cleaned(u) == u && Strip(u, {'_', '-'}) != [] && Prefixed(u) == u
    ensures Upper(u) !in Paths.ReservedNames
  {
    StripLeavesKept(u, {'_', '-'}, k);
    assert !IsDigit(u[0]);
    Paths.LongNameNotReserved(Upper(u));
    CleanedNoop(u);
  }

  /** `"123"` becomes `"user_123"`. */
  lemma DigitsGetPrefix()
    ensures SanitizeUsername("123") == Ok("user_123")
  {
    assert ReplaceDisallowed("123") == "123";
    StripNoop("123", {'_', '.'});
    StripNoop("123", {'_', '-'});
    assert IsAllDigits("123");
    assert "user_" + "123" == "user_123";
    Paths.LongNameNotReserved(Upper("user_123"));
  }

  /** Forbidden characters become `_`: `"a/b"` is kept as `"a_b"`. */
  lemma SlashBecomesUnderscore()
    ensures SanitizeUsername("a/b") == Ok("a_b")
  {
    assert ReplaceDisallowed("a/b") == "a_b";
    StripNoop("a_b", {'_', '.'});
    assert Cleaned("a/b") == "a_b";
    StripLeavesKept("a_b", {'_', '-'}, 0);
    assert !IsDigit('a');
    Paths.OddCharNotReserved(Upper("a_b"), 1);
    SanitizeUsernameOutcomes("a/b");
  }

  /** The empty name is refused first. */
  lemma EmptyExample()
    ensures SanitizeUsername("") == Err(EmptyUsername)
  {
  }

  /** A name of dots cleans to nothing. */
  lemma DotsExample()
    ensures SanitizeUsername("..") == Err(NothingLeft)
  {
    assert ReplaceDisallowed("..") == "__";
  }

  /** A name of underscores and hyphens holds no letter or digit. */
  lemma PunctuationExample()
    ensures SanitizeUsername("-_-") == Err(NoAlphanumeric)
  {
    assert ReplaceDisallowed("-_-") == "-_-";
    StripNoop("-_-", {'_', '.'});
  }

  /** Device names are refused whatever their case. */
  lemma ReservedExample()
    ensures SanitizeUsername("con") == Err(ReservedName)
  {
    assert ReplaceDisallowed("con") == "con";
    StripNoop("con", {'_', '.'});
    StripNoop("con", {'_', '-'});
    assert !IsDigit('c');
    assert Upper("con") == "CON";
  }
}

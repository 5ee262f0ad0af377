/**
 * The downloader's name and path sanitizers (civitAI_Model_downloader.py):
 * `sanitize_directory_name`, `sanitize_name`, and the two `os.path`
 * helpers they use, `splitext` and `join`, with POSIX semantics.
 */
module Paths {
  import opened Wrappers
  import opened PyStr

  // ---------------------------------------------------------------------------
  // os.path.splitext and os.path.join (posixpath)
  // ---------------------------------------------------------------------------

  /** `s.rfind(c)`: the last position of `c`, or -1. */
  function RFind(s: string, c: char): (k: int)
    ensures -1 <= k < |s|
    ensures k >= 0 ==> s[k] == c
    ensures forall i :: k < i < |s| ==> s[i] != c
    decreases |s|
  {
    if |s| == 0 then -1
    else if s[|s| - 1] == c then |s| - 1
    else RFind(s[..|s| - 1], c)
  }

  /** `rfind` is pinned down by the last occurrence. */
  lemma RFindAt(s: string, c: char, k: int)
    requires 0 <= k < |s| && s[k] == c && forall i :: k < i < |s| ==> s[i] != c
    ensures RFind(s, c) == k
  {
  }

  /** The last `c` of `x + [c] + y` is the one after `x` when `y` has none. */
  lemma {:induction false} RFindLast(x: string, c: char, y: string)
    requires c !in y
    ensures RFind(x + [c] + y, c) == |x|
    decreases |y|
  {
    var s := x + [c] + y;
    if y != [] {
      assert s[..|s| - 1] == x + [c] + y[..|y| - 1];
      assert s[|s| - 1] == y[|y| - 1];
      RFindLast(x, c, y[..|y| - 1]);
    }
  }

  lemma RFindAbsent(s: string, c: char)
    requires c !in s
    ensures RFind(s, c) == -1
  {
  }

  /**
   * Position `k` starts an extension of `p`: it holds the last dot, no
   * `/` follows it, and the last path component has a non-dot character
   * before it (leading dots belong to the stem).
   */
  ghost predicate ExtensionAt(p: string, k: int) {
    && 0 <= k < |p| && p[k] == '.'
    && (forall i :: k < i < |p| ==> p[i] != '.' && p[i] != '/')
    && (exists j :: 0 <= j < k && p[j] != '.' && p[j] != '/' && forall i :: j < i < k ==> p[i] != '/')
  }

  /** `os.path.splitext(p)`: split before the extension, if there is one. */
  function SplitExt(p: string): (r: (string, string))
    ensures r.0 + r.1 == p
    ensures r.1 == [] || r.1[0] == '.'
  {
    var sepIndex := RFind(p, '/');
    var dotIndex := RFind(p, '.');
    if dotIndex > sepIndex && exists j :: sepIndex < j < dotIndex && p[j] != '.' then
      (p[..dotIndex], p[dotIndex..])
    else
      (p, "")
  }

  /** The extension `SplitExt` finds is exactly the one `ExtensionAt` describes, if any. */
  lemma SplitExtFindsExtension(p: string)
    ensures SplitExt(p).1 != [] ==> ExtensionAt(p, |SplitExt(p).0|)
    ensures SplitExt(p).1 == [] ==> forall k :: !ExtensionAt(p, k)
  {
  }

  /** A single-component name with a non-dot character before its last dot splits there. */
  lemma SplitExtAtLastDot(x: string, y: string, j: nat)
    requires '/' !in x && '/' !in y && '.' !in y
    requires j < |x| && x[j] != '.'
    ensures SplitExt(x + ['.'] + y) == (x, ['.'] + y)
  {
    var p := x + ['.'] + y;
    RFindLast(x, '.', y);
    assert '/' !in p;
    RFindAbsent(p, '/');
    assert p[j] == x[j];
    assert p[..|x|] == x && p[|x|..] == ['.'] + y;
  }

  /** The extension is the text from the last dot on. */
  lemma SplitExtExample()
    ensures SplitExt("lora.pt") == ("lora", ".pt")
  {
    SplitExtAtLastDot("lora", "pt", 0);
    assert "lora" + ['.'] + "pt" == "lora.pt";
  }

  /** Leading dots belong to the stem. */
  lemma SplitExtLeadingDotsExample()
    ensures SplitExt("..x.txt") == ("..x", ".txt")
  {
    SplitExtAtLastDot("..x", "txt", 2);
    assert "..x" + ['.'] + "txt" == "..x.txt";
  }

  /** A name made of a leading dot and no other dot has no extension. */
  lemma SplitExtHiddenFile()
    ensures SplitExt(".hidden") == (".hidden", "")
  {
    RFindLast("", '.', "hidden");
    assert "" + ['.'] + "hidden" == ".hidden";
    RFindAbsent(".hidden", '/');
  }

  /** A dot in a directory component is not an extension. */
  lemma SplitExtDotInDirectory()
    ensures SplitExt("v1.0/readme") == ("v1.0/readme", "")
  {
    RFindLast("v1", '.', "0/readme");
    assert "v1" + ['.'] + "0/readme" == "v1.0/readme";
    RFindLast("v1.0", '/', "readme");
    assert "v1.0" + ['/'] + "readme" == "v1.0/readme";
  }

  /** `os.path.join(a, *parts)`: an absolute part discards what came before it. */
  function Join(a: string, parts: seq<string>): (r: string)
    ensures parts == [] ==> r == a
    decreases |parts|
  {
    if parts == [] then a
    else
      var b := parts[|parts| - 1];
      var path := Join(a, parts[..|parts| - 1]);
      if StartsWith(b, "/") then b
      else if path == [] || EndsWith(path, "/") then path + b
      else path + "/" + b
  }

  /** A joined path ends with its last part, whatever came before. */
  lemma JoinEndsWithLast(a: string, parts: seq<string>)
    requires parts != []
    ensures EndsWith(Join(a, parts), parts[|parts| - 1])
  {
    var b := parts[|parts| - 1];
    var path := Join(a, parts[..|parts| - 1]);
    if !StartsWith(b, "/") {
      if path == [] || EndsWith(path, "/") {
        assert (path + b)[|path + b| - |b|..] == b;
      } else {
        assert (path + "/" + b)[|path + "/" + b| - |b|..] == b;
      }
    }
  }

  /** An absolute part replaces everything joined before it. */
  lemma JoinAbsoluteResets(a: string, parts: seq<string>, b: string)
    requires StartsWith(b, "/")
    ensures Join(a, parts + [b]) == b
  {
    assert (parts + [b])[..|parts|] == parts;
  }

  /** A relative part is appended after a `/` unless the path already ends in one. */
  lemma JoinRelative(a: string, parts: seq<string>, b: string)
    requires !StartsWith(b, "/")
    requires Join(a, parts) != [] && !EndsWith(Join(a, parts), "/")
    ensures Join(a, parts + [b]) == Join(a, parts) + "/" + b
  {
    assert (parts + [b])[..|parts|] == parts;
  }

  // ---------------------------------------------------------------------------
  // sanitize_directory_name
  // ---------------------------------------------------------------------------

  /** `name.rstrip()`: drops trailing whitespace and nothing else. */
  function SanitizeDirectoryName(name: string): (r: string)
    ensures |r| <= |name| && r == name[..|r|]
    ensures r == [] || r[|r| - 1] !in Whitespace
    ensures forall i :: |r| <= i < |name| ==> name[i] in Whitespace
  {
    RStripPrefix(name, Whitespace);
    RStrip(name, Whitespace)
  }

  // ---------------------------------------------------------------------------
  // sanitize_name
  // ---------------------------------------------------------------------------

  /** The characters of the class `[<>:"/\\|?*\x00-\x1f\x7f-\x9f]`. */
  predicate IsForbidden(c: char) {
    c in {'<', '>', ':', '"', '/', '\\', '|', '?', '*'} || c as int <= 0x1F || 0x7F <= c as int <= 0x9F
  }

  predicate NoForbidden(s: string) {
    forall i :: 0 <= i < |s| ==> !IsForbidden(s[i])
  }

  predicate NoDoubleUnderscore(s: string) {
    forall i :: 0 <= i < |s| - 1 ==> !(s[i] == '_' && s[i + 1] == '_')
  }

  /** `re.sub(r'[<>:"/\\|?*\x00-\x1f\x7f-\x9f]', '_', s)`. */
  function ReplaceForbidden(s: string): (r: string)
    ensures |r| == |s| && NoForbidden(r)
    ensures forall i :: 0 <= i < |s| ==> r[i] == if IsForbidden(s[i]) then '_' else s[i]
  {
    seq(|s|, i requires 0 <= i < |s| => if IsForbidden(s[i]) then '_' else s[i])
  }

  /** The Windows device names, upper case; fetch_all_models.py defines the same set. */
  const ReservedNames: set<string> := {
    "CON", "PRN", "AUX", "NUL",
    "COM1", "COM2", "COM3", "COM4", "COM5", "COM6", "COM7", "COM8", "COM9",
    "LPT1", "LPT2", "LPT3", "LPT4", "LPT5", "LPT6", "LPT7", "LPT8", "LPT9"
  }

  lemma ReservedNamesShort(s: string)
    requires s in ReservedNames
    ensures 3 <= |s| <= 4
  {
  }

  /** Device names are made of capital letters and digits only, so a name with any other character is none. */
  lemma OddCharNotReserved(s: string, i: int)
    requires 0 <= i < |s| && !('A' <= s[i] <= 'Z') && !('0' <= s[i] <= '9')
    ensures s !in ReservedNames
  {
  }

  /** A name longer than four characters is no device name. */
  lemma LongNameNotReserved(s: string)
    requires |s| > 4
    ensures s !in ReservedNames
  {
    if s in ReservedNames {
      ReservedNamesShort(s);
    }
  }

  /** `s[:k]` with Python's slice rules: a negative bound counts from the end. */
  function SliceTo(s: string, k: int): (r: string)
    ensures |r| <= |s| && r == s[..|r|]
    ensures k >= 0 ==> |r| == if k < |s| then k else |s|
    ensures k < 0 ==> |r| == if |s| + k >= 0 then |s| + k else 0
  {
    if k >= 0 then (if k < |s| then s[..k] else s)
    else if |s| + k >= 0 then s[..|s| + k]
    else []
  }

  /** `s.rsplit(c, 1)[0]`: the text before the last `c`, or all of `s`. */
  function BeforeLast(s: string, c: char): (r: string)
    ensures |r| <= |s| && r == s[..|r|]
    ensures c in s ==> |r| < |s| && s[|r|] == c && forall i :: |r| < i < |s| ==> s[i] != c
    ensures c !in s ==> r == s
  {
    var k := RFind(s, c);
    if k >= 0 then s[..k] else s
  }

  /** The truncation branch runs only when all three of these are non-empty. */
  predicate Truncates(subfolder: string, outputDir: string, username: string) {
    subfolder != [] && outputDir != [] && username != []
  }

  /** `max_base_length` of the truncation branch. */
  function MaxBaseLength(ext: string, maxLength: int, subfolder: string, outputDir: string, username: string): (k: int)
    ensures k <= maxLength - |ext| - |subfolder|
  {
    JoinEndsWithLast(outputDir, [username, subfolder]);
    maxLength - |ext| - |Join(outputDir, [username, subfolder])|
  }

  /** `s[:bound].rsplit('_', 1)[0]`: a prefix of `s`, within the bound when that is not negative. */
  function CutAtUnderscore(s: string, bound: int): (r: string)
    ensures |r| <= |s| && r == s[..|r|]
    ensures bound >= 0 ==> |r| <= bound
  {
    BeforeLast(SliceTo(s, bound), '_')
  }

  /** `base.replace(folder_name, "").strip("_")`, done only when a folder name is given. */
  function WithoutFolder(base: string, folderName: string): (r: string)
    ensures folderName == [] ==> r == base
    ensures folderName != [] ==> |r| <= |base| && (r == [] || (r[0] != '_' && r[|r| - 1] != '_'))
  {
    if folderName != [] then Strip(RemoveAll(base, folderName), {'_'}) else base
  }

  /** A stem that upper-cases to a device name becomes `_`. */
  function BlankReserved(s: string): (r: string)
    ensures r == s || r == "_"
    ensures Upper(s) in ReservedNames ==> r == "_"
  {
    if Upper(s) in ReservedNames then "_" else s
  }

  lemma {:induction false} CollapseKeepsNoForbidden(s: string)
    requires NoForbidden(s)
    ensures NoForbidden(CollapseUnderscores(s))
    decreases |s|
  {
    if |s| > 1 {
      CollapseKeepsNoForbidden(s[1..]);
    }
  }

  /** A piece of a clean string is clean. */
  lemma CleanSlice(s: string, a: int, b: int)
    requires NoForbidden(s) && NoDoubleUnderscore(s) && 0 <= a <= b <= |s|
    ensures NoForbidden(s[a..b]) && NoDoubleUnderscore(s[a..b])
  {
    assert forall i :: 0 <= i < b - a ==> s[a..b][i] == s[a + i];
  }

  lemma CleanTail(s: string)
    requires NoDoubleUnderscore(s) && |s| > 0
    ensures NoDoubleUnderscore(s[1..])
  {
    var t := s[1..];
    forall i | 0 <= i < |t| - 1
      ensures !(t[i] == '_' && t[i + 1] == '_')
    {
      assert t[i] == s[i + 1] && t[i + 1] == s[i + 2];
    }
  }

  /** Collapsing a string with no `__` changes nothing. */
  lemma {:induction false} CollapseNoop(s: string)
    requires NoDoubleUnderscore(s)
    ensures CollapseUnderscores(s) == s
    decreases |s|
  {
    if |s| > 1 {
      CleanTail(s);
      CollapseNoop(s[1..]);
      assert s == [s[0]] + s[1..];
    }
  }

  /** Replacing forbidden characters in a string that has none changes nothing. */
  lemma ReplaceForbiddenNoop(s: string)
    requires NoForbidden(s)
    ensures ReplaceForbidden(s) == s
  {
  }

  /** A stem that is already clean and not a device name passes through unchanged. */
  lemma SubstitutedNoop(base: string)
    requires NoForbidden(base) && NoDoubleUnderscore(base) && Upper(base) !in ReservedNames
    ensures Substituted(base, "") == base
  {
    ReplaceForbiddenNoop(base);
    CollapseNoop(base);
  }

  /** Folder name removed, forbidden characters replaced, device names blanked, runs of `_` collapsed. */
  function Substituted(base: string, folderName: string): (c: string)
    ensures NoForbidden(c) && NoDoubleUnderscore(c)
  {
    var b := BlankReserved(ReplaceForbidden(WithoutFolder(base, folderName)));
    CollapseKeepsNoForbidden(b);
    CollapseUnderscores(b)
  }

  /** `.strip('_.')` keeps a clean string clean. */
  function TrimUnderscoresAndDots(c: string): (r: string)
    requires NoForbidden(c) && NoDoubleUnderscore(c)
    ensures NoForbidden(r) && NoDoubleUnderscore(r)
    ensures r == [] || (r[0] !in {'_', '.'} && r[|r| - 1] !in {'_', '.'})
  {
    var l := LStrip(c, {'_', '.'});
    LStripSuffix(c, {'_', '.'});
    RStripPrefix(l, {'_', '.'});
    CleanSlice(c, |c| - |l|, |c|);
    var r := RStrip(l, {'_', '.'});
    CleanSlice(l, 0, |r|);
    r
  }

  /** The stem before the length rule. */
  function CleanedStem(base: string, folderName: string): (r: string)
    ensures NoForbidden(r) && NoDoubleUnderscore(r)
    ensures r == [] || (r[0] !in {'_', '.'} && r[|r| - 1] !in {'_', '.'})
  {
    TrimUnderscoresAndDots(Substituted(base, folderName))
  }

  /**
   * The stem `sanitize_name` keeps (before appending the extension and
   * the final whitespace strip): free of forbidden characters and of
   * `__`, never starting with `_` or `.`, and within the length bound
   * when the truncation branch runs.
   */
  function SanitizedStem(name: string, folderName: string, maxLength: int,
                         subfolder: string, outputDir: string, username: string): (r: string)
    ensures NoForbidden(r) && NoDoubleUnderscore(r)
    ensures r == [] || r[0] !in {'_', '.'}
    ensures !Truncates(subfolder, outputDir, username) ==> r == [] || r[|r| - 1] !in {'_', '.'}
    ensures Truncates(subfolder, outputDir, username) &&
            MaxBaseLength(SplitExt(name).1, maxLength, subfolder, outputDir, username) >= 0
            ==> |r| <= MaxBaseLength(SplitExt(name).1, maxLength, subfolder, outputDir, username)
    ensures var b := CleanedStem(SplitExt(name).0, folderName);
            (Truncates(subfolder, outputDir, username) ==> |r| <= |b| && r == b[..|r|])
            && (!Truncates(subfolder, outputDir, username) ==> r == b)
  {
    var (base, ext) := SplitExt(name);
    var b := CleanedStem(base, folderName);
    if Truncates(subfolder, outputDir, username) then
      var r := CutAtUnderscore(b, MaxBaseLength(ext, maxLength, subfolder, outputDir, username));
      CleanSlice(b, 0, |r|);
      assert r == b[0..|r|];
      r
    else b
  }

  /**
   * `sanitize_name(name, folder_name, max_length, subfolder, output_dir,
   * username)`; an empty string stands for an omitted (falsy) argument.
   */
  function SanitizeName(name: string, folderName: string, maxLength: int,
                        subfolder: string, outputDir: string, username: string): (r: string)
    ensures folderName != [] && SplitExt(name).0 == folderName ==> r == name
  {
    var (base, ext) := SplitExt(name);
    if folderName != [] && base == folderName then name
    else Strip(SanitizedStem(name, folderName, maxLength, subfolder, outputDir, username) + ext, Whitespace)
  }

  /** `MAX_PATH_LENGTH`. */
  const MaxPathLength := 200

  /**
   * The three calls in `download_model_files` pass neither `output_dir`
   * nor `username`, so the truncation branch never runs there: each
   * result is the early return or the cleaned stem plus the extension,
   * stripped of whitespace.
   */
  predicate UntruncatedResult(r: string, name: string, folderName: string) {
    var (base, ext) := SplitExt(name);
    r == if folderName != [] && base == folderName then name else Strip(CleanedStem(base, folderName) + ext, Whitespace)
  }

  /** `sanitize_name(item_name, max_length=MAX_PATH_LENGTH)`, the item folder's name. */
  function ItemFolderName(itemName: string): (r: string)
    ensures UntruncatedResult(r, itemName, "")
  {
    SanitizeName(itemName, "", MaxPathLength, "", "", "")
  }

  /** `sanitize_name(file_name, item_name, max_length=MAX_PATH_LENGTH, subfolder=subfolder)`. */
  function ModelFileName(fileName: string, itemName: string, subfolder: string): (r: string)
    ensures UntruncatedResult(r, fileName, itemName)
  {
    SanitizeName(fileName, itemName, MaxPathLength, subfolder, "", "")
  }

  /** `f"{item_name}_{image_id}_for_{file_name}.jpeg"`, sanitized with the item name as folder name. */
  function ImageFileName(itemName: string, imageId: string, fileName: string, subfolder: string): (r: string)
    ensures UntruncatedResult(r, itemName + "_" + imageId + "_for_" + fileName + ".jpeg", itemName)
  {
    SanitizeName(itemName + "_" + imageId + "_for_" + fileName + ".jpeg", itemName, MaxPathLength, subfolder, "", "")
  }

  /** A name whose stem is the folder name is returned untouched, even when it holds forbidden characters. */
  lemma SanitizeNameFolderStem(folderName: string, ext: string)
    requires folderName != [] && ext != [] && SplitExt(folderName + ext) == (folderName, ext)
    ensures SanitizeName(folderName + ext, folderName, 200, "", "", "") == folderName + ext
  {
  }

  /** `r` ends with `ext` and has no forbidden character before it. */
  predicate CleanBefore(r: string, ext: string) {
    EndsWith(r, ext) && NoForbidden(r[..|r| - |ext|])
  }

  /** Stripping keeps a clean stem clean. */
  lemma StripClean(stem: string, cs: set<char>)
    requires NoForbidden(stem) && NoDoubleUnderscore(stem)
    ensures NoForbidden(Strip(stem, cs))
  {
    var l := LStrip(stem, cs);
    LStripSuffix(stem, cs);
    RStripPrefix(l, cs);
    CleanSlice(stem, |stem| - |l|, |stem|);
    CleanSlice(l, 0, |RStrip(l, cs)|);
  }

  /** With an extension that starts and ends with kept characters, strip acts on the stem's left end only. */
  lemma StripBeforeExtension(stem: string, ext: string, cs: set<char>)
    requires ext != [] && ext[0] !in cs && ext[|ext| - 1] !in cs
    ensures Strip(stem + ext, cs) == LStrip(stem, cs) + ext
  {
    LStripConcat(stem, ext, cs);
    RStripAppend(LStrip(stem, cs), ext, cs);
  }

  lemma CleanThenExtension(l: string, ext: string)
    requires NoForbidden(l)
    ensures CleanBefore(l + ext, ext)
  {
    var r := l + ext;
    assert r[..|r| - |ext|] == l;
    assert r[|r| - |ext|..] == ext;
  }

  /** Stripping a clean stem followed by a dotted extension leaves the extension in place. */
  lemma StripStemThenExtension(stem: string, ext: string, cs: set<char>)
    requires NoForbidden(stem) && NoDoubleUnderscore(stem) && '.' !in cs
    requires ext == [] || (ext[0] == '.' && ext[|ext| - 1] !in cs)
    ensures CleanBefore(Strip(stem + ext, cs), ext)
  {
    if ext == [] {
      assert stem + ext == stem;
      StripClean(stem, cs);
      CleanThenExtension(Strip(stem, cs), ext);
      assert Strip(stem, cs) + ext == Strip(stem, cs);
    } else {
      var l := LStrip(stem, cs);
      LStripSuffix(stem, cs);
      CleanSlice(stem, |stem| - |l|, |stem|);
      StripBeforeExtension(stem, ext, cs);
      CleanThenExtension(l, ext);
    }
  }

  /**
   * Apart from the early return, the result is the sanitized stem
   * (left-stripped of whitespace) followed by the extension, unchanged
   * unless the extension itself ends in whitespace; so no forbidden
   * character stands before the extension.
   */
  lemma SanitizeNameKeepsExtension(name: string, folderName: string, maxLength: int,
                                   subfolder: string, outputDir: string, username: string)
    requires !(folderName != [] && SplitExt(name).0 == folderName)
    requires SplitExt(name).1 == [] || SplitExt(name).1[|SplitExt(name).1| - 1] !in Whitespace
    ensures CleanBefore(SanitizeName(name, folderName, maxLength, subfolder, outputDir, username), SplitExt(name).1)
  {
    var ext := SplitExt(name).1;
    var stem := SanitizedStem(name, folderName, maxLength, subfolder, outputDir, username);
    VisibleNotWhitespace('.');
    StripStemThenExtension(stem, ext, Whitespace);
    assert SanitizeName(name, folderName, maxLength, subfolder, outputDir, username) == Strip(stem + ext, Whitespace);
  }

  /**
   * A stem that upper-cases to a Windows device name is blanked to `_`,
   * which the strip of `_` and `.` then removes: the result is the
   * trimmed extension alone.
   */
  lemma ReservedStemLeavesExtension(name: string, folderName: string, maxLength: int,
                                    subfolder: string, outputDir: string, username: string)
    requires !(folderName != [] && SplitExt(name).0 == folderName)
    requires Upper(ReplaceForbidden(WithoutFolder(SplitExt(name).0, folderName))) in ReservedNames
    ensures SanitizeName(name, folderName, maxLength, subfolder, outputDir, username)
              == Strip(SplitExt(name).1, Whitespace)
  {
    var ext := SplitExt(name).1;
    ReservedStemVanishes(SplitExt(name).0, folderName);
    assert SanitizedStem(name, folderName, maxLength, subfolder, outputDir, username) == [];
    assert [] + ext == ext;
  }

  /** The `_` that replaces a device name is removed by the strip of `_` and `.`. */
  lemma ReservedStemVanishes(base: string, folderName: string)
    requires Upper(ReplaceForbidden(WithoutFolder(base, folderName))) in ReservedNames
    ensures CleanedStem(base, folderName) == []
  {
    assert CollapseUnderscores("_") == "_";
    assert Substituted(base, folderName) == "_";
  }

  /** `CON.txt` loses its stem entirely. */
  lemma ReservedExample()
    ensures SanitizeName("CON.txt", "", 200, "", "", "") == ".txt"
  {
    SplitExtAtLastDot("CON", "txt", 0);
    assert "CON" + ['.'] + "txt" == "CON.txt";
    assert SplitExt("CON.txt") == ("CON", ".txt");
    assert WithoutFolder("CON", "") == "CON";
    assert ReplaceForbidden("CON") == "CON";
    assert Upper("CON") == "CON";
    ReservedStemLeavesExtension("CON.txt", "", 200, "", "", "");
    VisibleNotWhitespace('.');
    VisibleNotWhitespace('t');
    StripNoop(".txt", Whitespace);
  }

  /** The device-name test ignores case: `lpt1.bin` becomes `.bin`. */
  lemma ReservedLowerCaseExample()
    ensures SanitizeName("lpt1.bin", "", 200, "", "", "") == ".bin"
  {
    SplitExtAtLastDot("lpt1", "bin", 0);
    assert "lpt1" + ['.'] + "bin" == "lpt1.bin";
    assert ReplaceForbidden("lpt1") == "lpt1";
    assert Upper("lpt1") == "LPT1";
    ReservedStemLeavesExtension("lpt1.bin", "", 200, "", "", "");
    VisibleNotWhitespace('.');
    VisibleNotWhitespace('n');
    StripNoop(".bin", Whitespace);
  }

  /**
   * The truncation branch cuts at the last `_` even when the stem already
   * fits: a stem with an underscore always loses its last segment.
   */
  lemma TruncationDropsLastSegment(name: string, folderName: string, maxLength: int,
                                   subfolder: string, outputDir: string, username: string)
    requires Truncates(subfolder, outputDir, username)
    requires var b := CleanedStem(SplitExt(name).0, folderName);
             '_' in b && |b| <= MaxBaseLength(SplitExt(name).1, maxLength, subfolder, outputDir, username)
    ensures |SanitizedStem(name, folderName, maxLength, subfolder, outputDir, username)|
              < |CleanedStem(SplitExt(name).0, folderName)|
  {
  }

  /**
   * A negative bound does not empty the stem: Python's negative slice
   * counts from the end, so the stem keeps all but its last `-k`
   * characters before the cut at the last `_`.
   */
  lemma NegativeBoundCountsFromEnd(name: string, folderName: string, maxLength: int,
                                   subfolder: string, outputDir: string, username: string)
    requires Truncates(subfolder, outputDir, username)
    requires var k := MaxBaseLength(SplitExt(name).1, maxLength, subfolder, outputDir, username);
             var b := CleanedStem(SplitExt(name).0, folderName);
             k < 0 && |b| + k >= 0
    ensures var k := MaxBaseLength(SplitExt(name).1, maxLength, subfolder, outputDir, username);
            var b := CleanedStem(SplitExt(name).0, folderName);
            SanitizedStem(name, folderName, maxLength, subfolder, outputDir, username) == BeforeLast(b[..|b| + k], '_')
  {
    var k := MaxBaseLength(SplitExt(name).1, maxLength, subfolder, outputDir, username);
    var b := CleanedStem(SplitExt(name).0, folderName);
    assert SanitizedStem(name, folderName, maxLength, subfolder, outputDir, username) == CutAtUnderscore(b, k);
    CutNegative(b, k);
  }

  /** A negative bound slices `k` characters off the end before the cut at the last `_`. */
  lemma CutNegative(b: string, k: int)
    requires k < 0 && |b| + k >= 0
    ensures CutAtUnderscore(b, k) == BeforeLast(b[..|b| + k], '_')
  {
  }

  /** A stem with nothing to clean is a fixed point of the cleaning. */
  lemma CleanedStemNoop(base: string)
    requires NoForbidden(base) && NoDoubleUnderscore(base) && Upper(base) !in ReservedNames
    requires base == [] || (base[0] !in {'_', '.'} && base[|base| - 1] !in {'_', '.'})
    ensures CleanedStem(base, "") == base
  {
    SubstitutedNoop(base);
    TrimNoop(base);
  }

  /** A clean stem with no `_` or `.` at either end passes `strip('_.')` unchanged. */
  lemma TrimNoop(c: string)
    requires NoForbidden(c) && NoDoubleUnderscore(c)
    requires c == [] || (c[0] !in {'_', '.'} && c[|c| - 1] !in {'_', '.'})
    ensures TrimUnderscoresAndDots(c) == c
  {
    StripNoop(c, {'_', '.'});
  }

  /** `"abc_def"[:-2]` is `"abc_d"`, whose last `_` leaves `"abc"`. */
  lemma NegativeBoundCut()
    ensures CutAtUnderscore("abc_def", -2) == "abc"
  {
    assert SliceTo("abc_def", -2) == "abc_d";
    RFindLast("abc", '_', "d");
    assert "abc" + ['_'] + "d" == "abc_d";
  }
}

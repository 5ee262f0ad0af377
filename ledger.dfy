/**
 * The per-user summary ledger: the text `format_summary` writes
 * (fetch_all_models.py) and the count parser `read_summary_data` runs
 * over it (civitAI_Model_downloader.py), with the round trip between the
 * two.  The file itself is not modelled: the writer yields a string and
 * the reader is given the file's contents, or `None` when it is missing.
 */
module Ledger {
  import opened Wrappers
  import opened PyStr
  import opened Categories
  import opened Aggregation

  // ---------------------------------------------------------------------------
  // Writing: format_summary
  // ---------------------------------------------------------------------------

  /** `f"{tag} - Count: {n}\n"`. */
  function CountLine(tag: string, n: nat): string {
    tag + " - Count: " + NatToString(n) + "\n"
  }

  /** `f"{item_type}"`: the type itself, or `None` for an item without one. */
  function TypeText(itemType: Option<string>): (r: string)
    ensures r == "None" <==> itemType == None || itemType == Some("None")
  {
    match itemType
    case None => "None"
    case Some(s) => s
  }

  /** The detailed lines of an ordinary category: `f"  {item_name}\n"`. */
  function NameLines(names: seq<string>): (r: seq<string>)
    ensures |r| == |names|
  {
    seq(|names|, i requires 0 <= i < |names| => "  " + names[i] + "\n")
  }

  /** The detailed lines of `Other`: `f"  {item_name} - Type: {item_type}\n"` per `other_item_types` entry. */
  function OtherLines(others: seq<OtherEntry>): (r: seq<string>)
    ensures |r| == |others|
  {
    seq(|others|, i requires 0 <= i < |others| => "  " + others[i].0 + " - Type: " + TypeText(others[i].1) + "\n")
  }

  /** What the detailed listing shows under a category: `other_item_types` for `Other`, the list otherwise. */
  function ItemLines(t: Tally, c: Category): (r: seq<string>)
    requires Complete(t)
  {
    if c == Other then OtherLines(t.others) else NameLines(t.lists[c])
  }

  /** One count line per category, in the given order. */
  function CountLines(t: Tally, cs: seq<Category>): (r: seq<string>)
    requires Complete(t)
    ensures |r| == |cs|
  {
    seq(|cs|, i requires 0 <= i < |cs| => CountLine(CategoryName(cs[i]), |t.lists[cs[i]]|))
  }

  /** `f"\n{category}:\n"`. */
  function Header(c: Category): string {
    "\n" + CategoryName(c) + ":\n"
  }

  /** The detailed listing of the given categories: a header, then the category's lines. */
  function Listing(t: Tally, cs: seq<Category>): seq<string>
    requires Complete(t)
    decreases |cs|
  {
    if cs == [] then []
    else Listing(t, cs[..|cs| - 1]) + ([Header(cs[|cs| - 1])] + ItemLines(t, cs[|cs| - 1]))
  }

  /** `sum(len(items) for items in categorized_items.values())`. */
  function TotalCount(t: Tally): nat
    requires Complete(t)
  {
    |t.lists[Checkpoints]| + |t.lists[Embeddings]| + |t.lists[Lora]| + |t.lists[TrainingData]| + |t.lists[Other]|
  }

  /** The `lines` list `format_summary` builds, in order. */
  function SummaryLines(t: Tally): (r: seq<string>)
    requires Complete(t)
    ensures |r| >= 8 && r[0] == "Summary:\n" && r[1] == CountLine("Total", TotalCount(t))
    ensures forall i :: 0 <= i < 5 ==> r[2 + i] == CountLine(CategoryName(CategoryOrder[i]), |t.lists[CategoryOrder[i]]|)
  {
    ["Summary:\n", CountLine("Total", TotalCount(t))] + CountLines(t, CategoryOrder)
    + ["\nDetailed Listing:\n"] + Listing(t, CategoryOrder)
  }

  /** `''.join(lines)`. */
  function Concat(ls: seq<string>): string
    decreases |ls|
  {
    if ls == [] then [] else ls[0] + Concat(ls[1..])
  }

  lemma CountLinesSnoc(t: Tally, cs: seq<Category>, c: Category)
    requires Complete(t)
    ensures CountLines(t, cs + [c]) == CountLines(t, cs) + [CountLine(CategoryName(c), |t.lists[c]|)]
  {
  }

  lemma ListingSnoc(t: Tally, cs: seq<Category>, c: Category)
    requires Complete(t)
    ensures Listing(t, cs + [c]) == Listing(t, cs) + [Header(c)] + ItemLines(t, c)
  {
    assert (cs + [c])[..|cs|] == cs;
  }

  lemma ListingStep(lines: seq<string>, t: Tally, cs: seq<Category>, c: Category, r: seq<string>)
    requires Complete(t)
    requires r == lines + Listing(t, cs) + [Header(c)] + ItemLines(t, c)
    ensures r == lines + Listing(t, cs + [c])
  {
    ListingSnoc(t, cs, c);
  }

  lemma TakeSnoc(cs: seq<Category>, i: nat)
    requires i < |cs|
    ensures cs[..i] + [cs[i]] == cs[..i + 1]
  {
  }

  /** `format_summary(categorized_items, other_item_types)`: the summary text. */
  method FormatSummary(t: Tally) returns (text: string)
    requires Complete(t)
    ensures text == Concat(SummaryLines(t))
  {
    var lines := ["Summary:\n"];
    var total := TotalCount(t);
    lines := lines + [CountLine("Total", total)];
    lines := AppendCountLines(lines, t, CategoryOrder);
    lines := lines + ["\nDetailed Listing:\n"];
    lines := AppendListing(lines, t, CategoryOrder);
    assert lines == SummaryLines(t);
    text := Concat(lines);
  }

  /** The loop writing one count line per category. */
  method AppendCountLines(lines: seq<string>, t: Tally, cs: seq<Category>) returns (r: seq<string>)
    requires Complete(t)
    ensures r == lines + CountLines(t, cs)
  {
    r := lines;
    for i := 0 to |cs|
      invariant r == lines + CountLines(t, cs[..i])
    {
      var c := cs[i];
      r := r + [CountLine(CategoryName(c), |t.lists[c]|)];
      assert cs[..i + 1] == cs[..i] + [c];
      CountLinesSnoc(t, cs[..i], c);
    }
    assert cs[..|cs|] == cs;
  }

  /** The loop writing each category's header and detailed lines. */
  method AppendListing(lines: seq<string>, t: Tally, cs: seq<Category>) returns (r: seq<string>)
    requires Complete(t)
    ensures r == lines + Listing(t, cs)
  {
    r := lines;
    ghost var done: seq<Category> := [];
    for i := 0 to |cs|
      invariant done == cs[..i]
      invariant r == lines + Listing(t, done)
    {
      var c := cs[i];
      r := AppendSection(r, t, c);
      ListingStep(lines, t, done, c, r);
      TakeSnoc(cs, i);
      done := done + [c];
    }
    assert done == cs;
  }

  /** One category of the detailed listing: its header, then its lines. */
  method AppendSection(lines: seq<string>, t: Tally, c: Category) returns (r: seq<string>)
    requires Complete(t)
    ensures r == lines + [Header(c)] + ItemLines(t, c)
  {
    r := lines + ["\n" + CategoryName(c) + ":\n"];
    if c == Other {
      r := AppendOtherLines(r, t.others);
    } else {
      r := AppendNameLines(r, t.lists[c]);
    }
  }

  /** The inner loop over an ordinary category's names. */
  method AppendNameLines(lines: seq<string>, names: seq<string>) returns (r: seq<string>)
    ensures r == lines + NameLines(names)
  {
    r := lines;
    for j := 0 to |names|
      invariant r == lines + NameLines(names[..j])
    {
      r := r + ["  " + names[j] + "\n"];
      assert NameLines(names[..j + 1]) == NameLines(names[..j]) + ["  " + names[j] + "\n"];
    }
    assert names[..|names|] == names;
  }

  /** The inner loop over `other_item_types`. */
  method AppendOtherLines(lines: seq<string>, others: seq<OtherEntry>) returns (r: seq<string>)
    ensures r == lines + OtherLines(others)
  {
    r := lines;
    for j := 0 to |others|
      invariant r == lines + OtherLines(others[..j])
    {
      var (name, itemType) := others[j];
      r := r + ["  " + name + " - Type: " + TypeText(itemType) + "\n"];
      assert OtherLines(others[..j + 1]) == OtherLines(others[..j]) + ["  " + name + " - Type: " + TypeText(itemType) + "\n"];
    }
    assert others[..|others|] == others;
  }

  // ---------------------------------------------------------------------------
  // Reading: text-mode line iteration
  // ---------------------------------------------------------------------------

  /** Universal-newline reading: `\r\n` and a lone `\r` both arrive as `\n`. */
  function NormalizeNewlines(s: string): (r: string)
    ensures '\r' !in r
    ensures '\r' !in s ==> r == s
    decreases |s|
  {
    if s == [] then []
    else if s[0] == '\r' then
      if |s| > 1 && s[1] == '\n' then "\n" + NormalizeNewlines(s[2..]) else "\n" + NormalizeNewlines(s[1..])
    else [s[0]] + NormalizeNewlines(s[1..])
  }

  /** The length of the first line of `s`, its `\n` included. */
  function LineLength(s: string): (k: nat)
    requires s != []
    ensures 0 < k <= |s|
    ensures '\n' !in s[..k - 1]
    ensures k == |s| || s[k - 1] == '\n'
    decreases |s|
  {
    if s[0] == '\n' || |s| == 1 then 1
    else
      var k := LineLength(s[1..]);
      assert s[..k] == [s[0]] + s[1..][..k - 1];
      k + 1
  }

  /** `for line in file`: each line keeps its `\n`; a last line without one is still a line. */
  function SplitLines(s: string): seq<string>
    decreases |s|
  {
    if s == [] then [] else var k := LineLength(s); [s[..k]] + SplitLines(s[k..])
  }

  /** A complete line: one `\n`, at its end. */
  predicate IsLine(l: string) {
    |l| > 0 && l[|l| - 1] == '\n' && '\n' !in l[..|l| - 1]
  }

  /** Splitting loses nothing: the lines join back into the text. */
  lemma {:induction false} SplitLinesJoin(s: string)
    ensures Concat(SplitLines(s)) == s
    decreases |s|
  {
    if s != [] {
      var k := LineLength(s);
      SplitLinesJoin(s[k..]);
      assert s == s[..k] + s[k..];
    }
  }

  /** Every line but possibly the last is complete. */
  lemma {:induction false} SplitLinesAreLines(s: string)
    ensures forall i :: 0 <= i < |SplitLines(s)| - 1 ==> IsLine(SplitLines(s)[i])
    decreases |s|
  {
    if s != [] {
      var k := LineLength(s);
      SplitLinesAreLines(s[k..]);
      assert SplitLines(s)[1..] == SplitLines(s[k..]);
    }
  }

  /** A complete line is read back as itself. */
  lemma LineSplitsToItself(l: string)
    requires IsLine(l)
    ensures SplitLines(l) == [l]
  {
    var k := LineLength(l);
    assert l[..k] == l;
  }

  /** Text after a complete line does not change where the first line ends. */
  lemma LineLengthAppend(a: string, b: string)
    requires a != [] && a[|a| - 1] == '\n'
    ensures LineLength(a + b) == LineLength(a)
  {
    var k := LineLength(a);
    assert a[k - 1] == '\n';
    var k' := LineLength(a + b);
    assert (a + b)[k - 1] == '\n';
  }

  /** The first line of text that ends in `\n` is the first line of that text followed by more. */
  lemma SplitLinesAppendStep(a: string, b: string)
    requires a != [] && a[|a| - 1] == '\n'
    ensures SplitLines(a + b) == [a[..LineLength(a)]] + SplitLines(a[LineLength(a)..] + b)
  {
    var k := LineLength(a);
    LineLengthAppend(a, b);
    assert (a + b)[..k] == a[..k];
    assert (a + b)[k..] == a[k..] + b;
  }

  /** Text that ends in `\n` is read as its own lines, and what follows starts a fresh line. */
  lemma {:induction false} SplitLinesAppend(a: string, b: string)
    requires a == [] || a[|a| - 1] == '\n'
    ensures SplitLines(a + b) == SplitLines(a) + SplitLines(b)
    decreases |a|
  {
    if a == [] {
      assert a + b == b;
    } else {
      var k := LineLength(a);
      var rest := a[k..];
      calc {
        SplitLines(a + b);
      == { SplitLinesAppendStep(a, b); }
        [a[..k]] + SplitLines(rest + b);
      == { assert rest == [] || rest[|rest| - 1] == '\n';
           SplitLinesAppend(rest, b); }
        [a[..k]] + (SplitLines(rest) + SplitLines(b));
      ==
        ([a[..k]] + SplitLines(rest)) + SplitLines(b);
      }
    }
  }

  // ---------------------------------------------------------------------------
  // Reading: the line parser of read_summary_data
  // ---------------------------------------------------------------------------

  /** The two `ValueError`s the loop lets escape: a count `int()` refuses, and a line that does not split in two. */
  datatype ParseError = BadCount(line: string) | BadShape(line: string)

  /** The `data` dictionary. */
  type Counts = map<string, int>

  /** The `Total` marker holds the count marker. */
  lemma MarkerNested()
    ensures Contains("Total - Count:", " - Count:")
  {
    assert "Total - Count:"[5..14] == " - Count:";
    ContainsAt("Total - Count:", " - Count:", 5);
  }

  lemma MarkerColon(line: string)
    requires Contains(line, "Total - Count:")
    ensures exists p :: 0 <= p < |line| && line[p] == ':'
  {
    ContainedChar(line, "Total - Count:", 13);
  }

  lemma ColonSplit(line: string, p: nat)
    requires p < |line| && line[p] == ':'
    ensures |Split(Strip(line, Whitespace), ":")| >= 2
  {
    StripKeepsChar(line, Whitespace, p);
    assert [line[p]] == ":";
  }

  /** The `Total` marker survives the strip with its colon, so `split(':')` has a second part. */
  lemma TotalMarkerHasColon(line: string)
    requires Contains(line, "Total - Count:")
    ensures Contains(line, " - Count:")
    ensures |Split(Strip(line, Whitespace), ":")| >= 2
  {
    MarkerColon(line);
    var p :| 0 <= p < |line| && line[p] == ':';
    ColonSplit(line, p);
    MarkerNested();
    ContainsTransitive(line, "Total - Count:", " - Count:");
  }

  /**
   * The body of the loop for one line: the `Total` line sets `Total`, any
   * other line holding ` - Count:` sets the stripped text before it to the
   * number after it, every other line is ignored.
   */
  function ParseLine(line: string, data: Counts): (r: Result<Counts, ParseError>)
    ensures !Contains(line, " - Count:") ==> r == Ok(data)
    ensures r.Ok? ==> data.Keys <= r.value.Keys
  {
    if Contains(line, "Total - Count:") then
      var parts := Split(Strip(line, Whitespace), ":");
      TotalMarkerHasColon(line);
      match ParseInt(Strip(parts[1], Whitespace))
      case None => Err(BadCount(line))
      case Some(v) => Ok(data["Total" := v])
    else if Contains(line, " - Count:") then
      var parts := Split(Strip(line, Whitespace), " - Count:");
      if |parts| != 2 then Err(BadShape(line))
      else
        match ParseInt(Strip(parts[1], Whitespace))
        case None => Err(BadCount(line))
        case Some(v) => Ok(data[Strip(parts[0], Whitespace) := v])
    else Ok(data)
  }

  /** The loop over the lines, from `data` on; the first failing line ends it. */
  function ParseFrom(data: Counts, lines: seq<string>): (r: Result<Counts, ParseError>)
    ensures r.Ok? ==> data.Keys <= r.value.Keys
    decreases |lines|
  {
    if lines == [] then Ok(data)
    else
      match ParseLine(lines[0], data)
      case Err(e) => Err(e)
      case Ok(d) => ParseFrom(d, lines[1..])
  }

  /**
   * `read_summary_data`: an empty dictionary when the file is missing,
   * otherwise the parse of its lines.
   */
  function ReadSummary(contents: Option<string>): (r: Result<Counts, ParseError>)
    ensures contents == None || contents == Some("") ==> r == Ok(map[])
  {
    match contents
    case None => Ok(map[])
    case Some(s) => ParseFrom(map[], SplitLines(NormalizeNewlines(s)))
  }

  /** `read_summary_data`'s loop over the file's lines. */
  method ReadSummaryData(contents: Option<string>) returns (r: Result<Counts, ParseError>)
    ensures r == ReadSummary(contents)
  {
    if contents.None? {
      return Ok(map[]);
    }
    var lines := SplitLines(NormalizeNewlines(contents.value));
    var data: Counts := map[];
    var i := 0;
    while i < |lines|
      invariant 0 <= i <= |lines|
      invariant ReadSummary(contents) == ParseFrom(data, lines[i..])
    {
      assert lines[i..][0] == lines[i] && lines[i..][1..] == lines[i + 1..];
      var step := ParseLine(lines[i], data);
      if step.Err? {
        return step;
      }
      data := step.value;
      i := i + 1;
    }
    assert lines[i..] == [];
    return Ok(data);
  }

  /** Parsing consecutive stretches of lines is parsing the first, then the second from where it left `data`. */
  lemma {:induction false} ParseFromAppend(data: Counts, xs: seq<string>, ys: seq<string>)
    ensures ParseFrom(data, xs).Err? ==> ParseFrom(data, xs + ys) == ParseFrom(data, xs)
    ensures ParseFrom(data, xs).Ok? ==> ParseFrom(data, xs + ys) == ParseFrom(ParseFrom(data, xs).value, ys)
    decreases |xs|
  {
    if xs == [] {
      assert xs + ys == ys;
    } else {
      assert (xs + ys)[0] == xs[0];
      assert (xs + ys)[1..] == xs[1..] + ys;
      match ParseLine(xs[0], data)
      case Err(_) =>
      case Ok(d) => ParseFromAppend(d, xs[1..], ys);
    }
  }

  // ---------------------------------------------------------------------------
  // The round trip
  // ---------------------------------------------------------------------------

  /** Text the reader splits into whole lines: empty or ending in `\n`, and without `\r`. */
  predicate WholeLines(s: string) {
    (s == [] || s[|s| - 1] == '\n') && '\r' !in s
  }

  lemma WholeLinesAppend(x: string, y: string)
    requires WholeLines(x) && WholeLines(y)
    ensures WholeLines(x + y)
  {
    if y == [] {
      assert x + y == x;
    }
  }

  lemma {:induction false} ConcatAppend(a: seq<string>, b: seq<string>)
    ensures Concat(a + b) == Concat(a) + Concat(b)
    decreases |a|
  {
    if a == [] {
      assert a + b == b;
    } else {
      assert (a + b)[1..] == a[1..] + b;
      ConcatAppend(a[1..], b);
    }
  }

  lemma ConcatSingle(x: string)
    ensures Concat([x]) == x
  {
    assert [x][1..] == [];
  }

  /** Reading text that ends in `\n` and then more text is reading the first part, then the second from there. */
  lemma ReadAppend(data: Counts, x: string, y: string, mid: Counts)
    requires x == [] || x[|x| - 1] == '\n'
    requires ParseFrom(data, SplitLines(x)) == Ok(mid)
    ensures ParseFrom(data, SplitLines(x + y)) == ParseFrom(mid, SplitLines(y))
  {
    SplitLinesAppend(x, y);
    ParseFromAppend(data, SplitLines(x), SplitLines(y));
  }

  /** Two stretches of whole lines read in turn. */
  lemma ReadPair(d0: Counts, d1: Counts, d2: Counts, x: string, y: string)
    requires WholeLines(x) && WholeLines(y)
    requires ParseFrom(d0, SplitLines(x)) == Ok(d1) && ParseFrom(d1, SplitLines(y)) == Ok(d2)
    ensures WholeLines(x + y) && ParseFrom(d0, SplitLines(x + y)) == Ok(d2)
  {
    ReadAppend(d0, x, y, d1);
    WholeLinesAppend(x, y);
  }

  /** A complete line is parsed by one step. */
  lemma ReadOneLine(data: Counts, l: string)
    requires IsLine(l)
    ensures ParseFrom(data, SplitLines(l)) == ParseLine(l, data)
  {
    LineSplitsToItself(l);
    assert [l][1..] == [];
  }

  /** A complete line without the count marker leaves `data` as it is. */
  lemma NeutralLine(data: Counts, l: string)
    requires IsLine(l) && !Contains(l, " - Count:")
    ensures ParseFrom(data, SplitLines(l)) == Ok(data)
  {
    ReadOneLine(data, l);
  }

  /** Two lines the parser passes over leave `data` as it is. */
  lemma ListedPairNeutral(data: Counts, x: string, y: string)
    requires ListedLine(x) && ListedLine(y)
    ensures WholeLines(x + y) && ParseFrom(data, SplitLines(x + y)) == Ok(data)
  {
    NeutralLine(data, x);
    NeutralLine(data, y);
    ReadPair(data, data, data, x, y);
  }

  /** A piece made of an empty line and a line without the count marker leaves `data` as it is. */
  lemma BlankThenLineNeutral(data: Counts, x: string)
    requires ListedLine(x)
    ensures WholeLines("\n" + x) && ParseFrom(data, SplitLines("\n" + x)) == Ok(data)
  {
    assert ListedLine("\n") by {
      MissingCharNotContained("\n", " - Count:", 1);
    }
    ListedPairNeutral(data, "\n", x);
  }

  /** Text without line breaks or dashes. */
  predicate PlainText(x: string) {
    forall i :: 0 <= i < |x| ==> x[i] != '\n' && x[i] != '\r' && x[i] != '-'
  }

  /** `x + ":\n"` is a complete line the parser passes over. */
  lemma ColonLine(x: string)
    requires PlainText(x)
    ensures IsLine(x + ":\n") && '\r' !in x + ":\n" && !Contains(x + ":\n", " - Count:")
  {
    var l := x + ":\n";
    forall i | 0 <= i < |l|
      ensures l[i] != '\r' && l[i] != '-' && (i < |l| - 1 ==> l[i] != '\n')
    {
      if i < |x| {
        assert l[i] == x[i];
      }
    }
    MissingCharNotContained(l, " - Count:", 1);
  }

  lemma CategoryNamePlain(c: Category)
    ensures PlainText(CategoryName(c))
  {
  }

  /** A category header is two lines, neither holding a count. */
  lemma HeaderNeutral(data: Counts, c: Category)
    ensures WholeLines(Header(c)) && ParseFrom(data, SplitLines(Header(c))) == Ok(data)
  {
    CategoryNamePlain(c);
    ColonLine(CategoryName(c));
    assert Header(c) == "\n" + (CategoryName(c) + ":\n");
    BlankThenLineNeutral(data, CategoryName(c) + ":\n");
  }

  /** An empty line, then a line the parser passes over. */
  predicate BlankThenListed(h: string) {
    |h| > 1 && h[0] == '\n' && IsLine(h[1..]) && '\r' !in h && !Contains(h[1..], " - Count:")
  }

  lemma BlankThenListedNeutral(data: Counts, h: string)
    requires BlankThenListed(h)
    ensures WholeLines(h) && ParseFrom(data, SplitLines(h)) == Ok(data)
  {
    assert h == "\n" + h[1..];
    BlankThenLineNeutral(data, h[1..]);
  }

  /** A text that starts and ends with `\n` and holds neither line breaks nor dashes in between. */
  lemma BlankThenListedByChars(h: string)
    requires |h| > 1 && h[0] == '\n' && h[|h| - 1] == '\n'
    requires forall i :: 0 < i < |h| - 1 ==> h[i] != '\n' && h[i] != '\r' && h[i] != '-'
    ensures BlankThenListed(h)
  {
    var l := h[1..];
    var body := h[1..|h| - 1];
    assert forall i :: 0 <= i < |l| ==> l[i] == h[i + 1];
    assert forall i :: 0 <= i < |body| ==> body[i] == h[i + 1];
    assert l[..|l| - 1] == body;
    MissingCharNotContained(l, " - Count:", 1);
  }

  lemma DetailedHeadingBlank()
    ensures BlankThenListed("\nDetailed Listing:\n")
  {
    BlankThenListedByChars("\nDetailed Listing:\n");
  }

  /** A detailed line the reader passes over: one complete line, no `\r`, no count marker. */
  predicate ListedLine(l: string) {
    IsLine(l) && '\r' !in l && !Contains(l, " - Count:")
  }

  /** No line of the detailed listing could be taken for a count line. */
  predicate ListingSafe(t: Tally)
    requires Complete(t)
  {
    forall c: Category, i :: 0 <= i < |ItemLines(t, c)| ==> ListedLine(ItemLines(t, c)[i])
  }

  lemma {:induction false} ListedLinesNeutral(data: Counts, ls: seq<string>)
    requires forall i :: 0 <= i < |ls| ==> ListedLine(ls[i])
    ensures WholeLines(Concat(ls)) && ParseFrom(data, SplitLines(Concat(ls))) == Ok(data)
    decreases |ls|
  {
    if ls != [] {
      assert ListedLine(ls[0]);
      NeutralLine(data, ls[0]);
      assert forall i :: 0 <= i < |ls[1..]| ==> ls[1..][i] == ls[i + 1];
      ListedLinesNeutral(data, ls[1..]);
      ReadPair(data, data, data, ls[0], Concat(ls[1..]));
    }
  }

  /** One category's section: its header and its detailed lines. */
  lemma SectionNeutral(data: Counts, t: Tally, c: Category)
    requires Complete(t) && ListingSafe(t)
    ensures WholeLines(Concat([Header(c)] + ItemLines(t, c)))
    ensures ParseFrom(data, SplitLines(Concat([Header(c)] + ItemLines(t, c)))) == Ok(data)
  {
    var items := ItemLines(t, c);
    HeaderNeutral(data, c);
    assert forall i :: 0 <= i < |items| ==> ListedLine(items[i]);
    ListedLinesNeutral(data, items);
    ConcatAppend([Header(c)], items);
    ConcatSingle(Header(c));
    ReadPair(data, data, data, Header(c), Concat(items));
  }

  lemma {:induction false} ListingNeutral(data: Counts, t: Tally, cs: seq<Category>)
    requires Complete(t) && ListingSafe(t)
    ensures WholeLines(Concat(Listing(t, cs))) && ParseFrom(data, SplitLines(Concat(Listing(t, cs)))) == Ok(data)
    decreases |cs|
  {
    if cs != [] {
      var c := cs[|cs| - 1];
      var front := Listing(t, cs[..|cs| - 1]);
      var section := [Header(c)] + ItemLines(t, c);
      ListingConcat(t, cs);
      ListingNeutral(data, t, cs[..|cs| - 1]);
      SectionNeutral(data, t, c);
      ReadPair(data, data, data, Concat(front), Concat(section));
    }
  }

  /** The text of a listing is the text of its front categories followed by the last one's section. */
  lemma ListingConcat(t: Tally, cs: seq<Category>)
    requires Complete(t) && cs != []
    ensures Concat(Listing(t, cs))
              == Concat(Listing(t, cs[..|cs| - 1])) + Concat([Header(cs[|cs| - 1])] + ItemLines(t, cs[|cs| - 1]))
  {
    var front := Listing(t, cs[..|cs| - 1]);
    var section := [Header(cs[|cs| - 1])] + ItemLines(t, cs[|cs| - 1]);
    assert Listing(t, cs) == front + section;
    ConcatAppend(front, section);
  }

  /** A tag the count parser reads back: visible ASCII without a lower-case `l`, so never the `Total` marker. */
  predicate CountLabel(tag: string) {
    tag != [] && forall i :: 0 <= i < |tag| ==> 0x21 <= tag[i] as int <= 0x7E && tag[i] != 'l'
  }

  /** The text after a count marker: a label that holds neither `-` nor `:`; `str(n)` is one. */
  predicate CountWord(v: string) {
    CountLabel(v) && forall i :: 0 <= i < |v| ==> v[i] != '-' && v[i] != ':'
  }

  lemma DigitsAreCountWord(n: nat)
    ensures CountWord(NatToString(n))
  {
    var d := NatToString(n);
    assert forall i :: 0 <= i < |d| ==> IsDigit(d[i]);
  }

  lemma SpacedWordStrips(v: string)
    requires CountLabel(v)
    ensures Strip(" " + v, Whitespace) == v
  {
    VisibleNotWhitespace(v[0]);
    VisibleNotWhitespace(v[|v| - 1]);
    assert ' ' in Whitespace;
    StripLeading(' ', v, Whitespace);
  }

  lemma SpacedWordUnmarked(v: string)
    requires CountWord(v)
    ensures !Contains(" " + v, " - Count:") && !Contains(" " + v, ":")
  {
    assert " - Count:"[1] == '-';
    PrefixMissing(' ', v, " - Count:", 1);
    PrefixMissing(' ', v, ":", 0);
  }

  /** A stripped `" " + v` is `v`, and it holds neither marker. */
  lemma SpacedWord(v: string)
    requires CountWord(v)
    ensures Strip(" " + v, Whitespace) == v
    ensures !Contains(" " + v, " - Count:") && !Contains(" " + v, ":")
  {
    SpacedWordStrips(v);
    SpacedWordUnmarked(v);
  }

  /** Stripping a count line removes just its `\n`. */
  lemma StripCountLine(tag: string, v: string)
    requires tag != [] && tag[0] !in Whitespace && v != [] && v[|v| - 1] !in Whitespace
    ensures Strip(tag + " - Count: " + v + "\n", Whitespace) == tag + " - Count: " + v
  {
    var body := tag + " - Count: " + v;
    assert tag + " - Count: " + v + "\n" == body + "\n";
    assert LStrip(body + "\n", Whitespace) == body + "\n";
    assert (body + "\n")[..|body|] == body;
    assert RStrip(body, Whitespace) == body;
  }

  /** A count line is one complete line holding the count marker but not the `Total` marker. */
  lemma CountLineShape(tag: string, v: string)
    requires CountLabel(tag) && CountLabel(v)
    ensures IsLine(tag + " - Count: " + v + "\n") && WholeLines(tag + " - Count: " + v + "\n")
    ensures !Contains(tag + " - Count: " + v + "\n", "Total - Count:") && Contains(tag + " - Count: " + v + "\n", " - Count:")
  {
    var line := tag + " - Count: " + v + "\n";
    forall i | 0 <= i < |line|
      ensures line[i] != 'l' && line[i] != '\r' && (i < |line| - 1 ==> line[i] != '\n')
    {
      if i < |tag| {
        assert line[i] == tag[i];
      } else if i < |tag| + 10 {
        assert line[i] == " - Count: "[i - |tag|];
      } else if i < |tag| + 10 + |v| {
        assert line[i] == v[i - |tag| - 10];
      }
    }
    MissingCharNotContained(line, "Total - Count:", 4);
    assert line[|tag|..|tag| + 9] == " - Count:";
    ContainsAt(line, " - Count:", |tag|);
  }

  /** `tag + " - Count: " + d`, grouped around the marker and around its colon. */
  lemma Regroup(tag: string, d: string)
    ensures tag + " - Count: " + d == tag + " - Count:" + (" " + d)
    ensures tag + " - Count: " + d == tag + " - Count" + ":" + (" " + d)
  {
    assert " - Count: " == " - Count:" + " ";
    assert " - Count:" == " - Count" + ":";
  }

  /** The stripped count line, grouped around the marker. */
  lemma StrippedCountLine(tag: string, v: string)
    requires tag != [] && tag[0] !in Whitespace && v != [] && v[|v| - 1] !in Whitespace
    ensures Strip(tag + " - Count: " + v + "\n", Whitespace) == tag + " - Count:" + (" " + v)
    ensures Strip(tag + " - Count: " + v + "\n", Whitespace) == tag + " - Count" + ":" + (" " + v)
  {
    StripCountLine(tag, v);
    Regroup(tag, v);
  }

  /** Stripped and split at the count marker, a count line gives its tag and `" " + v`. */
  lemma CountLineFields(tag: string, v: string)
    requires CountLabel(tag) && CountWord(v)
    ensures Split(Strip(tag + " - Count: " + v + "\n", Whitespace), " - Count:") == [tag, " " + v]
  {
    VisibleNotWhitespace(tag[0]);
    VisibleNotWhitespace(v[|v| - 1]);
    StrippedCountLine(tag, v);
    SpacedWord(v);
    assert " - Count:"[0] == ' ';
    SplitAtFirst(tag, " - Count:", " " + v);
  }

  /** A count line with an ordinary tag sets that tag to its number. */
  lemma CountLineParses(tag: string, n: nat, data: Counts)
    requires CountLabel(tag)
    ensures IsLine(CountLine(tag, n)) && WholeLines(CountLine(tag, n))
    ensures ParseLine(CountLine(tag, n), data) == Ok(data[tag := n])
  {
    var v := NatToString(n);
    DigitsAreCountWord(n);
    CountLineShape(tag, v);
    CountLineFields(tag, v);
    VisibleNotWhitespace(tag[0]);
    VisibleNotWhitespace(tag[|tag| - 1]);
    StripNoop(tag, Whitespace);
    SpacedWord(v);
    ParseNatToString(n);
  }

  /** A count whose text is not a number makes the line an error. */
  lemma NonNumericCount(tag: string, v: string, data: Counts)
    requires CountLabel(tag) && CountWord(v) && !IsDigit(v[0]) && v[0] != '+'
    ensures ParseLine(tag + " - Count: " + v + "\n", data) == Err(BadCount(tag + " - Count: " + v + "\n"))
  {
    CountLineShape(tag, v);
    CountLineFields(tag, v);
    SpacedWord(v);
    VisibleNotWhitespace(v[0]);
    VisibleNotWhitespace(v[|v| - 1]);
    StripNoop(v, Whitespace);
    assert ParseInt(v) == None;
  }

  /** The `Total` line is one complete line holding the `Total` marker. */
  lemma TotalLineShape(n: nat)
    ensures IsLine(CountLine("Total", n)) && WholeLines(CountLine("Total", n))
    ensures Contains(CountLine("Total", n), "Total - Count:")
  {
    var d := NatToString(n);
    var line := CountLine("Total", n);
    assert line[..14] == "Total - Count:";
    ContainsAt(line, "Total - Count:", 0);
    forall i | 0 <= i < |line|
      ensures line[i] != '\r' && (i < |line| - 1 ==> line[i] != '\n')
    {
      if i >= 15 && i < 15 + |d| {
        assert line[i] == d[i - 15];
      }
    }
  }

  lemma NoColonBeforeMarker(tag: string)
    requires ':' !in tag
    ensures forall i :: 0 <= i < |tag + " - Count"| ==> (tag + " - Count")[i] != ':'
  {
    forall i | 0 <= i < |tag + " - Count"|
      ensures (tag + " - Count")[i] != ':'
    {
      if i < |tag| {
        assert (tag + " - Count")[i] == tag[i];
      } else {
        assert (tag + " - Count")[i] == " - Count"[i - |tag|];
      }
    }
  }

  /** Stripped and split at `:`, a count line with a colon-free tag gives the text before the colon and `" " + v`. */
  lemma ColonFields(tag: string, v: string)
    requires tag != [] && tag[0] !in Whitespace && ':' !in tag && CountWord(v)
    ensures Split(Strip(tag + " - Count: " + v + "\n", Whitespace), ":") == [tag + " - Count", " " + v]
  {
    VisibleNotWhitespace(v[|v| - 1]);
    StrippedCountLine(tag, v);
    SpacedWord(v);
    NoColonBeforeMarker(tag);
    SplitAtFirst(tag + " - Count", ":", " " + v);
  }

  lemma TotalLineFields(n: nat)
    ensures Split(Strip(CountLine("Total", n), Whitespace), ":") == ["Total" + " - Count", " " + NatToString(n)]
  {
    DigitsAreCountWord(n);
    ColonFields("Total", NatToString(n));
  }

  /** The `Total` line sets `Total`. */
  lemma TotalLineParses(n: nat, data: Counts)
    ensures IsLine(CountLine("Total", n)) && WholeLines(CountLine("Total", n))
    ensures ParseLine(CountLine("Total", n), data) == Ok(data["Total" := n])
  {
    TotalLineShape(n);
    TotalLineFields(n);
    DigitsAreCountWord(n);
    SpacedWord(NatToString(n));
    ParseNatToString(n);
  }

  /** A later count line for a key overrides whatever the lines before it left there. */
  lemma LaterLineWins(data: Counts, before: seq<string>, tag: string, n: nat)
    requires CountLabel(tag) && ParseFrom(data, before).Ok?
    ensures ParseFrom(data, before + [CountLine(tag, n)]) == Ok(ParseFrom(data, before).value[tag := n])
  {
    var mid := ParseFrom(data, before).value;
    ParseFromAppend(data, before, [CountLine(tag, n)]);
    CountLineParses(tag, n, mid);
    assert [CountLine(tag, n)][1..] == [];
  }

  /** The count lines set each category's name to its list length. */
  function WithCounts(data: Counts, t: Tally, cs: seq<Category>): Counts
    requires Complete(t)
    decreases |cs|
  {
    if cs == [] then data else WithCounts(data[CategoryName(cs[0]) := |t.lists[cs[0]]|], t, cs[1..])
  }

  lemma CategoryNameIsLabel(c: Category)
    ensures CountLabel(CategoryName(c))
  {
  }

  /** A count line read on its own sets its tag. */
  lemma CategoryLineRead(data: Counts, tag: string, n: nat)
    requires CountLabel(tag)
    ensures WholeLines(CountLine(tag, n)) && ParseFrom(data, SplitLines(CountLine(tag, n))) == Ok(data[tag := n])
  {
    CountLineParses(tag, n, data);
    ReadOneLine(data, CountLine(tag, n));
  }

  lemma {:induction false} CountLinesParse(data: Counts, t: Tally, cs: seq<Category>)
    requires Complete(t)
    ensures WholeLines(Concat(CountLines(t, cs)))
    ensures ParseFrom(data, SplitLines(Concat(CountLines(t, cs)))) == Ok(WithCounts(data, t, cs))
    decreases |cs|
  {
    if cs != [] {
      var c := cs[0];
      var line := CountLine(CategoryName(c), |t.lists[c]|);
      var next := data[CategoryName(c) := |t.lists[c]|];
      assert Concat(CountLines(t, cs)) == line + Concat(CountLines(t, cs[1..])) by {
        assert CountLines(t, cs)[0] == line;
        assert CountLines(t, cs)[1..] == CountLines(t, cs[1..]);
      }
      CategoryNameIsLabel(c);
      CategoryLineRead(data, CategoryName(c), |t.lists[c]|);
      CountLinesParse(next, t, cs[1..]);
      ReadPair(data, next, WithCounts(next, t, cs[1..]), line, Concat(CountLines(t, cs[1..])));
    }
  }

  /** The five count lines, read into a dictionary, set the five category names. */
  lemma FiveCounts(t: Tally, data: Counts)
    requires Complete(t)
    ensures WithCounts(data, t, CategoryOrder)
            == data["Checkpoints" := |t.lists[Checkpoints]|]["Embeddings" := |t.lists[Embeddings]|]["Lora" := |t.lists[Lora]|]
                   ["Training_Data" := |t.lists[TrainingData]|]["Other" := |t.lists[Other]|]
  {
    assert CategoryOrder[1..] == [Embeddings, Lora, TrainingData, Other];
    assert CategoryOrder[1..][1..] == [Lora, TrainingData, Other];
    assert CategoryOrder[1..][1..][1..] == [TrainingData, Other];
    assert CategoryOrder[1..][1..][1..][1..] == [Other];
    assert CategoryOrder[1..][1..][1..][1..][1..] == [];
  }

  /** Joining four stretches of lines, the third a single line. */
  lemma ConcatFour(a: seq<string>, b: seq<string>, c: string, d: seq<string>)
    ensures Concat(a + b + [c] + d) == Concat(a) + (Concat(b) + (c + Concat(d)))
  {
    calc {
      Concat(a + b + [c] + d);
    == { ConcatAppend(a + b + [c], d); }
      Concat(a + b + [c]) + Concat(d);
    == { ConcatAppend(a + b, [c]); ConcatSingle(c); }
      Concat(a + b) + c + Concat(d);
    == { ConcatAppend(a, b); }
      Concat(a) + Concat(b) + c + Concat(d);
    }
  }

  /** The summary text, as the three stretches the reader goes through. */
  lemma SummaryText(t: Tally)
    requires Complete(t)
    ensures Concat(SummaryLines(t))
            == ("Summary:\n" + CountLine("Total", TotalCount(t))) + (Concat(CountLines(t, CategoryOrder))
               + ("\nDetailed Listing:\n" + Concat(Listing(t, CategoryOrder))))
  {
    var total := CountLine("Total", TotalCount(t));
    var head := ["Summary:\n", total];
    assert Concat(head) == "Summary:\n" + total by {
      assert head[1..] == [total];
      ConcatSingle(total);
    }
    ConcatFour(head, CountLines(t, CategoryOrder), "\nDetailed Listing:\n", Listing(t, CategoryOrder));
  }

  /** The heading and the `Total` line set just `Total`. */
  lemma HeadingThenTotal(heading: string, n: nat)
    requires ListedLine(heading)
    ensures WholeLines(heading + CountLine("Total", n))
    ensures ParseFrom(map[], SplitLines(heading + CountLine("Total", n))) == Ok(map["Total" := n])
  {
    var m0: Counts := map[];
    var total := CountLine("Total", n);
    assert WholeLines(total) && ParseFrom(m0, SplitLines(total)) == Ok(map["Total" := n]) by {
      TotalLineParses(n, m0);
      ReadOneLine(m0, total);
    }
    NeutralLine(m0, heading);
    ReadPair(m0, m0, map["Total" := n], heading, total);
  }

  lemma HeadParses(n: nat)
    ensures WholeLines("Summary:\n" + CountLine("Total", n))
    ensures ParseFrom(map[], SplitLines("Summary:\n" + CountLine("Total", n))) == Ok(map["Total" := n])
  {
    assert ListedLine("Summary:\n") by {
      assert PlainText("Summary");
      ColonLine("Summary");
      assert "Summary" + ":\n" == "Summary:\n";
    }
    HeadingThenTotal("Summary:\n", n);
  }

  /** The detailed listing and its heading change nothing. */
  lemma TailNeutral(data: Counts, t: Tally, cs: seq<Category>)
    requires Complete(t) && ListingSafe(t)
    ensures WholeLines("\nDetailed Listing:\n" + Concat(Listing(t, cs)))
    ensures ParseFrom(data, SplitLines("\nDetailed Listing:\n" + Concat(Listing(t, cs)))) == Ok(data)
  {
    DetailedHeadingBlank();
    BlankThenListedNeutral(data, "\nDetailed Listing:\n");
    ListingNeutral(data, t, cs);
    ReadPair(data, data, data, "\nDetailed Listing:\n", Concat(Listing(t, cs)));
  }

  /** Head, count lines and tail read in turn. */
  lemma ReadThree(m0: Counts, m1: Counts, m2: Counts, a: string, b: string, c: string)
    requires WholeLines(a) && WholeLines(b) && WholeLines(c)
    requires ParseFrom(m0, SplitLines(a)) == Ok(m1) && ParseFrom(m1, SplitLines(b)) == Ok(m2)
    requires ParseFrom(m2, SplitLines(c)) == Ok(m2)
    ensures WholeLines(a + (b + c)) && ParseFrom(m0, SplitLines(a + (b + c))) == Ok(m2)
  {
    ReadPair(m1, m2, m2, b, c);
    ReadPair(m0, m1, m2, a, b + c);
  }

  /** The dictionary the round trip reads back, built the way the reader builds it. */
  lemma SummaryParses(t: Tally)
    requires Complete(t) && ListingSafe(t)
    ensures WholeLines(Concat(SummaryLines(t)))
    ensures ParseFrom(map[], SplitLines(Concat(SummaryLines(t))))
            == Ok(WithCounts(map["Total" := TotalCount(t)], t, CategoryOrder))
  {
    var m1: Counts := map["Total" := TotalCount(t)];
    var m2 := WithCounts(m1, t, CategoryOrder);
    SummaryText(t);
    HeadParses(TotalCount(t));
    CountLinesParse(m1, t, CategoryOrder);
    TailNeutral(m2, t, CategoryOrder);
    ReadThree(map[], m1, m2, "Summary:\n" + CountLine("Total", TotalCount(t)), Concat(CountLines(t, CategoryOrder)),
              "\nDetailed Listing:\n" + Concat(Listing(t, CategoryOrder)));
  }

  /**
   * The round trip: reading back what `format_summary` wrote gives
   * `Total` as the sum of the five list lengths and each category's name
   * with its list's length, whenever no detailed line could pass for a
   * count line.
   */
  lemma SummaryRoundTrip(t: Tally)
    requires Complete(t) && ListingSafe(t)
    ensures ReadSummary(Some(Concat(SummaryLines(t))))
            == Ok(map["Total" := TotalCount(t), "Checkpoints" := |t.lists[Checkpoints]|, "Embeddings" := |t.lists[Embeddings]|,
                      "Lora" := |t.lists[Lora]|, "Training_Data" := |t.lists[TrainingData]|, "Other" := |t.lists[Other]|])
  {
    SummaryParses(t);
    FiveCounts(t, map["Total" := TotalCount(t)]);
  }

  /** A name without line breaks or colons gives a detailed line the reader passes over. */
  lemma PlainNameIsListed(name: string)
    requires '\n' !in name && '\r' !in name && ':' !in name
    ensures ListedLine("  " + name + "\n")
  {
    var l := "  " + name + "\n";
    forall i | 0 <= i < |l|
      ensures l[i] != ':' && l[i] != '\r' && (i < |l| - 1 ==> l[i] != '\n')
    {
      if 2 <= i < |l| - 1 {
        assert l[i] == name[i - 2];
      }
    }
    MissingCharNotContained(l, " - Count:", 8);
  }

  /**
   * The Other section is written from `other_item_types`, not from the Other
   * list; because the two stay in step, its lines still name the Other
   * list's items, in order, each with its recorded type.
   */
  lemma OtherSectionNamesOtherList(t: Tally)
    requires OthersMirror(t)
    ensures |ItemLines(t, Other)| == |t.lists[Other]|
    ensures forall i :: 0 <= i < |t.lists[Other]|
              ==> ItemLines(t, Other)[i] == "  " + t.lists[Other][i] + " - Type: " + TypeText(t.others[i].1) + "\n"
  {
    forall i | 0 <= i < |t.lists[Other]|
      ensures ItemLines(t, Other)[i] == "  " + t.lists[Other][i] + " - Type: " + TypeText(t.others[i].1) + "\n"
    {
      assert OtherNames(t.others)[i] == t.others[i].0;
    }
  }

  /** A count whose text is not a number stops the read with an error rather than a partial dictionary. */
  lemma BadCountAborts(data: Counts, tag: string, v: string, rest: seq<string>)
    requires CountLabel(tag) && CountWord(v) && !IsDigit(v[0]) && v[0] != '+'
    ensures ParseFrom(data, [tag + " - Count: " + v + "\n"] + rest) == Err(BadCount(tag + " - Count: " + v + "\n"))
  {
    NonNumericCount(tag, v, data);
    assert ([tag + " - Count: " + v + "\n"] + rest)[0] == tag + " - Count: " + v + "\n";
  }
}

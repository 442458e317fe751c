/**
 * The feature installer: the shell script, shipped in the `feature-install`
 * ConfigMap, that reads the features the DevContainer compiler extracted
 * and decides which tools to install and at which version.
 */
module Features {
  import opened Wrappers
  import opened Text
  import InstallerText

  /** `"<id>"`: an identifier between double quotes, as the script searches for it. */
  function Quoted(id: string): string {
    "\"" + id + "\""
  }

  /** The length of the longest prefix of `s` free of `stop` characters. */
  function Run(s: string, stop: set<char>): (n: nat)
    ensures n <= |s|
    ensures forall k :: 0 <= k < n ==> s[k] !in stop
    ensures n < |s| ==> s[n] in stop
  {
    if s == [] || s[0] in stop then 0 else 1 + Run(s[1..], stop)
  }

  /**
   * `grep -o '<lit>[^<stop>]*'` on one line: the leftmost match, as long as
   * it can be, then the matches in the rest of the line.
   */
  function GrepLine(line: string, lit: string, stop: set<char>): seq<string>
    requires lit != []
    decreases |line|
  {
    if |line| < |lit| then []
    else if line[..|lit|] == lit then
      var n := |lit| + Run(line[|lit|..], stop);
      [line[..n]] + GrepLine(line[n..], lit, stop)
    else GrepLine(line[1..], lit, stop)
  }

  /** `grep -o` over every line it reads. */
  function Grep(lines: seq<string>, lit: string, stop: set<char>): seq<string>
    requires lit != []
  {
    if lines == [] then [] else GrepLine(lines[0], lit, stop) + Grep(lines[1..], lit, stop)
  }

  /** `grep -o '"[^"]*"$'` on one line: the quoted string that ends it, if any. */
  function TrailingQuoted(line: string): Option<string> {
    if line != [] && line[|line| - 1] == '"' && '"' in line[..|line| - 1] then
      Some(line[LastIndexOf(line[..|line| - 1], '"')..])
    else None
  }

  function GrepTrailing(lines: seq<string>): seq<string> {
    if lines == [] then []
    else
      (match TrailingQuoted(lines[0]) case Some(m) => [m] case None => []) + GrepTrailing(lines[1..])
  }

  /** `tr -d '"'` */
  function RemoveQuotes(s: string): (r: string)
    ensures '"' !in r
  {
    if s == [] then [] else (if s[0] == '"' then [] else [s[0]]) + RemoveQuotes(s[1..])
  }

  function RemoveAllQuotes(lines: seq<string>): seq<string> {
    if lines == [] then [] else [RemoveQuotes(lines[0])] + RemoveAllQuotes(lines[1..])
  }

  /**
   * The pipeline of `get_feature_option` on `FEATURES_JSON`: the lines of
   * the document, then the feature's matches, then the option's matches
   * within them, then their trailing quoted values without quotes.
   */
  function OptionValue(json: string, feature: string, option: string): string {
    var featureMatches := Grep(SplitLines(json), Quoted(feature), {'}'});
    var optionMatches := Grep(featureMatches, Quoted(option), {',', '}'});
    CommandOutput(RemoveAllQuotes(GrepTrailing(optionMatches)))
  }

  /** `get_feature_option feature option default` */
  function GetFeatureOption(json: string, feature: string, option: string, default: string): string {
    var v := OptionValue(json, feature, option);
    if v == "" then default else v
  }

  // ---- Substrings ----

  lemma ContainsShift(s: string, k: nat, m: string)
    requires k <= |s| && Contains(s[k..], m)
    ensures Contains(s, m)
  {
    var i :| OccursAt(s[k..], m, i);
    assert s[k..][i..i + |m|] == s[i + k..i + k + |m|];
    assert OccursAt(s, m, i + k);
  }

  /** A substring of a substring of `c` is a substring of `c`. */
  lemma ContainsTrans(a: string, b: string, c: string)
    requires Contains(c, b)
    ensures Contains(b, a) ==> Contains(c, a)
  {
    if Contains(b, a) {
      var i :| OccursAt(b, a, i);
      var j :| OccursAt(c, b, j);
      forall t | 0 <= t < |a| ensures c[j + i..j + i + |a|][t] == a[t] {
        assert c[j + i..j + i + |a|][t] == c[j..j + |b|][i + t] == b[i..i + |a|][t];
      }
      assert OccursAt(c, a, j + i);
    }
  }

  lemma StartsContains(m: string, lit: string)
    requires |lit| <= |m| && m[..|lit|] == lit
    ensures Contains(m, lit)
  {
    assert OccursAt(m, lit, 0);
  }

  /** An occurrence in a suffix is an occurrence in the whole text. */
  lemma OccursShift(s: string, k: nat, m: string, i: nat)
    requires k <= |s| && OccursAt(s[k..], m, i)
    ensures OccursAt(s, m, i + k)
  {
    assert s[k..][i..i + |m|] == s[i + k..i + k + |m|];
  }

  /** Every piece of a joined text occurs in it, at the position returned. */
  lemma {:induction false} JoinPieceAt(parts: seq<string>, sep: char, j: nat) returns (i: nat)
    requires j < |parts|
    ensures OccursAt(Join(parts, sep), parts[j], i)
  {
    var text := Join(parts, sep);
    if |parts| == 1 {
      i := 0;
      assert text[0..|text|] == text;
    } else {
      var rest := Join(parts[1..], sep);
      assert text == parts[0] + ([sep] + rest);
      if j == 0 {
        i := 0;
        assert text[0..|parts[0]|] == parts[0];
      } else {
        var i' := JoinPieceAt(parts[1..], sep, j - 1);
        assert parts[1..][j - 1] == parts[j];
        assert text[|parts[0]| + 1..] == rest;
        OccursShift(text, |parts[0]| + 1, parts[j], i');
        i := i' + |parts[0]| + 1;
      }
    }
  }

  lemma SplitPiecesOccur(text: string, sep: char, j: nat)
    requires j < |Split(text, sep)|
    ensures Contains(text, Split(text, sep)[j])
  {
    JoinSplit(text, sep);
    var i := JoinPieceAt(Split(text, sep), sep, j);
  }

  // ---- What grep -o outputs ----

  /** Each output of one line starts with the literal and occurs in the line. */
  lemma {:induction false} GrepLineFrom(line: string, lit: string, stop: set<char>, m: string)
    requires lit != [] && m in GrepLine(line, lit, stop)
    ensures |lit| <= |m| && m[..|lit|] == lit && Contains(line, m)
    decreases |line|
  {
    if |line| >= |lit| {
      if line[..|lit|] == lit {
        var n := |lit| + Run(line[|lit|..], stop);
        if m == line[..n] {
          assert OccursAt(line, m, 0);
        } else {
          GrepLineFrom(line[n..], lit, stop, m);
          ContainsShift(line, n, m);
        }
      } else {
        GrepLineFrom(line[1..], lit, stop, m);
        ContainsShift(line, 1, m);
      }
    }
  }

  lemma {:induction false} GrepFrom(lines: seq<string>, lit: string, stop: set<char>, m: string)
    requires lit != [] && m in Grep(lines, lit, stop)
    ensures |lit| <= |m| && m[..|lit|] == lit
    ensures exists j :: 0 <= j < |lines| && Contains(lines[j], m)
  {
    if m in GrepLine(lines[0], lit, stop) {
      GrepLineFrom(lines[0], lit, stop, m);
    } else {
      GrepFrom(lines[1..], lit, stop, m);
      var j :| 0 <= j < |lines[1..]| && Contains(lines[1..][j], m);
      assert lines[1..][j] == lines[j + 1];
    }
  }

  /** A line without the literal yields nothing. */
  lemma {:induction false} GrepLineAbsent(line: string, lit: string, stop: set<char>)
    requires lit != [] && !Contains(line, lit)
    ensures GrepLine(line, lit, stop) == []
    decreases |line|
  {
    if |line| >= |lit| {
      assert !OccursAt(line, lit, 0);
      assert !Contains(line[1..], lit) by {
        ContainsShiftBack(line, lit);
      }
      GrepLineAbsent(line[1..], lit, stop);
    }
  }

  lemma ContainsShiftBack(line: string, lit: string)
    requires line != []
    ensures Contains(line[1..], lit) ==> Contains(line, lit)
  {
    if Contains(line[1..], lit) {
      ContainsShift(line, 1, lit);
    }
  }

  lemma {:induction false} GrepAbsent(lines: seq<string>, lit: string, stop: set<char>)
    requires lit != []
    requires forall j :: 0 <= j < |lines| ==> !Contains(lines[j], lit)
    ensures Grep(lines, lit, stop) == []
  {
    if lines != [] {
      GrepLineAbsent(lines[0], lit, stop);
      GrepAbsent(lines[1..], lit, stop);
    }
  }

  // ---- What get_feature_option can return ----

  /**
   * The option is searched for only within the feature's matches, and each
   * of those lies on one line: an option on a line that does not also name
   * the feature is never found, and the default is used.
   */
  lemma OptionNeedsFeatureLine(json: string, feature: string, option: string, default: string)
    requires forall j :: 0 <= j < |SplitLines(json)| ==>
      !(Contains(SplitLines(json)[j], Quoted(feature)) && Contains(SplitLines(json)[j], Quoted(option)))
    ensures GetFeatureOption(json, feature, option, default) == default
  {
    var lines := SplitLines(json);
    var featureMatches := Grep(lines, Quoted(feature), {'}'});
    forall j | 0 <= j < |featureMatches| ensures !Contains(featureMatches[j], Quoted(option)) {
      var m := featureMatches[j];
      GrepFrom(lines, Quoted(feature), {'}'}, m);
      var k :| 0 <= k < |lines| && Contains(lines[k], m);
      StartsContains(m, Quoted(feature));
      ContainsTrans(Quoted(feature), m, lines[k]);
      ContainsTrans(Quoted(option), m, lines[k]);
    }
    GrepAbsent(featureMatches, Quoted(option), {',', '}'});
  }

  /** A feature or option the document never names leaves the default in place. */
  lemma MissingMeansDefault(json: string, feature: string, option: string, default: string)
    requires !Contains(json, Quoted(feature)) || !Contains(json, Quoted(option))
    ensures GetFeatureOption(json, feature, option, default) == default
  {
    var lines := SplitLines(json);
    forall j | 0 <= j < |lines|
      ensures !(Contains(lines[j], Quoted(feature)) && Contains(lines[j], Quoted(option)))
    {
      SplitPiecesOccur(json, '\n', j);
      ContainsTrans(Quoted(feature), lines[j], json);
      ContainsTrans(Quoted(option), lines[j], json);
    }
    OptionNeedsFeatureLine(json, feature, option, default);
  }

  // ---- Quoted identifiers ----

  /** What an occurrence of `"x"` at `i` says about the characters of `s`. */
  lemma QuotedAt(s: string, x: string, i: nat)
    requires OccursAt(s, Quoted(x), i)
    ensures s[i] == '"' && s[i + 1 + |x|] == '"'
    ensures s[i + 1..i + 1 + |x|] == x
  {
    var q := Quoted(x);
    assert |q| == |x| + 2 && q[0] == '"' && q[|x| + 1] == '"';
    assert q[1..1 + |x|] == x;
    assert s[i..i + |q|] == q;
    forall t | 0 <= t < |x| ensures s[i + 1..i + 1 + |x|][t] == x[t] {
      assert s[i + 1 + t] == s[i..i + |q|][1 + t] == q[1 + t] == x[t];
    }
    assert s[i] == s[i..i + |q|][0];
    assert s[i + 1 + |x|] == s[i..i + |q|][|x| + 1];
  }

  /** `x` stands between two quotes at `i`. */
  ghost predicate Enclosed(s: string, x: string, i: nat) {
    i + |x| + 1 < |s| && s[i] == '"' && s[i + 1..i + 1 + |x|] == x && s[i + 1 + |x|] == '"'
  }

  /** `x`, free of quotes, between two quotes is a piece strictly inside the cut at quotes. */
  lemma {:induction false} EnclosedPiece(s: string, x: string, i: nat)
    requires '"' !in x && Enclosed(s, x, i)
    ensures exists j :: 0 < j < |Split(s, '"')| - 1 && Split(s, '"')[j] == x
    decreases |s|
  {
    var k := FirstQuoteBefore(s, x, i);
    var rest := s[k + 1..];
    SplitAtFirst(s, '"');
    if i == k {
      FirstEnclosed(s, x, k);
      assert Split(s, '"')[1] == x;
    } else {
      EnclosedShift(s, x, i, k);
      EnclosedPiece(rest, x, i - k - 1);
      var j :| 0 < j < |Split(rest, '"')| - 1 && Split(rest, '"')[j] == x;
      assert Split(s, '"')[j + 1] == x;
    }
  }

  /** The first quote of `s` comes no later than the one opening an enclosed `x`. */
  lemma FirstQuoteBefore(s: string, x: string, i: nat) returns (k: nat)
    requires Enclosed(s, x, i)
    ensures '"' in s && k == IndexOf(s, '"') && k <= i
  {
    assert s[i] in s;
    k := IndexOf(s, '"');
    assert forall t :: 0 <= t < k ==> s[t] == s[..k][t];
  }

  lemma SplitAtFirst(s: string, sep: char)
    requires sep in s
    ensures Split(s, sep) == [s[..IndexOf(s, sep)]] + Split(s[IndexOf(s, sep) + 1..], sep)
  {
  }

  lemma FirstEnclosed(s: string, x: string, k: nat)
    requires '"' !in x && Enclosed(s, x, k)
    ensures Split(s[k + 1..], '"')[0] == x && |Split(s[k + 1..], '"')| >= 2
  {
    var rest := s[k + 1..];
    assert rest[..|x|] == s[k + 1..k + 1 + |x|];
    assert rest[|x|] == '"';
    IndexOfUnique(rest, '"', |x|);
  }

  lemma EnclosedShift(s: string, x: string, i: nat, k: nat)
    requires Enclosed(s, x, i) && k < i
    ensures Enclosed(s[k + 1..], x, i - k - 1)
  {
    assert s[k + 1..][i - k..i - k + |x|] == s[i + 1..i + 1 + |x|];
  }

  lemma QuotedIsPiece(s: string, x: string)
    requires '"' !in x
    ensures Contains(s, Quoted(x)) ==> exists j :: 0 < j < |Split(s, '"')| - 1 && Split(s, '"')[j] == x
  {
    if Contains(s, Quoted(x)) {
      var i :| OccursAt(s, Quoted(x), i);
      QuotedAt(s, x, i);
      EnclosedPiece(s, x, i);
    }
  }

  // ---- The features document as jq prints it ----

  /** `jq -r` pretty-prints a one-feature, one-option object over five lines. */
  function PrettyLines(feature: string, option: string, value: string): seq<string> {
    ["{", "  " + Quoted(feature) + ": {", "    " + Quoted(option) + ": " + Quoted(value), "  }", "}"]
  }

  function Pretty(feature: string, option: string, value: string): string {
    Join(PrettyLines(feature, option, value), '\n')
  }

  /** The same object on one line, as `jq -c` prints it. */
  function Compact(feature: string, option: string, value: string): string {
    "{" + Quoted(feature) + ":{" + Quoted(option) + ":" + Quoted(value) + "}}"
  }

  /** A name or value with none of the characters the grep patterns stop at or the document is cut at. */
  predicate Plain(s: string) {
    '"' !in s && '\n' !in s && ',' !in s && '}' !in s
  }

  lemma QuoteFreeLine(line: string, x: string)
    requires '"' !in line && '"' !in x
    ensures !Contains(line, Quoted(x))
  {
    SplitJoin([line], '"');
    QuotedIsPiece(line, x);
  }

  /** Three pieces cut at quotes: the middle one stands quoted. */
  lemma JoinQuoted3(a: string, b: string, c: string)
    ensures Join([a, b, c], '"') == a + Quoted(b) + c
  {
    assert Join([a, b, c][1..], '"') == b + ['"'] + c;
  }

  /** Five pieces cut at quotes: the second and the fourth stand quoted. */
  lemma JoinQuoted5(a: string, b: string, c: string, d: string, e: string)
    ensures Join([a, b, c, d, e], '"') == a + Quoted(b) + c + Quoted(d) + e
  {
    JoinQuoted3(c, d, e);
    assert [a, b, c, d, e][2..] == [c, d, e];
    assert Join([a, b, c, d, e][1..], '"') == b + ['"'] + (c + Quoted(d) + e);
  }

  /** Seven pieces cut at quotes: every other one stands quoted. */
  lemma JoinQuoted7(a: string, b: string, c: string, d: string, e: string, f: string, g: string)
    ensures Join([a, b, c, d, e, f, g], '"') == a + Quoted(b) + c + Quoted(d) + e + Quoted(f) + g
  {
    JoinQuoted5(c, d, e, f, g);
    assert [a, b, c, d, e, f, g][2..] == [c, d, e, f, g];
    assert Join([a, b, c, d, e, f, g][1..], '"') == b + ['"'] + (c + Quoted(d) + e + Quoted(f) + g);
  }

  /** The line opening the feature's object names no option other than the feature itself. */
  lemma FeatureLineNames(feature: string, option: string)
    requires '"' !in feature && '"' !in option
    ensures Contains("  " + Quoted(feature) + ": {", Quoted(option)) ==> option == feature
  {
    var parts := ["  ", feature, ": {"];
    JoinQuoted3("  ", feature, ": {");
    SplitJoin(parts, '"');
    QuotedIsPiece(Join(parts, '"'), option);
  }

  /** The option's line names nothing but the option, the text `: ` and the value. */
  lemma OptionLineNames(feature: string, option: string, value: string)
    requires '"' !in feature && '"' !in option && '"' !in value
    ensures Contains("    " + Quoted(option) + ": " + Quoted(value), Quoted(feature)) ==>
      feature == option || feature == ": " || feature == value
  {
    var parts := ["    ", option, ": ", value, ""];
    var line := "    " + Quoted(option) + ": " + Quoted(value);
    JoinQuoted5("    ", option, ": ", value, "");
    assert line + "" == line;
    SplitJoin(parts, '"');
    QuotedIsPiece(line, feature);
  }

  lemma PrettySplits(feature: string, option: string, value: string)
    requires '\n' !in feature && '\n' !in option && '\n' !in value
    ensures SplitLines(Pretty(feature, option, value)) == PrettyLines(feature, option, value)
  {
    var lines := PrettyLines(feature, option, value);
    assert '\n' !in lines[1] && '\n' !in lines[2];
    SplitJoin(lines, '\n');
  }

  /**
   * On the pretty-printed document the feature's name stands alone on its
   * line, and the line holding its options does not name it: no option of
   * the feature is ever read, and every one takes its default.
   */
  lemma PrettyPrintedOptionIgnored(feature: string, option: string, value: string, asked: string, default: string)
    requires Plain(feature) && Plain(option) && Plain(value) && ':' !in feature
    requires feature != option && feature != value
    requires '"' !in asked && asked != feature
    ensures GetFeatureOption(Pretty(feature, option, value), feature, asked, default) == default
  {
    var lines := PrettyLines(feature, option, value);
    PrettySplits(feature, option, value);
    FeatureLineNames(feature, asked);
    OptionLineNames(feature, option, value);
    assert ':' in ": ";
    QuoteFreeLine(lines[0], feature);
    QuoteFreeLine(lines[3], feature);
    QuoteFreeLine(lines[4], feature);
    OptionNeedsFeatureLine(Pretty(feature, option, value), feature, asked, default);
  }

  /** A run over characters none of which stops it reaches the first stopping one. */
  lemma {:induction false} RunUpTo(x: string, y: string, stop: set<char>)
    requires forall k :: 0 <= k < |x| ==> x[k] !in stop
    requires y == [] || y[0] in stop
    ensures Run(x + y, stop) == |x|
  {
    if x != [] {
      assert (x + y)[1..] == x[1..] + y;
      RunUpTo(x[1..], y, stop);
    }
  }

  /** A run over a text with no stopping character takes all of it. */
  lemma {:induction false} RunAll(x: string, stop: set<char>)
    requires forall k :: 0 <= k < |x| ==> x[k] !in stop
    ensures Run(x, stop) == |x|
  {
    if x != [] {
      assert forall k :: 0 <= k < |x[1..]| ==> x[1..][k] == x[k + 1];
      RunAll(x[1..], stop);
    }
  }

  /** On a line free of stopping characters the first match, at `i`, runs to the end of the line. */
  lemma {:induction false} GrepLineToEnd(line: string, lit: string, stop: set<char>, j: nat) returns (i: nat)
    requires lit != [] && OccursAt(line, lit, j)
    requires forall k :: 0 <= k < |line| ==> line[k] !in stop
    ensures i <= j && OccursAt(line, lit, i) && GrepLine(line, lit, stop) == [line[i..]]
    decreases |line|
  {
    if line[..|lit|] == lit {
      GrepLineWhole(line, lit, stop);
      assert line[0..|lit|] == lit && line[0..] == line;
      i := 0;
    } else {
      var tail := line[1..];
      assert GrepLine(line, lit, stop) == GrepLine(tail, lit, stop);
      StopFreeTail(line, stop);
      assert OccursAt(tail, lit, j - 1) by {
        assert tail[j - 1..j - 1 + |lit|] == line[j..j + |lit|];
      }
      var i' := GrepLineToEnd(tail, lit, stop, j - 1);
      OccursShift(line, 1, lit, i');
      assert tail[i'..] == line[i' + 1..];
      i := i' + 1;
    }
  }

  lemma StopFreeTail(line: string, stop: set<char>)
    requires line != [] && forall k :: 0 <= k < |line| ==> line[k] !in stop
    ensures forall k :: 0 <= k < |line[1..]| ==> line[1..][k] !in stop
  {
    assert forall k :: 0 <= k < |line[1..]| ==> line[1..][k] == line[k + 1];
  }

  /** A stop-free line that starts with the pattern is one match. */
  lemma GrepLineWhole(line: string, lit: string, stop: set<char>)
    requires lit != [] && |lit| <= |line| && line[..|lit|] == lit
    requires forall k :: 0 <= k < |line| ==> line[k] !in stop
    ensures GrepLine(line, lit, stop) == [line]
  {
    var rest := line[|lit|..];
    assert forall k :: 0 <= k < |rest| ==> rest[k] == line[|lit| + k];
    assert line == lit + rest + [];
    GrepLineAtStart(lit, rest, [], stop);
    assert lit + rest == line;
  }

  lemma TrailingQuotedOf(w: string, value: string)
    requires '"' !in value
    ensures TrailingQuoted(w + Quoted(value)) == Some(Quoted(value))
  {
    var t := w + Quoted(value);
    var u := t[..|t| - 1];
    assert u == w + "\"" + value;
    assert u[|w| + 1..] == value;
    LastIndexOfUnique(u, '"', |w|);
    assert t[|w|..] == Quoted(value);
  }

  lemma {:induction false} RemoveQuotesAppend(a: string, b: string)
    ensures RemoveQuotes(a + b) == RemoveQuotes(a) + RemoveQuotes(b)
  {
    if a == [] {
      assert a + b == b;
    } else {
      assert (a + b)[0] == a[0];
      assert (a + b)[1..] == a[1..] + b;
      RemoveQuotesAppend(a[1..], b);
    }
  }

  lemma {:induction false} RemoveQuotesKeeps(s: string)
    requires '"' !in s
    ensures RemoveQuotes(s) == s
  {
    if s != [] {
      assert s == [s[0]] + s[1..];
      RemoveQuotesKeeps(s[1..]);
    }
  }

  lemma QuotesRemoved(value: string)
    requires '"' !in value
    ensures RemoveQuotes(Quoted(value)) == value
  {
    assert Quoted(value) == "\"" + (value + "\"");
    assert RemoveQuotes("\"") == [];
    RemoveQuotesAppend("\"", value + "\"");
    RemoveQuotesAppend(value, "\"");
    RemoveQuotesKeeps(value);
  }

  /** Everything from the feature's name to the first closing brace. */
  function CompactFeatureMatch(feature: string, option: string, value: string): string {
    Quoted(feature) + ":{" + Quoted(option) + ":" + Quoted(value)
  }

  lemma CompactFeatureGrep(feature: string, option: string, value: string)
    requires Plain(feature) && Plain(option) && Plain(value)
    ensures Grep(SplitLines(Compact(feature, option, value)), Quoted(feature), {'}'}) ==
      [CompactFeatureMatch(feature, option, value)]
  {
    var f := Quoted(feature);
    var line := Compact(feature, option, value);
    var m1 := CompactFeatureMatch(feature, option, value);
    var x := m1[|f|..];
    assert m1 == f + x;
    assert line == ['{'] + (f + x + "}}");
    assert '\n' !in line && '}' !in x;
    assert SplitLines(line) == [line];
    QuoteFreeLine("}}", feature);
    GrepLineAbsent("}}", f, {'}'});
    GrepLineAtStart(f, x, "}}", {'}'});
    GrepLineSkip('{', f + x + "}}", f, {'}'});
    assert Grep([line], f, {'}'}) == GrepLine(line, f, {'}'}) + [];
  }

  /** A line that starts with the pattern: the match runs to the first stopping character. */
  lemma GrepLineAtStart(lit: string, x: string, tail: string, stop: set<char>)
    requires lit != [] && (forall k :: 0 <= k < |x| ==> x[k] !in stop) && (tail == [] || tail[0] in stop)
    requires GrepLine(tail, lit, stop) == []
    ensures GrepLine(lit + x + tail, lit, stop) == [lit + x]
  {
    var line := lit + x + tail;
    assert line[..|lit|] == lit;
    assert line[|lit|..] == x + tail;
    RunUpTo(x, tail, stop);
    assert line[..|lit| + |x|] == lit + x;
    assert line[|lit| + |x|..] == tail;
  }

  /** A first character that cannot start the pattern is passed over. */
  lemma GrepLineSkip(c: char, rest: string, lit: string, stop: set<char>)
    requires lit != [] && c != lit[0]
    ensures GrepLine([c] + rest, lit, stop) == GrepLine(rest, lit, stop)
  {
    var line := [c] + rest;
    assert line[1..] == rest;
    if |line| >= |lit| {
      assert line[..|lit|][0] == c;
    }
  }

  lemma CompactOptionGrep(feature: string, option: string, value: string) returns (w: string)
    requires Plain(feature) && Plain(option) && Plain(value)
    ensures Grep([CompactFeatureMatch(feature, option, value)], Quoted(option), {',', '}'}) ==
      [w + Quoted(value)]
  {
    var f, o, v := Quoted(feature), Quoted(option), Quoted(value);
    var m1 := CompactFeatureMatch(feature, option, value);
    assert OccursAt(m1, o, |f| + 2) by {
      assert m1 == (f + ":{") + (o + ":" + v);
      assert m1[|f| + 2..|f| + 2 + |o|] == o;
    }
    assert ',' !in m1 && '}' !in m1;
    var i := GrepLineToEnd(m1, o, {',', '}'}, |f| + 2);
    w := m1[i..|m1| - |v|];
    assert m1[i..] == w + v;
  }

  /** On the single-line document the configured value is found. */
  lemma CompactOptionFound(feature: string, option: string, value: string, default: string)
    requires Plain(feature) && Plain(option) && Plain(value) && value != ""
    ensures GetFeatureOption(Compact(feature, option, value), feature, option, default) == value
  {
    CompactFeatureGrep(feature, option, value);
    var w := CompactOptionGrep(feature, option, value);
    TrailingQuotedOf(w, value);
    assert GrepTrailing([w + Quoted(value)]) == [Quoted(value)];
    QuotesRemoved(value);
    assert RemoveAllQuotes([Quoted(value)]) == [value];
    SingleLineOutput(value);
  }

  // ---- Which features are installed, and how ----

  /** The features the installer knows, one per `if feature_exists ...` block. */
  datatype Feature =
    | Docker | DockerInDocker | Node | Python | Go | Java | Rust | DotNet | Php
    | CommonUtils | GitHubCli | AzureCli | AwsCli | Terraform | Kubectl

  /** The blocks in the order the script runs them. */
  const ScriptOrder: seq<Feature> :=
    [Docker, DockerInDocker, Node, Python, Go, Java, Rust, DotNet, Php,
     CommonUtils, GitHubCli, AzureCli, AwsCli, Terraform, Kubectl]

  /** The position of a feature's block in the script. */
  function Rank(f: Feature): (k: nat)
    ensures k < |ScriptOrder| && ScriptOrder[k] == f
  {
    match f
    case Docker => 0 case DockerInDocker => 1 case Node => 2 case Python => 3
    case Go => 4 case Java => 5 case Rust => 6 case DotNet => 7 case Php => 8
    case CommonUtils => 9 case GitHubCli => 10 case AzureCli => 11 case AwsCli => 12
    case Terraform => 13 case Kubectl => 14
  }

  /** The identifiers whose presence selects a block; the first also keys its options. */
  function Selectors(f: Feature): (ids: seq<string>)
    ensures |ids| >= 1
  {
    match f
    case Docker => ["docker"]
    case DockerInDocker => ["docker-in-docker", "docker-from-docker"]
    case Node => ["node"]
    case Python => ["python"]
    case Go => ["go"]
    case Java => ["java"]
    case Rust => ["rust"]
    case DotNet => ["dotnet"]
    case Php => ["php"]
    case CommonUtils => ["common-utils"]
    case GitHubCli => ["github-cli"]
    case AzureCli => ["azure-cli"]
    case AwsCli => ["aws-cli"]
    case Terraform => ["terraform"]
    case Kubectl => ["kubectl", "kubernetes-tools"]
  }

  /** `feature_exists id`: the document mentions `"id"`. */
  function FeatureExists(json: string, id: string): (b: bool)
    ensures b <==> exists i :: OccursAt(json, Quoted(id), i)
  {
    Contains(json, Quoted(id))
  }

  function Selected(json: string, f: Feature): bool {
    exists id | id in Selectors(f) :: FeatureExists(json, id)
  }

  /**
   * How a version is chosen: the newest release the block's installer offers,
   * or the one named. For Node the newest is the newest long-term-support
   * release (`nvm install --lts`); for the other tools it is the newest
   * upstream release.
   */
  datatype Version = Newest | Pinned(version: string)

  /** The Docker Compose release installed when `docker-compose` is not on the path. */
  const ComposeVersion := "v2.24.6"

  /** What one block installs. */
  datatype Install =
    | DockerConfigured
    | DockerInDockerConfigured(compose: Option<string>)
    | NodeInstall(node: Version)
    | PythonInstall(tools: bool, jupyter: bool)
    | GoInstall(go: Version)
    | JavaInstall(jdk: string)
    | RustInstall
    | DotNetInstall(sdk: Version)
    | PhpInstall(php: string, composer: bool)
    | CommonUtilsInstall
    | GitHubCliInstall
    | AzureCliInstall
    | AwsCliInstall
    | TerraformInstall(terraform: Version)
    | KubectlInstall(kubectl: Version)

  /** The `version` a block falls back to. */
  function DefaultVersion(f: Feature): string {
    match f
    case Node => "lts"
    case Python => "3.10"
    case Java => "17"
    case Php => "8.2"
    case _ => "latest"
  }

  /** `get_feature_option <id> version <default>` for a block. */
  function RequestedVersion(json: string, f: Feature): string {
    GetFeatureOption(json, Selectors(f)[0], "version", DefaultVersion(f))
  }

  /**
   * The `version` values a block reads as "the newest release": Node tests
   * for `lts` and `latest`, Java and PHP test for neither and pass the value
   * on, and every other versioned block tests for `latest` only.
   */
  function Sentinels(f: Feature): set<string> {
    match f
    case Node => {"lts", "latest"}
    case Java => {}
    case Php => {}
    case _ => {"latest"}
  }

  /** A requested version, where `latest` means the newest upstream release. */
  function Resolve(v: string): (r: Version)
    ensures r == Newest <==> v == "latest"
  {
    if v == "latest" then Newest else Pinned(v)
  }

  /** A yes/no option is on exactly when it reads `true`. */
  function Flag(json: string, feature: string, option: string, default: string): bool {
    GetFeatureOption(json, feature, option, default) == "true"
  }

  /** What a selected block installs, given whether `docker-compose` is already on the path. */
  function Action(json: string, f: Feature, composeOnPath: bool): Install {
    match f
    case Docker => DockerConfigured
    case DockerInDocker => DockerInDockerConfigured(if composeOnPath then None else Some(ComposeVersion))
    case Node =>
      var v := RequestedVersion(json, Node);
      NodeInstall(if v == "lts" then Newest else Resolve(v))
    case Python => PythonInstall(Flag(json, "python", "installTools", "true"), Flag(json, "python", "installJupyter", "false"))
    case Go => GoInstall(Resolve(RequestedVersion(json, Go)))
    case Java => JavaInstall(RequestedVersion(json, Java))
    case Rust => RustInstall
    case DotNet => DotNetInstall(Resolve(RequestedVersion(json, DotNet)))
    case Php => PhpInstall(RequestedVersion(json, Php), Flag(json, "php", "composer", "true"))
    case CommonUtils => CommonUtilsInstall
    case GitHubCli => GitHubCliInstall
    case AzureCli => AzureCliInstall
    case AwsCli => AwsCliInstall
    case Terraform => TerraformInstall(Resolve(RequestedVersion(json, Terraform)))
    case Kubectl => KubectlInstall(Resolve(RequestedVersion(json, Kubectl)))
  }

  /** The blocks of `order` whose feature the document selects, in that order. */
  function SelectionOf(json: string, order: seq<Feature>): seq<Feature> {
    if order == [] then []
    else (if Selected(json, order[0]) then [order[0]] else []) + SelectionOf(json, order[1..])
  }

  /** The blocks the script runs for a document. */
  function Selection(json: string): seq<Feature> {
    SelectionOf(json, ScriptOrder)
  }

  /** Everything the script installs for a document, block by block. */
  function Plan(json: string, composeOnPath: bool): (plan: seq<Install>)
    ensures |plan| == |Selection(json)|
    ensures forall k :: 0 <= k < |plan| ==> plan[k] == Action(json, Selection(json)[k], composeOnPath)
  {
    var selection := Selection(json);
    seq(|selection|, k requires 0 <= k < |selection| => Action(json, selection[k], composeOnPath))
  }

  lemma {:induction false} SelectionOfMembers(json: string, order: seq<Feature>, f: Feature)
    ensures f in SelectionOf(json, order) <==> f in order && Selected(json, f)
  {
    if order != [] {
      SelectionOfMembers(json, order[1..], f);
      assert order == [order[0]] + order[1..];
    }
  }

  /** A block runs exactly when the document names one of its identifiers. */
  lemma SelectionMembers(json: string, f: Feature)
    ensures f in Selection(json) <==> Selected(json, f)
  {
    SelectionOfMembers(json, ScriptOrder, f);
    assert ScriptOrder[Rank(f)] == f;
  }

  /** Every selected block is one of the blocks considered. */
  lemma SelectionOfWithin(json: string, order: seq<Feature>)
    ensures forall k :: 0 <= k < |SelectionOf(json, order)| ==> SelectionOf(json, order)[k] in order
  {
    forall k | 0 <= k < |SelectionOf(json, order)| ensures SelectionOf(json, order)[k] in order {
      SelectionOfMembers(json, order, SelectionOf(json, order)[k]);
    }
  }

  /** Blocks listed in strictly increasing script order. */
  predicate RankOrdered(s: seq<Feature>) {
    forall i, j :: 0 <= i < j < |s| ==> Rank(s[i]) < Rank(s[j])
  }

  /** The blocks after the first are ordered and all come after it. */
  lemma TailOrdered(order: seq<Feature>)
    requires order != [] && RankOrdered(order)
    ensures RankOrdered(order[1..])
    ensures forall k :: 0 <= k < |order[1..]| ==> Rank(order[0]) < Rank(order[1..][k])
  {
    var tail := order[1..];
    forall i, j | 0 <= i < j < |tail| ensures Rank(tail[i]) < Rank(tail[j]) {
      assert tail[i] == order[i + 1] && tail[j] == order[j + 1];
    }
    forall k | 0 <= k < |tail| ensures Rank(order[0]) < Rank(tail[k]) {
      assert tail[k] == order[k + 1];
    }
  }

  /** Blocks drawn from a list that comes after `x` come after `x` too. */
  lemma WithinAfter(x: Feature, tail: seq<Feature>, part: seq<Feature>)
    requires forall k :: 0 <= k < |tail| ==> Rank(x) < Rank(tail[k])
    requires forall k :: 0 <= k < |part| ==> part[k] in tail
    ensures forall k :: 0 <= k < |part| ==> Rank(x) < Rank(part[k])
  {
    forall k | 0 <= k < |part| ensures Rank(x) < Rank(part[k]) {
      var m :| 0 <= m < |tail| && tail[m] == part[k];
    }
  }

  /** A block put in front of ordered blocks that come after it keeps them ordered. */
  lemma ConsOrdered(x: Feature, rest: seq<Feature>)
    requires RankOrdered(rest)
    requires forall k :: 0 <= k < |rest| ==> Rank(x) < Rank(rest[k])
    ensures RankOrdered([x] + rest)
  {
    var s := [x] + rest;
    forall i, j | 0 <= i < j < |s| ensures Rank(s[i]) < Rank(s[j]) {
      assert s[j] == rest[j - 1];
      if i > 0 {
        assert s[i] == rest[i - 1];
      }
    }
  }

  /** Keeping some blocks of an ordered list keeps them ordered. */
  lemma {:induction false} SelectionOfOrdered(json: string, order: seq<Feature>)
    requires RankOrdered(order)
    ensures RankOrdered(SelectionOf(json, order))
  {
    if order != [] {
      var rest := SelectionOf(json, order[1..]);
      TailOrdered(order);
      SelectionOfOrdered(json, order[1..]);
      SelectionOfWithin(json, order[1..]);
      WithinAfter(order[0], order[1..], rest);
      if Selected(json, order[0]) {
        ConsOrdered(order[0], rest);
        assert SelectionOf(json, order) == [order[0]] + rest;
      } else {
        assert SelectionOf(json, order) == [] + rest == rest;
      }
    }
  }

  lemma ScriptOrderRanks()
    ensures RankOrdered(ScriptOrder)
  {
    forall i | 0 <= i < |ScriptOrder| ensures Rank(ScriptOrder[i]) == i {
    }
  }

  /** The blocks run in the script's order, each at most once. */
  lemma SelectionOrdered(json: string)
    ensures forall i, j :: 0 <= i < j < |Selection(json)| ==> Rank(Selection(json)[i]) < Rank(Selection(json)[j])
  {
    ScriptOrderRanks();
    SelectionOfOrdered(json, ScriptOrder);
  }

  // ---- What each block installs ----

  /** The blocks that read a `version` option. */
  predicate Versioned(f: Feature) {
    f == Node || f == Go || f == Java || f == DotNet || f == Php || f == Terraform || f == Kubectl
  }

  /** What a block installs when the document sets none of its options. */
  function DefaultAction(f: Feature, composeOnPath: bool): Install {
    match f
    case Docker => DockerConfigured
    case DockerInDocker => DockerInDockerConfigured(if composeOnPath then None else Some(ComposeVersion))
    case Node => NodeInstall(Newest)
    case Python => PythonInstall(true, false)
    case Go => GoInstall(Newest)
    case Java => JavaInstall("17")
    case Rust => RustInstall
    case DotNet => DotNetInstall(Newest)
    case Php => PhpInstall("8.2", true)
    case CommonUtils => CommonUtilsInstall
    case GitHubCli => GitHubCliInstall
    case AzureCli => AzureCliInstall
    case AwsCli => AwsCliInstall
    case Terraform => TerraformInstall(Newest)
    case Kubectl => KubectlInstall(Newest)
  }

  /** What a versioned block installs when `version` is `v`, not one of its sentinels, and nothing else is set. */
  function PinnedAction(f: Feature, v: string): Install
    requires Versioned(f)
  {
    match f
    case Node => NodeInstall(Pinned(v))
    case Go => GoInstall(Pinned(v))
    case Java => JavaInstall(v)
    case DotNet => DotNetInstall(Pinned(v))
    case Php => PhpInstall(v, true)
    case Terraform => TerraformInstall(Pinned(v))
    case Kubectl => KubectlInstall(Pinned(v))
  }

  /** A block whose options all read as their defaults installs what it installs by default. */
  lemma ActionWhenDefaults(json: string, f: Feature, composeOnPath: bool)
    requires RequestedVersion(json, f) == DefaultVersion(f)
    requires f == Python ==> GetFeatureOption(json, "python", "installTools", "true") == "true"
    requires f == Python ==> GetFeatureOption(json, "python", "installJupyter", "false") == "false"
    requires f == Php ==> GetFeatureOption(json, "php", "composer", "true") == "true"
    ensures Action(json, f, composeOnPath) == DefaultAction(f, composeOnPath)
  {
  }

  /** A versioned block asked for `v`, with its other options at their defaults, installs `v`. */
  lemma ActionWhenPinned(json: string, f: Feature, v: string, composeOnPath: bool)
    requires Versioned(f) && RequestedVersion(json, f) == v && v !in Sentinels(f)
    requires f == Php ==> GetFeatureOption(json, "php", "composer", "true") == "true"
    ensures Action(json, f, composeOnPath) == PinnedAction(f, v)
  {
  }

  /**
   * A block that resolves its version installs the newest release exactly
   * when the requested version is one of its sentinels; for Node both `lts`
   * and `latest` give the newest long-term-support release.
   */
  lemma NewestExactlyAtSentinels(json: string, f: Feature, composeOnPath: bool)
    requires Versioned(f) && f != Java && f != Php
    ensures Action(json, f, composeOnPath) == DefaultAction(f, composeOnPath) <==>
      RequestedVersion(json, f) in Sentinels(f)
  {
  }

  /** Java has no sentinel: it installs whatever `version` reads, `latest` and `lts` included. */
  lemma JavaPassesVersionOn(json: string, composeOnPath: bool)
    ensures Sentinels(Java) == {}
    ensures Action(json, Java, composeOnPath) == JavaInstall(RequestedVersion(json, Java))
  {
  }

  /** PHP has no sentinel either: the version it installs is whatever `version` reads. */
  lemma PhpPassesVersionOn(json: string, composeOnPath: bool)
    ensures Action(json, Php, composeOnPath).php == RequestedVersion(json, Php)
    ensures Sentinels(Php) == {}
  {
    assert Sentinels(Php) == {};
  }

  /**
   * Node installs the LTS release by default; Python installs its tools but
   * not Jupyter; PHP installs Composer; Java is 17, PHP 8.2, and every other
   * tool the newest release.
   */
  lemma DefaultActions(json: string, f: Feature, composeOnPath: bool)
    requires !FeatureExists(json, "version") && !FeatureExists(json, "installTools")
    requires !FeatureExists(json, "installJupyter") && !FeatureExists(json, "composer")
    ensures Action(json, f, composeOnPath) == DefaultAction(f, composeOnPath)
  {
    MissingMeansDefault(json, Selectors(f)[0], "version", DefaultVersion(f));
    MissingMeansDefault(json, "python", "installTools", "true");
    MissingMeansDefault(json, "python", "installJupyter", "false");
    MissingMeansDefault(json, "php", "composer", "true");
    ActionWhenDefaults(json, f, composeOnPath);
  }

  /** The quoted names in the single-line document: the feature, the option and the value. */
  lemma CompactNames(feature: string, option: string, value: string, x: string)
    requires '"' !in feature && '"' !in option && '"' !in value && '"' !in x
    ensures Contains(Compact(feature, option, value), Quoted(x)) ==>
      x == feature || x == option || x == value || x == ":{" || x == ":"
  {
    CompactPieces(feature, option, value);
    InteriorPiece(Compact(feature, option, value), ["{", feature, ":{", option, ":", value, "}}"], x);
  }

  lemma CompactPieces(feature: string, option: string, value: string)
    requires '"' !in feature && '"' !in option && '"' !in value
    ensures Split(Compact(feature, option, value), '"') == ["{", feature, ":{", option, ":", value, "}}"]
  {
    var parts := ["{", feature, ":{", option, ":", value, "}}"];
    CompactJoin(feature, option, value);
    assert forall i :: 0 <= i < |parts| ==> '"' !in parts[i];
    SplitJoin(parts, '"');
  }

  /** A quoted name in a text cut into known pieces is one of the interior pieces. */
  lemma InteriorPiece(s: string, parts: seq<string>, x: string)
    requires '"' !in x && Split(s, '"') == parts
    ensures Contains(s, Quoted(x)) ==> exists j :: 0 < j < |parts| - 1 && parts[j] == x
  {
    QuotedIsPiece(s, x);
  }

  lemma CompactJoin(feature: string, option: string, value: string)
    ensures Join(["{", feature, ":{", option, ":", value, "}}"], '"') == Compact(feature, option, value)
  {
    JoinQuoted7("{", feature, ":{", option, ":", value, "}}");
  }

  /** A name the one-line document does not quote, as feature or as option, leaves the default in place. */
  lemma CompactOtherDefault(feature: string, option: string, value: string, absent: string, other: string,
                            default: string)
    requires '"' !in feature && '"' !in option && '"' !in value && '"' !in absent
    requires absent != feature && absent != option && absent != value && absent != ":{" && absent != ":"
    ensures GetFeatureOption(Compact(feature, option, value), absent, other, default) == default
    ensures GetFeatureOption(Compact(feature, option, value), other, absent, default) == default
  {
    CompactNames(feature, option, value, absent);
    MissingMeansDefault(Compact(feature, option, value), absent, other, default);
    MissingMeansDefault(Compact(feature, option, value), other, absent, default);
  }

  /** The single-line document selects the feature it names. */
  lemma CompactSelects(feature: string, option: string, value: string)
    ensures FeatureExists(Compact(feature, option, value), feature)
  {
    var doc := Compact(feature, option, value);
    assert doc == "{" + Quoted(feature) + (":{" + Quoted(option) + ":" + Quoted(value) + "}}");
    assert doc[1..1 + |Quoted(feature)|] == Quoted(feature);
    assert OccursAt(doc, Quoted(feature), 1);
  }

  /** A `version` set on one line is installed as written, and the block's other options keep their defaults. */
  lemma CompactVersionPinned(f: Feature, v: string, composeOnPath: bool)
    requires Versioned(f) && Plain(v) && v != "" && v !in Sentinels(f)
    requires f == Php ==> v != "composer"
    ensures Action(Compact(Selectors(f)[0], "version", v), f, composeOnPath) == PinnedAction(f, v)
  {
    var id := Selectors(f)[0];
    VersionedId(f);
    CompactOptionFound(id, "version", v, DefaultVersion(f));
    if f == Php {
      CompactOtherDefault(id, "version", v, "composer", id, "true");
    }
    ActionWhenPinned(Compact(id, "version", v), f, v, composeOnPath);
  }

  /**
   * A `version` set in the pretty-printed document is never read: every
   * versioned block installs what it installs when nothing is set.
   */
  lemma PrettyVersionIgnored(f: Feature, v: string, composeOnPath: bool)
    requires Versioned(f) && Plain(v) && v != Selectors(f)[0]
    ensures Action(Pretty(Selectors(f)[0], "version", v), f, composeOnPath) == DefaultAction(f, composeOnPath)
  {
    var id := Selectors(f)[0];
    VersionedId(f);
    PrettyPrintedOptionIgnored(id, "version", v, "version", DefaultVersion(f));
    if f == Php {
      PrettyPrintedOptionIgnored(id, "version", v, "composer", "true");
    }
    ActionWhenDefaults(Pretty(id, "version", v), f, composeOnPath);
  }

  /** The identifier keying a versioned block's options is a plain name, distinct from the option names. */
  lemma VersionedId(f: Feature)
    requires Versioned(f)
    ensures Plain(Selectors(f)[0]) && ':' !in Selectors(f)[0]
    ensures Selectors(f)[0] != "version" && Selectors(f)[0] != "composer"
    ensures f == Php <==> Selectors(f)[0] == "php"
  {
    VersionedIdPlain(f);
  }

  lemma VersionedIdPlain(f: Feature)
    requires Versioned(f)
    ensures Plain(Selectors(f)[0]) && ':' !in Selectors(f)[0]
  {
  }

  /** `kubernetes-tools` selects the kubectl block, whose version is read under `kubectl` only. */
  lemma KubernetesToolsVersionIgnored(v: string, composeOnPath: bool)
    requires Plain(v) && v != "kubectl"
    ensures Selected(Compact("kubernetes-tools", "version", v), Kubectl)
    ensures Action(Compact("kubernetes-tools", "version", v), Kubectl, composeOnPath) == KubectlInstall(Newest)
  {
    CompactSelects("kubernetes-tools", "version", v);
    assert Selectors(Kubectl)[1] == "kubernetes-tools";
    CompactOtherDefault("kubernetes-tools", "version", v, "kubectl", "version", "latest");
  }

  /** The quotes keep `docker` apart from `docker-in-docker`: the plain Docker block does not run for it. */
  lemma DockerInDockerAlone(option: string, value: string)
    requires '"' !in option && '"' !in value && option != "docker" && value != "docker"
    ensures Selected(Compact("docker-in-docker", option, value), DockerInDocker)
    ensures !Selected(Compact("docker-in-docker", option, value), Docker)
  {
    CompactSelects("docker-in-docker", option, value);
    assert "docker-in-docker" in Selectors(DockerInDocker);
    CompactNames("docker-in-docker", option, value, "docker");
    assert Selectors(Docker) == ["docker"];
  }

  // ---- The installer as a whole ----

  /** How a run of the installer ends. */
  datatype Outcome =
    | NoFeaturesFile              // the file is absent: the script says so and exits 0
    | SyntaxError                 // bash stops at a quoting error before any block runs
    | Completed(installed: seq<Install>)

  /**
   * How bash runs the installer, given where its reader stands at the end of
   * the script's text. Without a features file the script exits before bash
   * reaches the function definitions. Otherwise bash reads
   * `get_feature_option` next, and a quote still open at the end of the file
   * is a syntax error before any block runs.
   */
  function RunInstaller(end: InstallerText.Reader, featuresFile: Option<string>, composeOnPath: bool): Outcome {
    match featuresFile
    case None => NoFeaturesFile
    case Some(text) =>
      if end != InstallerText.Unquoted then SyntaxError else Completed(Plan(Chomp(text), composeOnPath))
  }

  /**
   * The script as the controller ships it: Python decodes the non-raw
   * literal, and bash reads the decoded text. The lines of the literal that
   * hold no quote and no backslash are the parameters `gaps` and `tail`.
   */
  function InstallerAsWritten(featuresFile: Option<string>, composeOnPath: bool, gaps: seq<string>, tail: string): Outcome
    requires |gaps| == |InstallerText.Shown|
  {
    var end := InstallerText.ReadAll(InstallerText.PyDecode(InstallerText.Literal(gaps, tail)), InstallerText.Unquoted);
    RunInstaller(end, featuresFile, composeOnPath)
  }

  /** The script with its escapes intact: `FEATURES_JSON=$(cat file)` and then every selected block. */
  function Installer(featuresFile: Option<string>, composeOnPath: bool): Outcome {
    match featuresFile
    case None => NoFeaturesFile
    case Some(text) => Completed(Plan(Chomp(text), composeOnPath))
  }

  /** Whatever the features file holds, the shipped script stops at the open quote once the file exists. */
  lemma ShippedInstallerFails(featuresFile: Option<string>, composeOnPath: bool, gaps: seq<string>, tail: string)
    requires |gaps| == |InstallerText.Shown|
    requires forall i :: 0 <= i <= |InstallerText.Before| ==> InstallerText.Plain(gaps[i])
    requires forall i :: |InstallerText.Before| < i < |InstallerText.Shown| ==> '\'' !in gaps[i] && '\\' !in gaps[i]
    requires '\'' !in tail && '\\' !in tail
    ensures InstallerAsWritten(featuresFile, composeOnPath, gaps, tail) ==
      if featuresFile.None? then NoFeaturesFile else SyntaxError
  {
    InstallerText.ShippedLiteralLeavesQuoteOpen(gaps, tail);
  }

  /** Read as it stands, the literal closes its quotes, and bash runs the installer with its escapes intact. */
  lemma RawInstallerRuns(featuresFile: Option<string>, composeOnPath: bool, gaps: seq<string>, tail: string)
    requires |gaps| == |InstallerText.Shown|
    requires forall i :: 0 <= i < |InstallerText.Shown| ==> InstallerText.ReadAll(gaps[i], InstallerText.Unquoted) == InstallerText.Unquoted
    requires InstallerText.ReadAll(tail, InstallerText.Unquoted) == InstallerText.Unquoted
    ensures RunInstaller(InstallerText.ReadAll(InstallerText.Literal(gaps, tail), InstallerText.Unquoted), featuresFile, composeOnPath) ==
      Installer(featuresFile, composeOnPath)
  {
    InstallerText.RawLiteralCloses(gaps, tail);
  }

  /** The corrected installer runs exactly the selected blocks, in script order. */
  lemma InstallerRunsSelection(text: string, composeOnPath: bool, f: Feature)
    ensures Installer(Some(text), composeOnPath).Completed?
    ensures f in Selection(Chomp(text)) <==> Selected(Chomp(text), f)
    ensures forall i, j :: 0 <= i < j < |Selection(Chomp(text))| ==>
      Rank(Selection(Chomp(text))[i]) < Rank(Selection(Chomp(text))[j])
  {
    SelectionMembers(Chomp(text), f);
    SelectionOrdered(Chomp(text));
  }

  /** A one-line request for a Node release: the shipped script installs nothing, the corrected one installs that release. */
  lemma InstallerAsWrittenInstallsNothing(v: string, composeOnPath: bool, gaps: seq<string>, tail: string)
    requires Plain(v) && v != "" && v != "latest" && v != "lts"
    requires |gaps| == |InstallerText.Shown|
    requires forall i :: 0 <= i <= |InstallerText.Before| ==> InstallerText.Plain(gaps[i])
    requires forall i :: |InstallerText.Before| < i < |InstallerText.Shown| ==> '\'' !in gaps[i] && '\\' !in gaps[i]
    requires '\'' !in tail && '\\' !in tail
    ensures InstallerAsWritten(Some(Compact("node", "version", v)), composeOnPath, gaps, tail) == SyntaxError
    ensures NodeInstall(Pinned(v)) in Installer(Some(Compact("node", "version", v)), composeOnPath).installed
  {
    ShippedInstallerFails(Some(Compact("node", "version", v)), composeOnPath, gaps, tail);
    var doc := Compact("node", "version", v);
    assert doc[|doc| - 1] == '}';
    assert Chomp(doc) == doc;
    CompactSelects("node", "version", v);
    assert "node" in Selectors(Node);
    SelectionMembers(doc, Node);
    var k :| 0 <= k < |Selection(doc)| && Selection(doc)[k] == Node;
    CompactVersionPinned(Node, v, composeOnPath);
    assert Plan(doc, composeOnPath)[k] == NodeInstall(Pinned(v));
  }

  /** Node 18 requested in the pretty-printed document: Node's block, when it runs, installs the LTS release instead. */
  lemma PrettyNodeVersionIgnored(composeOnPath: bool)
    ensures Action(Pretty("node", "version", "18"), Node, composeOnPath) == NodeInstall(Newest)
  {
    PrettyVersionIgnored(Node, "18", composeOnPath);
  }

  /** Node 18 requested on one line is installed as requested. */
  lemma CompactNodeVersionRead(composeOnPath: bool)
    ensures Action(Compact("node", "version", "18"), Node, composeOnPath) == NodeInstall(Pinned("18"))
  {
    CompactVersionPinned(Node, "18", composeOnPath);
  }
}

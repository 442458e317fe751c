/**
 * Strings as the shell sees them: lines, `echo`, command substitution and
 * `grep -q` on a fixed pattern.
 */
module Text {

  /** `pat` occurs in `text` starting at index `i`. */
  ghost predicate OccursAt(text: string, pat: string, i: int) {
    0 <= i && i + |pat| <= |text| && text[i..i + |pat|] == pat
  }

  /** Substring test, as `grep -q` with a pattern free of regular-expression operators. */
  function Contains(text: string, pat: string): (b: bool)
    ensures b <==> exists i :: OccursAt(text, pat, i)
    decreases |text|
  {
    if |pat| > |text| then
      assert forall i :: !OccursAt(text, pat, i);
      false
    else if text[..|pat|] == pat then
      assert OccursAt(text, pat, 0);
      true
    else
      var rest := Contains(text[1..], pat);
      assert forall i :: OccursAt(text, pat, i) ==> OccursAt(text[1..], pat, i - 1) by {
        forall i | OccursAt(text, pat, i) ensures OccursAt(text[1..], pat, i - 1) {
          assert i != 0;
          assert text[1..][i - 1..i - 1 + |pat|] == text[i..i + |pat|];
        }
      }
      assert forall i :: OccursAt(text[1..], pat, i) ==> OccursAt(text, pat, i + 1) by {
        forall i | OccursAt(text[1..], pat, i) ensures OccursAt(text, pat, i + 1) {
          assert text[1..][i..i + |pat|] == text[i + 1..i + 1 + |pat|];
        }
      }
      rest
  }

  /** What a sequence of `echo` lines writes: each line followed by a newline. */
  function Echoed(lines: seq<string>): (s: string)
    ensures |s| >= |lines|
  {
    if lines == [] then "" else lines[0] + "\n" + Echoed(lines[1..])
  }

  /** Command substitution `$(...)` drops every trailing newline of the output. */
  function Chomp(s: string): (r: string)
    ensures |r| <= |s| && r == s[..|r|]
    ensures r == [] || r[|r| - 1] != '\n'
    ensures forall k :: |r| <= k < |s| ==> s[k] == '\n'
  {
    if s == [] || s[|s| - 1] != '\n' then s else Chomp(s[..|s| - 1])
  }

  /** The value `$(cmd)` takes when `cmd` prints `lines`. */
  function CommandOutput(lines: seq<string>): string {
    Chomp(Echoed(lines))
  }

  /** `$(echo v)` is `v` itself when `v` is one non-empty line. */
  lemma SingleLineOutput(v: string)
    requires v != [] && '\n' !in v
    ensures CommandOutput([v]) == v
  {
    assert Echoed([v]) == v + "\n";
    assert (v + "\n")[..|v|] == v;
    assert v[|v| - 1] in v;
  }

  /** A line holding a character other than a newline survives `Chomp`. */
  predicate HasText(line: string) {
    exists k :: 0 <= k < |line| && line[k] != '\n'
  }

  lemma {:induction false} ChompKeepsText(s: string, k: nat)
    requires k < |s| && s[k] != '\n'
    ensures k < |Chomp(s)| && Chomp(s)[k] == s[k]
  {
  }

  lemma {:induction false} EchoedPrefix(lines: seq<string>, k: nat)
    requires k <= |lines|
    ensures Echoed(lines) == Echoed(lines[..k]) + Echoed(lines[k..])
    decreases k
  {
    if k > 0 {
      EchoedPrefix(lines[1..], k - 1);
      assert lines[1..][..k - 1] == lines[..k][1..];
      assert lines[1..][k - 1..] == lines[k..];
    } else {
      assert lines[..0] == [];
    }
  }

  /** Whatever `cmd` prints, `$(cmd)` is empty exactly when no line has text. */
  lemma {:induction false} CommandOutputEmpty(lines: seq<string>)
    ensures CommandOutput(lines) == "" <==> forall i :: 0 <= i < |lines| ==> !HasText(lines[i])
  {
    var s := Echoed(lines);
    if i :| 0 <= i < |lines| && HasText(lines[i]) {
      var k :| 0 <= k < |lines[i]| && lines[i][k] != '\n';
      EchoedPrefix(lines, i);
      var pre := Echoed(lines[..i]);
      assert lines[i..][0] == lines[i];
      assert s == pre + (lines[i] + "\n" + Echoed(lines[i..][1..]));
      assert s[|pre| + k] == lines[i][k];
      ChompKeepsText(s, |pre| + k);
    } else {
      OnlyNewlinesEcho(lines);
      OnlyNewlinesChomp(s);
    }
  }

  lemma {:induction false} OnlyNewlinesEcho(lines: seq<string>)
    requires forall i :: 0 <= i < |lines| ==> !HasText(lines[i])
    ensures forall k :: 0 <= k < |Echoed(lines)| ==> Echoed(lines)[k] == '\n'
  {
    if lines != [] {
      assert !HasText(lines[0]);
      OnlyNewlinesEcho(lines[1..]);
      var s := Echoed(lines);
      assert s == lines[0] + "\n" + Echoed(lines[1..]);
      forall k | 0 <= k < |s| ensures s[k] == '\n' {
        if k < |lines[0]| {
          assert s[k] == lines[0][k];
        } else if k > |lines[0]| {
          assert s[k] == Echoed(lines[1..])[k - |lines[0]| - 1];
        }
      }
    }
  }

  lemma {:induction false} OnlyNewlinesChomp(s: string)
    requires forall k :: 0 <= k < |s| ==> s[k] == '\n'
    ensures Chomp(s) == ""
  {
    if s != [] {
      OnlyNewlinesChomp(s[..|s| - 1]);
    }
  }

  /** `text` cut at each `sep`; the pieces never contain one. */
  function Split(text: string, sep: char): (parts: seq<string>)
    ensures |parts| >= 1
    ensures forall i :: 0 <= i < |parts| ==> sep !in parts[i]
    decreases |text|
  {
    if sep !in text then [text]
    else
      var k := IndexOf(text, sep);
      [text[..k]] + Split(text[k + 1..], sep)
  }

  /** The lines a program reading `text` sees. */
  function SplitLines(text: string): (lines: seq<string>)
    ensures |lines| >= 1
    ensures forall i :: 0 <= i < |lines| ==> '\n' !in lines[i]
  {
    Split(text, '\n')
  }

  /** The position of the first `c` in `s`. */
  function IndexOf(s: string, c: char): (k: nat)
    requires c in s
    ensures k < |s| && s[k] == c && c !in s[..k]
  {
    if s[0] == c then 0 else 1 + IndexOf(s[1..], c)
  }

  /** The first `c` is the one with no `c` before it. */
  lemma IndexOfUnique(s: string, c: char, k: nat)
    requires k < |s| && s[k] == c && c !in s[..k]
    ensures IndexOf(s, c) == k
  {
    var j := IndexOf(s, c);
    assert forall i :: 0 <= i < k ==> s[i] == s[..k][i];
    assert forall i :: 0 <= i < j ==> s[i] == s[..j][i];
  }

  /** The position of the last `c` in `s`. */
  function LastIndexOf(s: string, c: char): (k: nat)
    requires c in s
    ensures k < |s| && s[k] == c && c !in s[k + 1..]
  {
    if s[|s| - 1] == c then |s| - 1
    else
      var k := LastIndexOf(s[..|s| - 1], c);
      assert s[k + 1..] == s[..|s| - 1][k + 1..] + [s[|s| - 1]];
      k
  }

  /** The last `c` is the one with no `c` after it. */
  lemma LastIndexOfUnique(s: string, c: char, k: nat)
    requires k < |s| && s[k] == c && c !in s[k + 1..]
    ensures LastIndexOf(s, c) == k
  {
    var j := LastIndexOf(s, c);
    assert forall i :: k < i < |s| ==> s[i] == s[k + 1..][i - k - 1];
    assert forall i :: j < i < |s| ==> s[i] == s[j + 1..][i - j - 1];
  }

  /** `parts` written out with `sep` between consecutive ones. */
  function Join(parts: seq<string>, sep: char): string {
    if parts == [] then ""
    else if |parts| == 1 then parts[0]
    else parts[0] + [sep] + Join(parts[1..], sep)
  }

  /** Cutting at `sep` and joining with `sep` gives the text back. */
  lemma {:induction false} JoinSplit(text: string, sep: char)
    ensures Join(Split(text, sep), sep) == text
    decreases |text|
  {
    if sep in text {
      var k := IndexOf(text, sep);
      JoinSplit(text[k + 1..], sep);
      assert Split(text, sep)[1..] == Split(text[k + 1..], sep);
      assert text == text[..k] + [sep] + text[k + 1..];
    }
  }

  /** Joining pieces free of `sep` and cutting at `sep` gives the pieces back. */
  lemma {:induction false} SplitJoin(parts: seq<string>, sep: char)
    requires |parts| >= 1
    requires forall i :: 0 <= i < |parts| ==> sep !in parts[i]
    ensures Split(Join(parts, sep), sep) == parts
  {
    if |parts| > 1 {
      var text := Join(parts, sep);
      assert text == parts[0] + [sep] + Join(parts[1..], sep);
      assert text[|parts[0]|] == sep;
      assert text[..|parts[0]|] == parts[0];
      IndexOfUnique(text, sep, |parts[0]|);
      assert text[|parts[0]| + 1..] == Join(parts[1..], sep);
      SplitJoin(parts[1..], sep);
    }
  }
}

/**
 * The feature installer as text: the Python string literal that
 * `_create_feature_installation_script` returns, the way Python decodes it,
 * and the way bash then reads its quotes.
 *
 * Python decodes the literal before bash sees it. In a non-raw literal `\"`
 * becomes `"`, while a backslash before a character with no escape meaning,
 * such as the `\.` of the nvm lines, stays. The lines of the literal that
 * hold a quote or a backslash are written out below, piece by piece. Every
 * other line is left open: a parameter of the lemmas, constrained only to
 * hold none of those characters.
 */
module InstallerText {
  /** The characters that either Python's decoding or bash's quoting treats specially here. */
  predicate Special(c: char) {
    c == '\'' || c == '"' || c == '\\'
  }

  predicate Plain(t: string) {
    forall i :: 0 <= i < |t| ==> !Special(t[i])
  }

  // ---- Python's decoding ----

  /**
   * Python's decoding of a non-raw string literal, for the escapes the
   * installer uses: `\"`, `\'` and `\\` lose their backslash, and any other
   * backslash is kept together with the character after it.
   */
  function PyDecode(s: string): string {
    if |s| >= 2 && s[0] == '\\' && Special(s[1]) then [s[1]] + PyDecode(s[2..])
    else if s == [] then []
    else [s[0]] + PyDecode(s[1..])
  }

  // ---- Reading quotes ----

  /** Where bash's reader stands: outside quotes, inside '…', inside "…", or just after a backslash. */
  datatype Reader = Unquoted | InSingle | InDouble | Escaped | EscapedInDouble

  /** A reader that is not waiting for the character a backslash escapes. */
  predicate Settled(r: Reader) {
    r == Unquoted || r == InSingle || r == InDouble
  }

  /**
   * One character read. Nothing is special inside single quotes but the
   * closing quote. Inside double quotes a backslash escapes the next
   * character; when that character has no escape meaning the backslash stays
   * as text, but either way the character cannot close the quotes.
   */
  function Read(r: Reader, c: char): Reader {
    match r
    case Unquoted => if c == '\'' then InSingle else if c == '"' then InDouble else if c == '\\' then Escaped else Unquoted
    case InSingle => if c == '\'' then Unquoted else InSingle
    case InDouble => if c == '"' then Unquoted else if c == '\\' then EscapedInDouble else InDouble
    case Escaped => Unquoted
    case EscapedInDouble => InDouble
  }

  /** Where the reader stands after a whole text. */
  function ReadAll(s: string, r: Reader): Reader {
    if s == [] then r else ReadAll(s[1..], Read(r, s[0]))
  }

  // ---- Lines written piece by piece ----

  /** A stretch of a line of the literal, as it stands in the Python source. */
  datatype Piece =
    | Text(t: string)     // characters that are neither quotes nor backslashes
    | DoubleQuote
    | SingleQuote
    | Escape(c: char)     // a backslash and the character after it

  function RenderPiece(p: Piece): string {
    match p
    case Text(t) => t
    case DoubleQuote => "\""
    case SingleQuote => "'"
    case Escape(c) => ['\\', c]
  }

  /** The characters of a line from its `i`-th piece on. */
  function RenderFrom(ps: seq<Piece>, i: nat): string
    requires i <= |ps|
    decreases |ps| - i
  {
    if i == |ps| then "" else RenderPiece(ps[i]) + RenderFrom(ps, i + 1)
  }

  /** The characters of a line. */
  function Render(ps: seq<Piece>): string {
    RenderFrom(ps, 0)
  }

  /** Python's decoding of one piece: an escaped double quote becomes a double quote. */
  function DecodePiece(p: Piece): Piece {
    if p == Escape('"') then DoubleQuote else p
  }

  /** Python's decoding at the level of pieces. */
  function Decode(ps: seq<Piece>): (d: seq<Piece>)
    ensures |d| == |ps| && forall i :: 0 <= i < |ps| ==> d[i] == DecodePiece(ps[i])
  {
    seq(|ps|, i requires 0 <= i < |ps| => DecodePiece(ps[i]))
  }

  /**
   * A text piece holds no special character, and an escape is one of the two
   * the installer uses: `\"` and `\.`, which Python keeps with its backslash.
   */
  predicate PieceOk(p: Piece) {
    match p
    case Text(t) => Plain(t)
    case Escape(c) => c == '"' || c == '.'
    case _ => true
  }

  /** Every piece from the `i`-th on is as `PieceOk` says. */
  predicate OkFrom(ps: seq<Piece>, i: nat)
    requires i <= |ps|
    decreases |ps| - i
  {
    i == |ps| || (PieceOk(ps[i]) && OkFrom(ps, i + 1))
  }

  predicate WellFormed(ps: seq<Piece>) {
    OkFrom(ps, 0)
  }

  /**
   * One piece read from a settled reader. With `decoded`, the line is read
   * after Python's decoding, so an escaped double quote reads as a quote.
   */
  function Step(r: Reader, p: Piece, decoded: bool): Reader {
    match p
    case Text(_) => r
    case SingleQuote => if r.Unquoted? then InSingle else if r.InSingle? then Unquoted else r
    case DoubleQuote => if r.Unquoted? then InDouble else if r.InDouble? then Unquoted else r
    case Escape(c) =>
      if decoded && c == '"' then (if r.Unquoted? then InDouble else if r.InDouble? then Unquoted else r) else r
  }

  /** Where the reader stands after the pieces of a line from the `i`-th on. */
  function WalkFrom(ps: seq<Piece>, i: nat, r: Reader, decoded: bool): Reader
    requires i <= |ps|
    decreases |ps| - i
  {
    if i == |ps| then r else WalkFrom(ps, i + 1, Step(r, ps[i], decoded), decoded)
  }

  function Walk(ps: seq<Piece>, r: Reader, decoded: bool): Reader {
    WalkFrom(ps, 0, r, decoded)
  }

  /** A shown line: it can be read piece by piece, and it closes the quotes it opens either way it is read. */
  predicate Closes(ps: seq<Piece>) {
    WellFormed(ps) && Walk(ps, Unquoted, false) == Unquoted && Walk(ps, Unquoted, true) == Unquoted
  }

  /** A line after the open quote: read decoded from inside single quotes, it ends inside them. */
  predicate StaysQuoted(ps: seq<Piece>) {
    Closes(ps) && Walk(ps, InSingle, true) == InSingle
  }

  // ---- The literal ----

  /**
   * The literal: before each shown line, the stretch of other lines that
   * precede it (`gaps[i]`, empty when the shown lines are adjacent); then
   * the shown line and its newline.
   */
  function Source(lines: seq<seq<Piece>>, gaps: seq<string>): string
    requires |gaps| == |lines|
  {
    if lines == [] then "" else gaps[0] + (Render(lines[0]) + ("\n" + Source(lines[1..], gaps[1..])))
  }

  function DecodeAll(lines: seq<seq<Piece>>): (d: seq<seq<Piece>>)
    ensures |d| == |lines| && forall i :: 0 <= i < |lines| ==> d[i] == Decode(lines[i])
  {
    seq(|lines|, i requires 0 <= i < |lines| => Decode(lines[i]))
  }

  /** Lines 778–786: the features file path, its test, and the messages before the file is read. */
  const FeaturesFileLine: seq<Piece> :=
    [Text("FEATURES_FILE="), DoubleQuote, Text("/workspaces/"), Text(".devcontainer-features"), DoubleQuote]
  const FileTestLine: seq<Piece> :=
    [Text("if [ ! -f "), DoubleQuote, Text("$FEATURES_FILE"), DoubleQuote, Text(" ]; then")]
  const NoFileMessageLine: seq<Piece> :=
    [Text("    echo "), DoubleQuote, Text("No features file "), Text("found, skipping "), Text("feature installation"),
     DoubleQuote]
  const InstallingMessageLine: seq<Piece> :=
    [Text("echo "), DoubleQuote, Text("Installing dev "), Text("container features "), Text("from features file"),
     DoubleQuote]
  const ContentMessageLine: seq<Piece> :=
    [Text("echo "), DoubleQuote, Text("Features content:"), DoubleQuote]
  const ShowFileLine: seq<Piece> :=
    [Text("cat "), DoubleQuote, Text("$FEATURES_FILE"), DoubleQuote]

  /** Line 789: the features file read into `FEATURES_JSON`. */
  const ReadFileLine: seq<Piece> :=
    [Text("FEATURES_JSON=$(cat "), DoubleQuote, Text("$FEATURES_FILE"), DoubleQuote, Text(")")]

  /** Line 793: the body of `feature_exists`, whose escaped quotes are balanced once decoded. */
  const FeatureExistsLine: seq<Piece> :=
    [Text("    echo "), DoubleQuote, Text("$FEATURES_JSON"), DoubleQuote, Text(" | grep -q "), DoubleQuote,
     Escape('"'), Text("$1"), Escape('"'), DoubleQuote]

  /** Line 803: a comment whose double quotes come in pairs. */
  const FormatCommentHead: seq<Piece> :=
    [Text("    # Format is "), Text("typically "), DoubleQuote, Text("feature"), DoubleQuote, Text(": { "), DoubleQuote,
     Text("version"), DoubleQuote, Text(": ")]
  const FormatCommentTail: seq<Piece> :=
    [DoubleQuote, Text("value"), DoubleQuote, Text(", "), DoubleQuote, Text("optionName"), DoubleQuote, Text(": "),
     DoubleQuote, Text("value"), DoubleQuote, Text(" }")]

  /** Line 804, the pipeline of `get_feature_option`, one stage at a time. */
  const EchoStage: seq<Piece> :=
    [Text("    result=$(echo "), DoubleQuote, Text("$FEATURES_JSON"), DoubleQuote]
  const FeatureStage: seq<Piece> :=
    [Text(" | grep -o "), DoubleQuote, Escape('"'), Text("$feature"), Escape('"'), Text("[^}]*"), DoubleQuote]
  const OptionStage: seq<Piece> :=
    [Text(" | grep -o "), DoubleQuote, Escape('"'), Text("$option"), Escape('"'), Text("[^,}]*"), DoubleQuote]
  const ValueStage: seq<Piece> :=
    [Text(" | grep -o "), DoubleQuote, Escape('"'), Text("[^"), Escape('"'), Text("]*"), Escape('"'), Text("$"),
     DoubleQuote]
  const StripStage: seq<Piece> :=
    [Text(" | tr -d "), SingleQuote, DoubleQuote, SingleQuote, Text(" || echo "), DoubleQuote, DoubleQuote, Text(")")]

  /** Lines 845 to 1075: the lines holding a single quote or a kept backslash. */
  const LoadNvmLine: seq<Piece> :=
    [Text("    [ -s "), DoubleQuote, Text("$NVM_DIR/nvm.sh"), DoubleQuote, Text(" ] && "), Escape('.'), Text(" "),
     DoubleQuote, Text("$NVM_DIR/nvm.sh"), DoubleQuote]
  const NvmDirProfileLine: seq<Piece> :=
    [Text("    echo "), SingleQuote, Text("export NVM_DIR="), DoubleQuote, Text("$HOME/.nvm"), DoubleQuote, SingleQuote,
     Text(" >> /etc/profile.d/"), Text("nvm.sh")]
  const LoadNvmProfileHead: seq<Piece> :=
    [Text("    echo "), SingleQuote, Text("[ -s "), DoubleQuote, Text("$NVM_DIR/nvm.sh"), DoubleQuote, Text(" ] && ")]
  const LoadNvmProfileTail: seq<Piece> :=
    [Escape('.'), Text(" "), DoubleQuote, Text("$NVM_DIR/nvm.sh"), DoubleQuote, SingleQuote,
     Text(" >> /etc/profile.d/"), Text("nvm.sh")]
  const GoPathLine: seq<Piece> :=
    [Text("    echo "), SingleQuote, Text("export PATH=$PATH:"), Text("/usr/local/go/bin"), SingleQuote,
     Text(" > /etc/profile.d/"), Text("go.sh")]
  const GoHomePathLine: seq<Piece> :=
    [Text("    echo "), SingleQuote, Text("export PATH=$PATH:"), Text("$HOME/go/bin"), SingleQuote,
     Text(" >> /etc/profile.d/"), Text("go.sh")]
  const RustupLine: seq<Piece> :=
    [Text("    curl --proto "), SingleQuote, Text("=https"), SingleQuote, Text(" --tlsv1.2 -sSf "),
     Text("https://sh.rustup.rs"), Text(" | sh -s -- -y")]
  const CargoPathLine: seq<Piece> :=
    [Text("    echo "), SingleQuote, Text("export PATH=$PATH:"), Text("$HOME/.cargo/bin"), SingleQuote,
     Text(" > /etc/profile.d/"), Text("rust.sh")]
  const DotNetPathLine: seq<Piece> :=
    [Text("    echo "), SingleQuote, Text("export PATH=$PATH:"), Text("$HOME/.dotnet"), SingleQuote,
     Text(" > /etc/profile.d/"), Text("dotnet.sh")]
  const KubectlHead: seq<Piece> :=
    [Text("    echo "), DoubleQuote, Text("\U{2713} kubectl "), Text("$(kubectl version "), Text("--client -o json ")]
  const KubectlTail: seq<Piece> :=
    [Text("| jq -r "), SingleQuote, Text(".clientVersion"), Text(".gitVersion"), SingleQuote, Text(") installed"),
     DoubleQuote]

  const FormatCommentLine: seq<Piece> := FormatCommentHead + FormatCommentTail
  const OptionLine: seq<Piece> := EchoStage + FeatureStage + OptionStage + ValueStage + StripStage
  const LoadNvmProfileLine: seq<Piece> := LoadNvmProfileHead + LoadNvmProfileTail
  const KubectlVersionLine: seq<Piece> := KubectlHead + KubectlTail

  /** The shown lines before line 804. */
  const Before: seq<seq<Piece>> :=
    [FeaturesFileLine, FileTestLine, NoFileMessageLine, InstallingMessageLine, ContentMessageLine, ShowFileLine,
     ReadFileLine, FeatureExistsLine, FormatCommentLine]

  /** The shown lines after line 804. */
  const After: seq<seq<Piece>> :=
    [LoadNvmLine, NvmDirProfileLine, LoadNvmProfileLine, GoPathLine, GoHomePathLine, RustupLine, CargoPathLine,
     DotNetPathLine, KubectlVersionLine]

  /** Every line of the literal that holds a quote or a backslash, in order. */
  const Shown: seq<seq<Piece>> := Before + [OptionLine] + After

  /**
   * The installer literal: the shown lines, the other lines between them,
   * and the lines after the last shown one (`tail`).
   */
  function Literal(gaps: seq<string>, tail: string): string
    requires |gaps| == |Shown|
  {
    Source(Shown, gaps) + tail
  }

  // ---- Reading and decoding, in general ----

  lemma {:induction false} ReadAllAppend(a: string, b: string, r: Reader)
    ensures ReadAll(a + b, r) == ReadAll(b, ReadAll(a, r))
  {
    if a != [] {
      assert (a + b)[0] == a[0] && (a + b)[1..] == a[1..] + b;
      ReadAllAppend(a[1..], b, Read(r, a[0]));
    } else {
      assert a + b == b;
    }
  }

  /** A text without special characters leaves a settled reader where it is. */
  lemma {:induction false} ReadPlain(t: string, r: Reader)
    requires Plain(t) && Settled(r)
    ensures ReadAll(t, r) == r
  {
    if t != [] {
      assert !Special(t[0]);
      assert forall i :: 0 <= i < |t[1..]| ==> t[1..][i] == t[i + 1];
      ReadPlain(t[1..], r);
    }
  }

  /** Inside single quotes only a single quote matters. */
  lemma {:induction false} ReadQuoted(t: string)
    requires '\'' !in t
    ensures ReadAll(t, InSingle) == InSingle
  {
    if t != [] {
      assert t[0] != '\'';
      ReadQuoted(t[1..]);
    }
  }

  /** Reading one piece character by character. */
  lemma ReadPiece(p: Piece, r: Reader)
    requires PieceOk(p) && Settled(r)
    ensures ReadAll(RenderPiece(p), r) == Step(r, p, false)
  {
    if p.Text? {
      ReadPlain(p.t, r);
    } else if p.Escape? {
      var s := RenderPiece(p);
      assert s[0] == '\\' && s[1..] == [p.c] && s[1..][1..] == [];
      var r1 := Read(r, '\\');
      assert ReadAll(s, r) == ReadAll([p.c], r1);
      assert ReadAll([p.c], r1) == ReadAll([], Read(r1, p.c));
    }
  }

  /** Reading a well-formed line character by character agrees with reading it piece by piece. */
  lemma {:induction false} ReadRenderFrom(ps: seq<Piece>, i: nat, r: Reader)
    requires i <= |ps| && OkFrom(ps, i) && Settled(r)
    ensures ReadAll(RenderFrom(ps, i), r) == WalkFrom(ps, i, r, false)
    decreases |ps| - i
  {
    if i < |ps| {
      ReadAllAppend(RenderPiece(ps[i]), RenderFrom(ps, i + 1), r);
      ReadPiece(ps[i], r);
      ReadRenderFrom(ps, i + 1, Step(r, ps[i], false));
    }
  }

  /** Python copies a text without backslashes as it stands. */
  lemma {:induction false} DecodeKeeps(t: string, rest: string)
    requires '\\' !in t
    ensures PyDecode(t + rest) == t + PyDecode(rest)
  {
    if t != [] {
      assert (t + rest)[0] == t[0] && (t + rest)[1..] == t[1..] + rest;
      DecodeKeeps(t[1..], rest);
    } else {
      assert t + rest == rest;
    }
  }

  /** Decoding one piece with what follows it: only an escaped double quote changes. */
  lemma DecodeOnePiece(p: Piece, after: string)
    requires PieceOk(p)
    ensures PyDecode(RenderPiece(p) + after) == RenderPiece(DecodePiece(p)) + PyDecode(after)
  {
    match p
    case Text(t) =>
      DecodeKeeps(t, after);
    case DoubleQuote =>
      DecodeKeeps("\"", after);
    case SingleQuote =>
      DecodeKeeps("'", after);
    case Escape(c) =>
      var s := RenderPiece(p) + after;
      assert s[0] == '\\' && s[1] == c && s[2..] == after;
      if c != '"' {
        assert PyDecode(s) == ['\\'] + PyDecode(s[1..]);
        assert s[1..] == [c] + after;
        DecodeKeeps([c], after);
      }
  }

  /** Decoding a well-formed line character by character agrees with decoding it piece by piece. */
  lemma {:induction false} DecodeRenderFrom(ps: seq<Piece>, i: nat, rest: string)
    requires i <= |ps| && OkFrom(ps, i)
    ensures PyDecode(RenderFrom(ps, i) + rest) == RenderFrom(Decode(ps), i) + PyDecode(rest)
    decreases |ps| - i
  {
    if i == |ps| {
      assert RenderFrom(ps, i) + rest == rest;
    } else {
      var p, d := ps[i], Decode(ps);
      var head, tail, dtail := RenderPiece(DecodePiece(p)), RenderFrom(ps, i + 1), RenderFrom(d, i + 1);
      assert d[i] == DecodePiece(p);
      calc {
        PyDecode(RenderFrom(ps, i) + rest);
        { assert RenderFrom(ps, i) + rest == RenderPiece(p) + (tail + rest); }
        PyDecode(RenderPiece(p) + (tail + rest));
        { DecodeOnePiece(p, tail + rest); }
        head + PyDecode(tail + rest);
        { DecodeRenderFrom(ps, i + 1, rest); }
        head + (dtail + PyDecode(rest));
        { assert head + (dtail + PyDecode(rest)) == (head + dtail) + PyDecode(rest); }
        (head + dtail) + PyDecode(rest);
        RenderFrom(d, i) + PyDecode(rest);
      }
    }
  }

  lemma {:induction false} OkDecode(ps: seq<Piece>, i: nat)
    requires i <= |ps| && OkFrom(ps, i)
    ensures OkFrom(Decode(ps), i)
    decreases |ps| - i
  {
    if i < |ps| {
      OkDecode(ps, i + 1);
    }
  }

  /** Reading a line as decoded is reading its decoded pieces. */
  lemma {:induction false} WalkDecodeFrom(ps: seq<Piece>, i: nat, r: Reader)
    requires i <= |ps|
    ensures WalkFrom(Decode(ps), i, r, false) == WalkFrom(ps, i, r, true)
    decreases |ps| - i
  {
    if i < |ps| {
      assert Step(r, DecodePiece(ps[i]), false) == Step(r, ps[i], true);
      WalkDecodeFrom(ps, i + 1, Step(r, ps[i], true));
    }
  }

  /** What a decoded line is, as `KeepReading` needs it. */
  lemma DecodeLineFacts(ps: seq<Piece>, r: Reader)
    requires WellFormed(ps)
    ensures WellFormed(Decode(ps)) && Walk(Decode(ps), r, false) == Walk(ps, r, true)
  {
    OkDecode(ps, 0);
    WalkDecodeFrom(ps, 0, r);
  }

  lemma {:induction false} WalkShift(a: seq<Piece>, b: seq<Piece>, j: nat, r: Reader, decoded: bool)
    requires j <= |b|
    ensures WalkFrom(a + b, |a| + j, r, decoded) == WalkFrom(b, j, r, decoded)
    decreases |b| - j
  {
    if j < |b| {
      assert (a + b)[|a| + j] == b[j];
      WalkShift(a, b, j + 1, Step(r, b[j], decoded), decoded);
    }
  }

  lemma {:induction false} WalkAppendFrom(a: seq<Piece>, b: seq<Piece>, i: nat, r: Reader, decoded: bool)
    requires i <= |a|
    ensures WalkFrom(a + b, i, r, decoded) == WalkFrom(b, 0, WalkFrom(a, i, r, decoded), decoded)
    decreases |a| - i
  {
    if i == |a| {
      WalkShift(a, b, 0, r, decoded);
    } else {
      assert (a + b)[i] == a[i];
      WalkAppendFrom(a, b, i + 1, Step(r, a[i], decoded), decoded);
    }
  }

  lemma WalkAppend(a: seq<Piece>, b: seq<Piece>, r: Reader, decoded: bool)
    ensures Walk(a + b, r, decoded) == Walk(b, Walk(a, r, decoded), decoded)
  {
    WalkAppendFrom(a, b, 0, r, decoded);
  }

  lemma {:induction false} OkShift(a: seq<Piece>, b: seq<Piece>, j: nat)
    requires j <= |b| && OkFrom(b, j)
    ensures OkFrom(a + b, |a| + j)
    decreases |b| - j
  {
    if j < |b| {
      assert (a + b)[|a| + j] == b[j];
      OkShift(a, b, j + 1);
    }
  }

  lemma {:induction false} OkAppendFrom(a: seq<Piece>, b: seq<Piece>, i: nat)
    requires i <= |a| && OkFrom(a, i) && WellFormed(b)
    ensures OkFrom(a + b, i)
    decreases |a| - i
  {
    if i == |a| {
      OkShift(a, b, 0);
    } else {
      assert (a + b)[i] == a[i];
      OkAppendFrom(a, b, i + 1);
    }
  }

  lemma WellFormedAppend(a: seq<Piece>, b: seq<Piece>)
    requires WellFormed(a) && WellFormed(b)
    ensures WellFormed(a + b)
  {
    OkAppendFrom(a, b, 0);
  }

  lemma {:induction false} SourceAppend(a: seq<seq<Piece>>, b: seq<seq<Piece>>, ga: seq<string>, gb: seq<string>)
    requires |ga| == |a| && |gb| == |b|
    ensures Source(a + b, ga + gb) == Source(a, ga) + Source(b, gb)
  {
    if a != [] {
      var line, rest := Render(a[0]), Source(a[1..] + b, ga[1..] + gb);
      assert (a + b)[0] == a[0] && (a + b)[1..] == a[1..] + b;
      assert (ga + gb)[0] == ga[0] && (ga + gb)[1..] == ga[1..] + gb;
      calc {
        Source(a + b, ga + gb);
        ga[0] + (line + ("\n" + rest));
        { SourceAppend(a[1..], b, ga[1..], gb); }
        ga[0] + (line + ("\n" + (Source(a[1..], ga[1..]) + Source(b, gb))));
        { assert ga[0] + (line + ("\n" + (Source(a[1..], ga[1..]) + Source(b, gb)))) ==
            (ga[0] + (line + ("\n" + Source(a[1..], ga[1..])))) + Source(b, gb); }
        Source(a, ga) + Source(b, gb);
      }
    } else {
      assert a + b == b;
      assert ga + gb == gb;
    }
  }

  /** Decoding the literal decodes each shown line and copies the other lines. */
  lemma {:induction false} DecodeSource(lines: seq<seq<Piece>>, gaps: seq<string>, rest: string)
    requires |gaps| == |lines|
    requires forall i :: 0 <= i < |lines| ==> WellFormed(lines[i]) && '\\' !in gaps[i]
    ensures PyDecode(Source(lines, gaps) + rest) == Source(DecodeAll(lines), gaps) + PyDecode(rest)
  {
    if lines == [] {
      assert Source(lines, gaps) + rest == rest;
    } else {
      var later := Source(lines[1..], gaps[1..]);
      var decoded := Source(DecodeAll(lines[1..]), gaps[1..]);
      DecodeSource(lines[1..], gaps[1..], rest);
      Regroup(gaps[0], Render(lines[0]), "\n", later, rest);
      DecodeLine(gaps[0], lines[0], later + rest);
      assert DecodeAll(lines)[1..] == DecodeAll(lines[1..]);
      Regroup(gaps[0], Render(Decode(lines[0])), "\n", decoded, PyDecode(rest));
    }
  }

  lemma Regroup(a: string, b: string, c: string, d: string, e: string)
    ensures (a + (b + (c + d))) + e == a + (b + (c + (d + e)))
  {
  }

  /** Decoding one shown line with the other lines before it. */
  lemma DecodeLine(gap: string, line: seq<Piece>, after: string)
    requires WellFormed(line) && '\\' !in gap
    ensures PyDecode(gap + (Render(line) + ("\n" + after))) ==
      gap + (Render(Decode(line)) + ("\n" + PyDecode(after)))
  {
    DecodeKeeps(gap, Render(line) + ("\n" + after));
    DecodeRenderFrom(line, 0, "\n" + after);
    DecodeKeeps("\n", after);
  }

  /** Lines that leave a settled reader where it is, separated by text that does too, leave it there. */
  lemma {:induction false} KeepReading(lines: seq<seq<Piece>>, gaps: seq<string>, r: Reader)
    requires |gaps| == |lines| && Settled(r)
    requires forall i :: 0 <= i < |lines| ==>
      WellFormed(lines[i]) && Walk(lines[i], r, false) == r && ReadAll(gaps[i], r) == r
    ensures ReadAll(Source(lines, gaps), r) == r
  {
    if lines != [] {
      var later := Source(lines[1..], gaps[1..]);
      ReadLine(gaps[0], lines[0], later, r);
      KeepReading(lines[1..], gaps[1..], r);
    }
  }

  /** Reading other lines, one shown line and its newline, and then what follows. */
  lemma ReadLine(gap: string, line: seq<Piece>, later: string, r: Reader)
    requires WellFormed(line) && Settled(r) && Settled(ReadAll(gap, r))
    ensures ReadAll(gap + (Render(line) + ("\n" + later)), r) == ReadAll(later, Walk(line, ReadAll(gap, r), false))
  {
    var r1 := ReadAll(gap, r);
    var w := Walk(line, r1, false);
    var x := Render(line);
    var y := "\n" + later;
    ReadAllAppend(gap, x + y, r);
    ReadAllAppend(x, y, r1);
    ReadRenderFrom(line, 0, r1);
    WalkSettled(line, 0, r1, false);
    assert y[0] == '\n' && y[1..] == later;
  }

  /** Reading pieces keeps a reader settled. */
  lemma {:induction false} WalkSettled(ps: seq<Piece>, i: nat, r: Reader, decoded: bool)
    requires i <= |ps| && Settled(r)
    ensures Settled(WalkFrom(ps, i, r, decoded))
    decreases |ps| - i
  {
    if i < |ps| {
      WalkSettled(ps, i + 1, Step(r, ps[i], decoded), decoded);
    }
  }
  // ---- The shown lines, one by one ----

  lemma JoinWalks(a: seq<Piece>, b: seq<Piece>, r: Reader)
    ensures Walk(a + b, r, false) == Walk(b, Walk(a, r, false), false)
    ensures Walk(a + b, r, true) == Walk(b, Walk(a, r, true), true)
  {
    WalkAppend(a, b, r, false);
    WalkAppend(a, b, r, true);
  }

  /** One step of checking a line, at every position. */
  lemma OkUnfold(ps: seq<Piece>)
    ensures forall i: nat | i < |ps| :: OkFrom(ps, i) == (PieceOk(ps[i]) && OkFrom(ps, i + 1))
  {
    forall i: nat | i < |ps| ensures OkFrom(ps, i) == (PieceOk(ps[i]) && OkFrom(ps, i + 1)) {}
  }

  // Each shown line's text pieces are plain; the lemmas below then only read its quotes.
  lemma FeaturesFileLineWellFormed() ensures WellFormed(FeaturesFileLine) { OkUnfold(FeaturesFileLine); }
  lemma FileTestLineWellFormed() ensures WellFormed(FileTestLine) { OkUnfold(FileTestLine); }
  lemma NoFileMessageLineWellFormed() ensures WellFormed(NoFileMessageLine) { OkUnfold(NoFileMessageLine); }
  lemma InstallingMessageLineWellFormed() ensures WellFormed(InstallingMessageLine) { OkUnfold(InstallingMessageLine); }
  lemma ContentMessageLineWellFormed() ensures WellFormed(ContentMessageLine) { OkUnfold(ContentMessageLine); }
  lemma ShowFileLineWellFormed() ensures WellFormed(ShowFileLine) { OkUnfold(ShowFileLine); }
  lemma ReadFileLineWellFormed() ensures WellFormed(ReadFileLine) { OkUnfold(ReadFileLine); }
  lemma FeatureExistsLineWellFormed() ensures WellFormed(FeatureExistsLine) { OkUnfold(FeatureExistsLine); }
  lemma FormatCommentHeadWellFormed() ensures WellFormed(FormatCommentHead) { OkUnfold(FormatCommentHead); }
  lemma FormatCommentTailWellFormed() ensures WellFormed(FormatCommentTail) { OkUnfold(FormatCommentTail); }
  lemma EchoStageWellFormed() ensures WellFormed(EchoStage) { OkUnfold(EchoStage); }
  lemma FeatureStageWellFormed() ensures WellFormed(FeatureStage) { OkUnfold(FeatureStage); }
  lemma OptionStageWellFormed() ensures WellFormed(OptionStage) { OkUnfold(OptionStage); }
  lemma ValueStageWellFormed() ensures WellFormed(ValueStage) { OkUnfold(ValueStage); }
  lemma StripStageWellFormed() ensures WellFormed(StripStage) { OkUnfold(StripStage); }
  lemma LoadNvmLineWellFormed() ensures WellFormed(LoadNvmLine) { OkUnfold(LoadNvmLine); }
  lemma NvmDirProfileLineWellFormed() ensures WellFormed(NvmDirProfileLine) { OkUnfold(NvmDirProfileLine); }
  lemma LoadNvmProfileHeadWellFormed() ensures WellFormed(LoadNvmProfileHead) { OkUnfold(LoadNvmProfileHead); }
  lemma LoadNvmProfileTailWellFormed() ensures WellFormed(LoadNvmProfileTail) { OkUnfold(LoadNvmProfileTail); }
  lemma GoPathLineWellFormed() ensures WellFormed(GoPathLine) { OkUnfold(GoPathLine); }
  lemma GoHomePathLineWellFormed() ensures WellFormed(GoHomePathLine) { OkUnfold(GoHomePathLine); }
  lemma RustupLineWellFormed() ensures WellFormed(RustupLine) { OkUnfold(RustupLine); }
  lemma CargoPathLineWellFormed() ensures WellFormed(CargoPathLine) { OkUnfold(CargoPathLine); }
  lemma DotNetPathLineWellFormed() ensures WellFormed(DotNetPathLine) { OkUnfold(DotNetPathLine); }
  lemma KubectlHeadWellFormed() ensures WellFormed(KubectlHead) { OkUnfold(KubectlHead); }
  lemma KubectlTailWellFormed() ensures WellFormed(KubectlTail) { OkUnfold(KubectlTail); }

  // Each walk over a shown line, one reader and one reading at a time.
  lemma FeaturesFileLineRaw() ensures Walk(FeaturesFileLine, Unquoted, false) == Unquoted {}
  lemma FeaturesFileLineDecoded() ensures Walk(FeaturesFileLine, Unquoted, true) == Unquoted {}
  lemma FileTestLineRaw() ensures Walk(FileTestLine, Unquoted, false) == Unquoted {}
  lemma FileTestLineDecoded() ensures Walk(FileTestLine, Unquoted, true) == Unquoted {}
  lemma NoFileMessageLineRaw() ensures Walk(NoFileMessageLine, Unquoted, false) == Unquoted {}
  lemma NoFileMessageLineDecoded() ensures Walk(NoFileMessageLine, Unquoted, true) == Unquoted {}
  lemma InstallingMessageLineRaw() ensures Walk(InstallingMessageLine, Unquoted, false) == Unquoted {}
  lemma InstallingMessageLineDecoded() ensures Walk(InstallingMessageLine, Unquoted, true) == Unquoted {}
  lemma ContentMessageLineRaw() ensures Walk(ContentMessageLine, Unquoted, false) == Unquoted {}
  lemma ContentMessageLineDecoded() ensures Walk(ContentMessageLine, Unquoted, true) == Unquoted {}
  lemma ShowFileLineRaw() ensures Walk(ShowFileLine, Unquoted, false) == Unquoted {}
  lemma ShowFileLineDecoded() ensures Walk(ShowFileLine, Unquoted, true) == Unquoted {}
  lemma ReadFileLineRaw() ensures Walk(ReadFileLine, Unquoted, false) == Unquoted {}
  lemma ReadFileLineDecoded() ensures Walk(ReadFileLine, Unquoted, true) == Unquoted {}
  lemma FeatureExistsLineRaw() ensures Walk(FeatureExistsLine, Unquoted, false) == Unquoted {}
  lemma FeatureExistsLineDecoded() ensures Walk(FeatureExistsLine, Unquoted, true) == Unquoted {}
  lemma FormatCommentHeadRaw() ensures Walk(FormatCommentHead, Unquoted, false) == Unquoted {}
  lemma FormatCommentHeadDecoded() ensures Walk(FormatCommentHead, Unquoted, true) == Unquoted {}
  lemma FormatCommentTailRaw() ensures Walk(FormatCommentTail, Unquoted, false) == Unquoted {}
  lemma FormatCommentTailDecoded() ensures Walk(FormatCommentTail, Unquoted, true) == Unquoted {}
  lemma EchoStageRaw() ensures Walk(EchoStage, Unquoted, false) == Unquoted {}
  lemma EchoStageDecoded() ensures Walk(EchoStage, Unquoted, true) == Unquoted {}
  lemma FeatureStageRaw() ensures Walk(FeatureStage, Unquoted, false) == Unquoted {}
  lemma FeatureStageDecoded() ensures Walk(FeatureStage, Unquoted, true) == Unquoted {}
  lemma OptionStageRaw() ensures Walk(OptionStage, Unquoted, false) == Unquoted {}
  lemma OptionStageDecoded() ensures Walk(OptionStage, Unquoted, true) == Unquoted {}
  lemma ValueStageRaw() ensures Walk(ValueStage, Unquoted, false) == Unquoted {}
  lemma ValueStageDecoded() ensures Walk(ValueStage, Unquoted, true) == InDouble {}
  lemma StripStageRaw() ensures Walk(StripStage, Unquoted, false) == Unquoted {}
  lemma StripStageDoubleQuotedDecoded() ensures Walk(StripStage, InDouble, true) == InSingle {}
  lemma LoadNvmLineRaw() ensures Walk(LoadNvmLine, Unquoted, false) == Unquoted {}
  lemma LoadNvmLineDecoded() ensures Walk(LoadNvmLine, Unquoted, true) == Unquoted {}
  lemma LoadNvmLineQuotedDecoded() ensures Walk(LoadNvmLine, InSingle, true) == InSingle {}
  lemma NvmDirProfileLineRaw() ensures Walk(NvmDirProfileLine, Unquoted, false) == Unquoted {}
  lemma NvmDirProfileLineDecoded() ensures Walk(NvmDirProfileLine, Unquoted, true) == Unquoted {}
  lemma NvmDirProfileLineQuotedDecoded() ensures Walk(NvmDirProfileLine, InSingle, true) == InSingle {}
  lemma GoPathLineRaw() ensures Walk(GoPathLine, Unquoted, false) == Unquoted {}
  lemma GoPathLineDecoded() ensures Walk(GoPathLine, Unquoted, true) == Unquoted {}
  lemma GoPathLineQuotedDecoded() ensures Walk(GoPathLine, InSingle, true) == InSingle {}
  lemma GoHomePathLineRaw() ensures Walk(GoHomePathLine, Unquoted, false) == Unquoted {}
  lemma GoHomePathLineDecoded() ensures Walk(GoHomePathLine, Unquoted, true) == Unquoted {}
  lemma GoHomePathLineQuotedDecoded() ensures Walk(GoHomePathLine, InSingle, true) == InSingle {}
  lemma RustupLineRaw() ensures Walk(RustupLine, Unquoted, false) == Unquoted {}
  lemma RustupLineDecoded() ensures Walk(RustupLine, Unquoted, true) == Unquoted {}
  lemma RustupLineQuotedDecoded() ensures Walk(RustupLine, InSingle, true) == InSingle {}
  lemma CargoPathLineRaw() ensures Walk(CargoPathLine, Unquoted, false) == Unquoted {}
  lemma CargoPathLineDecoded() ensures Walk(CargoPathLine, Unquoted, true) == Unquoted {}
  lemma CargoPathLineQuotedDecoded() ensures Walk(CargoPathLine, InSingle, true) == InSingle {}
  lemma DotNetPathLineRaw() ensures Walk(DotNetPathLine, Unquoted, false) == Unquoted {}
  lemma DotNetPathLineDecoded() ensures Walk(DotNetPathLine, Unquoted, true) == Unquoted {}
  lemma DotNetPathLineQuotedDecoded() ensures Walk(DotNetPathLine, InSingle, true) == InSingle {}
  lemma LoadNvmProfileHeadRaw() ensures Walk(LoadNvmProfileHead, Unquoted, false) == InSingle {}
  lemma LoadNvmProfileHeadDecoded() ensures Walk(LoadNvmProfileHead, Unquoted, true) == InSingle {}
  lemma LoadNvmProfileHeadQuotedDecoded() ensures Walk(LoadNvmProfileHead, InSingle, true) == Unquoted {}
  lemma LoadNvmProfileTailQuotedRaw() ensures Walk(LoadNvmProfileTail, InSingle, false) == Unquoted {}
  lemma LoadNvmProfileTailQuotedDecoded() ensures Walk(LoadNvmProfileTail, InSingle, true) == Unquoted {}
  lemma LoadNvmProfileTailDecoded() ensures Walk(LoadNvmProfileTail, Unquoted, true) == InSingle {}
  lemma KubectlHeadRaw() ensures Walk(KubectlHead, Unquoted, false) == InDouble {}
  lemma KubectlHeadDecoded() ensures Walk(KubectlHead, Unquoted, true) == InDouble {}
  lemma KubectlHeadQuotedDecoded() ensures Walk(KubectlHead, InSingle, true) == InSingle {}
  lemma KubectlTailDoubleQuotedRaw() ensures Walk(KubectlTail, InDouble, false) == Unquoted {}
  lemma KubectlTailDoubleQuotedDecoded() ensures Walk(KubectlTail, InDouble, true) == Unquoted {}
  lemma KubectlTailQuotedDecoded() ensures Walk(KubectlTail, InSingle, true) == InSingle {}

  lemma FeaturesFileLineCloses()
    ensures Closes(FeaturesFileLine)
  {
    FeaturesFileLineWellFormed();
    FeaturesFileLineRaw();
    FeaturesFileLineDecoded();
  }
  lemma FileTestLineCloses()
    ensures Closes(FileTestLine)
  {
    FileTestLineWellFormed();
    FileTestLineRaw();
    FileTestLineDecoded();
  }
  lemma NoFileMessageLineCloses()
    ensures Closes(NoFileMessageLine)
  {
    NoFileMessageLineWellFormed();
    NoFileMessageLineRaw();
    NoFileMessageLineDecoded();
  }
  lemma InstallingMessageLineCloses()
    ensures Closes(InstallingMessageLine)
  {
    InstallingMessageLineWellFormed();
    InstallingMessageLineRaw();
    InstallingMessageLineDecoded();
  }
  lemma ContentMessageLineCloses()
    ensures Closes(ContentMessageLine)
  {
    ContentMessageLineWellFormed();
    ContentMessageLineRaw();
    ContentMessageLineDecoded();
  }
  lemma ShowFileLineCloses()
    ensures Closes(ShowFileLine)
  {
    ShowFileLineWellFormed();
    ShowFileLineRaw();
    ShowFileLineDecoded();
  }
  lemma ReadFileLineCloses()
    ensures Closes(ReadFileLine)
  {
    ReadFileLineWellFormed();
    ReadFileLineRaw();
    ReadFileLineDecoded();
  }
  lemma FeatureExistsLineCloses()
    ensures Closes(FeatureExistsLine)
  {
    FeatureExistsLineWellFormed();
    FeatureExistsLineRaw();
    FeatureExistsLineDecoded();
  }
  lemma FormatCommentHeadCloses()
    ensures Closes(FormatCommentHead)
  {
    FormatCommentHeadWellFormed();
    FormatCommentHeadRaw();
    FormatCommentHeadDecoded();
  }
  lemma FormatCommentTailCloses()
    ensures Closes(FormatCommentTail)
  {
    FormatCommentTailWellFormed();
    FormatCommentTailRaw();
    FormatCommentTailDecoded();
  }

  lemma FormatCommentLineCloses()
    ensures Closes(FormatCommentLine)
  {
    FormatCommentHeadCloses();
    FormatCommentTailCloses();
    WellFormedAppend(FormatCommentHead, FormatCommentTail);
    JoinWalks(FormatCommentHead, FormatCommentTail, Unquoted);
  }

  lemma EchoStageCloses()
    ensures Closes(EchoStage)
  {
    EchoStageWellFormed();
    EchoStageRaw();
    EchoStageDecoded();
  }
  lemma FeatureStageCloses()
    ensures Closes(FeatureStage)
  {
    FeatureStageWellFormed();
    FeatureStageRaw();
    FeatureStageDecoded();
  }
  lemma OptionStageCloses()
    ensures Closes(OptionStage)
  {
    OptionStageWellFormed();
    OptionStageRaw();
    OptionStageDecoded();
  }

  /** Decoded, the third `grep` pattern of line 804 opens a double quote it does not close. */
  lemma ValueStageReading()
    ensures WellFormed(ValueStage)
    ensures Walk(ValueStage, Unquoted, false) == Unquoted
    ensures Walk(ValueStage, Unquoted, true) == InDouble
  {
    ValueStageWellFormed();
    ValueStageRaw();
    ValueStageDecoded();
  }

  /** Read from inside that double quote, `tr -d '"'` leaves a single quote open. */
  lemma StripStageReading()
    ensures WellFormed(StripStage)
    ensures Walk(StripStage, Unquoted, false) == Unquoted
    ensures Walk(StripStage, InDouble, true) == InSingle
  {
    StripStageWellFormed();
    StripStageRaw();
    StripStageDoubleQuotedDecoded();
  }

  lemma LoadNvmLineStaysQuoted()
    ensures StaysQuoted(LoadNvmLine)
  {
    LoadNvmLineWellFormed();
    LoadNvmLineRaw();
    LoadNvmLineDecoded();
    LoadNvmLineQuotedDecoded();
  }
  lemma NvmDirProfileLineStaysQuoted()
    ensures StaysQuoted(NvmDirProfileLine)
  {
    NvmDirProfileLineWellFormed();
    NvmDirProfileLineRaw();
    NvmDirProfileLineDecoded();
    NvmDirProfileLineQuotedDecoded();
  }
  lemma GoPathLineStaysQuoted()
    ensures StaysQuoted(GoPathLine)
  {
    GoPathLineWellFormed();
    GoPathLineRaw();
    GoPathLineDecoded();
    GoPathLineQuotedDecoded();
  }
  lemma GoHomePathLineStaysQuoted()
    ensures StaysQuoted(GoHomePathLine)
  {
    GoHomePathLineWellFormed();
    GoHomePathLineRaw();
    GoHomePathLineDecoded();
    GoHomePathLineQuotedDecoded();
  }
  lemma RustupLineStaysQuoted()
    ensures StaysQuoted(RustupLine)
  {
    RustupLineWellFormed();
    RustupLineRaw();
    RustupLineDecoded();
    RustupLineQuotedDecoded();
  }
  lemma CargoPathLineStaysQuoted()
    ensures StaysQuoted(CargoPathLine)
  {
    CargoPathLineWellFormed();
    CargoPathLineRaw();
    CargoPathLineDecoded();
    CargoPathLineQuotedDecoded();
  }
  lemma DotNetPathLineStaysQuoted()
    ensures StaysQuoted(DotNetPathLine)
  {
    DotNetPathLineWellFormed();
    DotNetPathLineRaw();
    DotNetPathLineDecoded();
    DotNetPathLineQuotedDecoded();
  }

  lemma LoadNvmProfileHeadReading()
    ensures WellFormed(LoadNvmProfileHead)
    ensures Walk(LoadNvmProfileHead, Unquoted, false) == InSingle
    ensures Walk(LoadNvmProfileHead, Unquoted, true) == InSingle
    ensures Walk(LoadNvmProfileHead, InSingle, true) == Unquoted
  {
    LoadNvmProfileHeadWellFormed();
    LoadNvmProfileHeadRaw();
    LoadNvmProfileHeadDecoded();
    LoadNvmProfileHeadQuotedDecoded();
  }

  lemma LoadNvmProfileTailReading()
    ensures WellFormed(LoadNvmProfileTail)
    ensures Walk(LoadNvmProfileTail, InSingle, false) == Unquoted
    ensures Walk(LoadNvmProfileTail, InSingle, true) == Unquoted
    ensures Walk(LoadNvmProfileTail, Unquoted, true) == InSingle
  {
    LoadNvmProfileTailWellFormed();
    LoadNvmProfileTailQuotedRaw();
    LoadNvmProfileTailQuotedDecoded();
    LoadNvmProfileTailDecoded();
  }

  lemma LoadNvmProfileLineStaysQuoted()
    ensures StaysQuoted(LoadNvmProfileLine)
  {
    LoadNvmProfileHeadReading();
    LoadNvmProfileTailReading();
    WellFormedAppend(LoadNvmProfileHead, LoadNvmProfileTail);
    JoinWalks(LoadNvmProfileHead, LoadNvmProfileTail, Unquoted);
    JoinWalks(LoadNvmProfileHead, LoadNvmProfileTail, InSingle);
  }

  lemma KubectlHeadReading()
    ensures WellFormed(KubectlHead)
    ensures Walk(KubectlHead, Unquoted, false) == InDouble
    ensures Walk(KubectlHead, Unquoted, true) == InDouble
    ensures Walk(KubectlHead, InSingle, true) == InSingle
  {
    KubectlHeadWellFormed();
    KubectlHeadRaw();
    KubectlHeadDecoded();
    KubectlHeadQuotedDecoded();
  }

  lemma KubectlTailReading()
    ensures WellFormed(KubectlTail)
    ensures Walk(KubectlTail, InDouble, false) == Unquoted
    ensures Walk(KubectlTail, InDouble, true) == Unquoted
    ensures Walk(KubectlTail, InSingle, true) == InSingle
  {
    KubectlTailWellFormed();
    KubectlTailDoubleQuotedRaw();
    KubectlTailDoubleQuotedDecoded();
    KubectlTailQuotedDecoded();
  }

  lemma KubectlVersionLineStaysQuoted()
    ensures StaysQuoted(KubectlVersionLine)
  {
    KubectlHeadReading();
    KubectlTailReading();
    WellFormedAppend(KubectlHead, KubectlTail);
    JoinWalks(KubectlHead, KubectlTail, Unquoted);
    JoinWalks(KubectlHead, KubectlTail, InSingle);
  }
  /**
   * Line 804 closes its quotes when its escapes are left as they stand, but
   * once Python has turned `\"` into `"` it ends inside a single quote.
   */
  lemma OptionLineReading()
    ensures WellFormed(OptionLine)
    ensures Walk(OptionLine, Unquoted, false) == Unquoted
    ensures Walk(OptionLine, Unquoted, true) == InSingle
  {
    var a := EchoStage + FeatureStage;
    var b := a + OptionStage;
    var c := b + ValueStage;
    assert OptionLine == c + StripStage;
    EchoStageCloses();
    FeatureStageCloses();
    OptionStageCloses();
    ValueStageReading();
    StripStageReading();
    WellFormedAppend(EchoStage, FeatureStage);
    WellFormedAppend(a, OptionStage);
    WellFormedAppend(b, ValueStage);
    WellFormedAppend(c, StripStage);
    JoinWalks(EchoStage, FeatureStage, Unquoted);
    JoinWalks(a, OptionStage, Unquoted);
    JoinWalks(b, ValueStage, Unquoted);
    JoinWalks(c, StripStage, Unquoted);
  }

  lemma BeforeLinesClose()
    ensures forall l :: l in Before ==> Closes(l)
  {
    FeaturesFileLineCloses();
    FileTestLineCloses();
    NoFileMessageLineCloses();
    InstallingMessageLineCloses();
    ContentMessageLineCloses();
    ShowFileLineCloses();
    ReadFileLineCloses();
    FeatureExistsLineCloses();
    FormatCommentLineCloses();
  }

  lemma AfterLinesStayQuoted()
    ensures forall l :: l in After ==> StaysQuoted(l)
  {
    LoadNvmLineStaysQuoted();
    NvmDirProfileLineStaysQuoted();
    LoadNvmProfileLineStaysQuoted();
    GoPathLineStaysQuoted();
    GoHomePathLineStaysQuoted();
    RustupLineStaysQuoted();
    CargoPathLineStaysQuoted();
    DotNetPathLineStaysQuoted();
    KubectlVersionLineStaysQuoted();
  }

  /**
   * Every shown line closes the quotes it opens when read as it stands in
   * the source, and, read after Python's decoding, all of them but line 804
   * still do.
   */
  lemma OnlyOptionLineBreaks()
    ensures forall i :: 0 <= i < |Shown| ==> WellFormed(Shown[i]) && Walk(Shown[i], Unquoted, false) == Unquoted
    ensures forall i :: 0 <= i < |Shown| ==> (Walk(Shown[i], Unquoted, true) == Unquoted <==> i != |Before|)
  {
    BeforeLinesClose();
    AfterLinesStayQuoted();
    OptionLineReading();
    forall i | 0 <= i < |Shown|
      ensures WellFormed(Shown[i]) && Walk(Shown[i], Unquoted, false) == Unquoted
      ensures Walk(Shown[i], Unquoted, true) == Unquoted <==> i != |Before|
    {
      if i < |Before| {
        assert Shown[i] == Before[i] && Before[i] in Before;
      } else if i > |Before| {
        assert Shown[i] == After[i - |Before| - 1] && After[i - |Before| - 1] in After;
      }
    }
  }

  /** The text between the shown lines, split around the `n`-th shown line. */
  lemma {:induction false} SplitSource(lines: seq<seq<Piece>>, gaps: seq<string>, n: nat)
    requires |gaps| == |lines| && n < |lines|
    ensures Source(lines, gaps) == Source(lines[..n], gaps[..n]) +
      (gaps[n] + (Render(lines[n]) + ("\n" + Source(lines[n + 1..], gaps[n + 1..]))))
  {
    assert lines == lines[..n] + lines[n..] && gaps == gaps[..n] + gaps[n..];
    SourceAppend(lines[..n], lines[n..], gaps[..n], gaps[n..]);
    assert lines[n..][1..] == lines[n + 1..] && gaps[n..][1..] == gaps[n + 1..];
  }

  /** Python's decoding of the installer decodes the shown lines and copies the rest. */
  lemma DecodedLiteral(gaps: seq<string>, tail: string)
    requires |gaps| == |Shown|
    requires forall i :: 0 <= i < |Shown| ==> '\\' !in gaps[i]
    requires '\\' !in tail
    ensures PyDecode(Literal(gaps, tail)) == Source(DecodeAll(Shown), gaps) + tail
  {
    OnlyOptionLineBreaks();
    DecodeSource(Shown, gaps, tail);
    DecodeKeeps(tail, "");
    assert tail + "" == tail;
  }

  /** The decoded lines before line 804, with the plain lines between them, close their quotes. */
  lemma ReadDecodedBefore(gaps: seq<string>)
    requires |gaps| == |Before|
    requires forall i :: 0 <= i < |gaps| ==> Plain(gaps[i])
    ensures ReadAll(Source(DecodeAll(Shown)[..|Before|], gaps), Unquoted) == Unquoted
  {
    var pre := DecodeAll(Shown)[..|Before|];
    BeforeLinesClose();
    forall i | 0 <= i < |pre|
      ensures WellFormed(pre[i]) && Walk(pre[i], Unquoted, false) == Unquoted
      ensures ReadAll(gaps[i], Unquoted) == Unquoted
    {
      assert pre[i] == Decode(Shown[i]) && Shown[i] == Before[i] && Before[i] in Before;
      DecodeLineFacts(Shown[i], Unquoted);
      ReadPlain(gaps[i], Unquoted);
    }
    KeepReading(pre, gaps, Unquoted);
  }

  /** Inside a single quote, the decoded lines after line 804 and those between them keep it open. */
  lemma ReadDecodedAfter(gaps: seq<string>)
    requires |gaps| == |After|
    requires forall i :: 0 <= i < |gaps| ==> '\'' !in gaps[i]
    ensures ReadAll(Source(DecodeAll(Shown)[|Before| + 1..], gaps), InSingle) == InSingle
  {
    var post := DecodeAll(Shown)[|Before| + 1..];
    AfterLinesStayQuoted();
    forall i | 0 <= i < |post|
      ensures WellFormed(post[i]) && Walk(post[i], InSingle, false) == InSingle
      ensures ReadAll(gaps[i], InSingle) == InSingle
    {
      assert post[i] == Decode(Shown[|Before| + 1 + i]) && Shown[|Before| + 1 + i] == After[i] && After[i] in After;
      DecodeLineFacts(After[i], InSingle);
      ReadQuoted(gaps[i]);
    }
    KeepReading(post, gaps, InSingle);
  }

  /**
   * The installer as shipped: whatever the other lines hold, as long as
   * those before line 804 hold no quote or backslash and those after it no
   * single quote or backslash, the decoded text ends inside a single quote,
   * so bash reaches the end of the script looking for its close.
   */
  lemma ShippedLiteralLeavesQuoteOpen(gaps: seq<string>, tail: string)
    requires |gaps| == |Shown|
    requires forall i :: 0 <= i <= |Before| ==> Plain(gaps[i])
    requires forall i :: |Before| < i < |Shown| ==> '\'' !in gaps[i] && '\\' !in gaps[i]
    requires '\'' !in tail && '\\' !in tail
    ensures ReadAll(PyDecode(Literal(gaps, tail)), Unquoted) == InSingle
  {
    var n := |Before|;
    var d := DecodeAll(Shown);
    forall i | 0 <= i <= n
      ensures '\\' !in gaps[i]
    {
      assert Plain(gaps[i]);
    }
    DecodedLiteral(gaps, tail);
    SplitSource(d, gaps, n);
    var pre, post := gaps[..n], gaps[n + 1..];
    var later := Source(d[n + 1..], post);
    ReadDecodedBefore(pre);
    ReadDecodedAfter(post);
    OptionLineReading();
    DecodeLineFacts(OptionLine, Unquoted);
    ReadPlain(gaps[n], Unquoted);
    ReadAllAppend(Source(d[..n], pre), gaps[n] + (Render(d[n]) + ("\n" + later)), Unquoted);
    ReadLine(gaps[n], d[n], later, Unquoted);
    ReadAllAppend(Source(d, gaps), tail, Unquoted);
    ReadQuoted(tail);
  }

  /**
   * The same text kept as it stands, as a raw literal would keep it: when
   * the other lines close their own quotes, so does the whole installer.
   */
  lemma RawLiteralCloses(gaps: seq<string>, tail: string)
    requires |gaps| == |Shown|
    requires forall i :: 0 <= i < |Shown| ==> ReadAll(gaps[i], Unquoted) == Unquoted
    requires ReadAll(tail, Unquoted) == Unquoted
    ensures ReadAll(Literal(gaps, tail), Unquoted) == Unquoted
  {
    OnlyOptionLineBreaks();
    KeepReading(Shown, gaps, Unquoted);
    ReadAllAppend(Source(Shown, gaps), tail, Unquoted);
  }
}

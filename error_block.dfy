/** Reading the diagnostics back out of the compiler's console output. When the analysis
    finds errors, the compiler prints a marker line, one `  - <message>` line per error and
    an abort line that starts with a warning sign. The extractor collects the dash entries
    between the marker and the first line that carries a warning sign or a check mark, then
    adds the lines of the standard error stream. */
module ErrorBlock {
  import opened Strings

  /** The line that opens the error section. */
  const Marker := "\U{274C}" + " ERROS" + " ENCONTRADOS:"
  /** The warning sign and the check mark; either one closes the section. */
  const WarningSign := "\U{26A0}"
  const CheckMark := "\U{2714}"
  /** The line the compiler prints after the errors. */
  const AbortLine :=
    WarningSign + " Execu\U{00E7}\U{00E3}o" + " abortada" + " devido" + " a erros" + " sem\U{00E2}nticos."

  // ---------------------------------------------------------------------------
  // `str.strip()` and `str.split('\n')`
  // ---------------------------------------------------------------------------

  /** The characters `str.strip()` removes: those `str.isspace()` accepts. */
  const Whitespace: set<char> := {
    ' ', '\t', '\n', '\r', '\U{B}', '\U{C}', '\U{1C}', '\U{1D}', '\U{1E}', '\U{1F}', '\U{85}', '\U{A0}',
    '\U{1680}', '\U{2000}', '\U{2001}', '\U{2002}', '\U{2003}', '\U{2004}', '\U{2005}', '\U{2006}',
    '\U{2007}', '\U{2008}', '\U{2009}', '\U{200A}', '\U{2028}', '\U{2029}', '\U{202F}', '\U{205F}',
    '\U{3000}'}

  predicate IsSpace(c: char) {
    c in Whitespace
  }

  predicate AllSpace(s: string) {
    forall i :: 0 <= i < |s| ==> IsSpace(s[i])
  }

  /** `s` without its leading whitespace. */
  function TrimStart(s: string): string {
    if s == [] || !IsSpace(s[0]) then s else TrimStart(s[1..])
  }

  /** `s` without its trailing whitespace. */
  function TrimEnd(s: string): string {
    if s == [] || !IsSpace(s[|s| - 1]) then s else TrimEnd(s[..|s| - 1])
  }

  /** `s.strip()`. */
  function Strip(s: string): string {
    TrimEnd(TrimStart(s))
  }

  /** Trimming the start drops a run of whitespace and stops at the first other character. */
  lemma {:induction false} TrimStartShape(s: string)
    ensures var r := TrimStart(s);
      |r| <= |s| && r == s[|s| - |r|..] && AllSpace(s[..|s| - |r|]) && (r == [] || !IsSpace(r[0]))
    decreases |s|
  {
    if s != [] && IsSpace(s[0]) {
      TrimStartShape(s[1..]);
      var r := TrimStart(s);
      assert s[..|s| - |r|] == [s[0]] + s[1..][..|s| - 1 - |r|];
    }
  }

  /** Trimming the end drops a run of whitespace and stops at the last other character. */
  lemma {:induction false} TrimEndShape(s: string)
    ensures var r := TrimEnd(s);
      r <= s && AllSpace(s[|r|..]) && (r == [] || !IsSpace(r[|r| - 1]))
    decreases |s|
  {
    if s != [] && IsSpace(s[|s| - 1]) {
      TrimEndShape(s[..|s| - 1]);
      var r := TrimEnd(s);
      assert s[|r|..] == s[..|s| - 1][|r|..] + [s[|s| - 1]];
    }
  }

  /** A stripped string neither starts nor ends with whitespace, and is what is left of the
      input once runs of whitespace are dropped from both ends. */
  lemma StripShape(s: string)
    ensures var r := Strip(s);
      (r == [] || (!IsSpace(r[0]) && !IsSpace(r[|r| - 1]))) &&
      exists k :: 0 <= k <= |s| - |r| && s[k..k + |r|] == r && AllSpace(s[..k]) && AllSpace(s[k + |r|..])
  {
    var t := TrimStart(s);
    TrimStartShape(s);
    TrimEndShape(t);
    var r := Strip(s);
    var k := |s| - |t|;
    assert s[k..] == t;
    assert s[k..k + |r|] == t[..|r|];
    assert s[k + |r|..] == t[|r|..];
  }

  /** `s.split('\n')`: the pieces between newlines; there is always at least one. */
  function SplitLines(s: string): (r: seq<string>)
    ensures |r| >= 1
    ensures forall i :: 0 <= i < |r| ==> '\n' !in r[i]
  {
    if s == [] then [""]
    else
      var rest := SplitLines(s[1..]);
      if s[0] == '\n' then [""] + rest else [[s[0]] + rest[0]] + rest[1..]
  }

  // ---------------------------------------------------------------------------
  // The extractor
  // ---------------------------------------------------------------------------

  /** A line whose stripped text starts with `-` is an error entry. */
  predicate IsDashLine(line: string) {
    StartsWith(Strip(line), "-")
  }

  /** The message of an error entry: the stripped text after the dash, stripped again. */
  function Entry(line: string): string
    requires IsDashLine(line)
  {
    Strip(Strip(line)[1..])
  }

  /** A line carrying a warning sign or a check mark ends the error section. */
  predicate IsStopLine(line: string) {
    Contains(line, WarningSign) || Contains(line, CheckMark)
  }

  /** The entries the scan collects from `lines`, with `inErrors` telling whether the error
      section has begun. A marker line (re)opens the section and is skipped; inside the
      section a dash line gives its entry, and a line that closes the section ends the scan
      after its own entry. */
  function ScanLines(lines: seq<string>, inErrors: bool): (r: seq<string>)
    decreases |lines|
  {
    if lines == [] then []
    else
      var line := lines[0];
      if Contains(line, Marker) then ScanLines(lines[1..], true)
      else
        var entry := if inErrors && IsDashLine(line) then [Entry(line)] else [];
        if inErrors && IsStopLine(line) then entry else entry + ScanLines(lines[1..], inErrors)
  }

  /** One step of the scan. */
  lemma ScanLinesStep(line: string, rest: seq<string>, inErrors: bool)
    ensures Contains(line, Marker) ==> ScanLines([line] + rest, inErrors) == ScanLines(rest, true)
    ensures !Contains(line, Marker) && inErrors && IsStopLine(line) ==>
      ScanLines([line] + rest, inErrors) == (if IsDashLine(line) then [Entry(line)] else [])
    ensures !Contains(line, Marker) && !(inErrors && IsStopLine(line)) ==>
      ScanLines([line] + rest, inErrors) ==
        (if inErrors && IsDashLine(line) then [Entry(line)] else []) + ScanLines(rest, inErrors)
  {
    assert ([line] + rest)[1..] == rest;
  }

  /** `[e.strip() for e in stderr.strip().split('\n')]`, or nothing when the stream is blank. */
  function StderrLines(stderr: string): (r: seq<string>)
    ensures r == [] <==> Strip(stderr) == []
  {
    if Strip(stderr) == [] then []
    else
      var parts := SplitLines(Strip(stderr));
      seq(|parts|, i requires 0 <= i < |parts| => Strip(parts[i]))
  }

  /** What `_extract_errors` returns for the two captured streams. */
  function ExtractedErrors(stdout: string, stderr: string): seq<string> {
    (if Contains(stdout, Marker) then ScanLines(SplitLines(stdout), false) else []) +
    StderrLines(stderr)
  }

  /** The loop of `_extract_errors` over the lines of the standard output: a flag for the
      error section, a marker line that sets it, dash entries collected while it is set, and
      a stop at the first line that closes the section. */
  method ScanErrorSection(lines: seq<string>) returns (errors: seq<string>)
    ensures errors == ScanLines(lines, false)
  {
    errors := [];
    var inErrors := false;
    var i := 0;
    while i < |lines|
      invariant 0 <= i <= |lines|
      invariant errors + ScanLines(lines[i..], inErrors) == ScanLines(lines, false)
    {
      var line := lines[i];
      assert lines[i..] == [line] + lines[i + 1..];
      ScanLinesStep(line, lines[i + 1..], inErrors);
      if Contains(line, Marker) {
        inErrors := true;
        i := i + 1;
        continue;
      }
      if inErrors && IsDashLine(line) {
        errors := errors + [Entry(line)];
      }
      if inErrors && IsStopLine(line) {
        break;
      }
      i := i + 1;
    }
  }

  /** `_extract_errors`: the entries of the error section when the standard output holds
      the marker, then the lines of the standard error stream. */
  method ExtractErrors(stdout: string, stderr: string) returns (errors: seq<string>)
    ensures errors == ExtractedErrors(stdout, stderr)
  {
    errors := [];
    if Contains(stdout, Marker) {
      errors := ScanErrorSection(SplitLines(stdout));
    }
    errors := errors + StderrLines(stderr);
  }

  // ---------------------------------------------------------------------------
  // Properties of the scan
  // ---------------------------------------------------------------------------

  /** The scan collects at most one entry per line. */
  lemma {:induction false} ScanLinesBound(lines: seq<string>, inErrors: bool)
    ensures |ScanLines(lines, inErrors)| <= |lines|
    decreases |lines|
  {
    if lines != [] {
      ScanLinesBound(lines[1..], true);
      ScanLinesBound(lines[1..], inErrors);
    }
  }

  predicate NoMarkerLine(lines: seq<string>) {
    forall i :: 0 <= i < |lines| ==> !Contains(lines[i], Marker)
  }

  /** Outside the section and without a marker line, the scan collects nothing. */
  lemma {:induction false} ScanOutside(lines: seq<string>)
    requires NoMarkerLine(lines)
    ensures ScanLines(lines, false) == []
    decreases |lines|
  {
    if lines != [] {
      ScanOutside(lines[1..]);
    }
  }

  /** Without the marker in the standard output, only the standard error lines are
      returned, and nothing at all when that stream is blank. */
  lemma NoMarkerOnlyStderr(stdout: string, stderr: string)
    requires !Contains(stdout, Marker)
    ensures ExtractedErrors(stdout, stderr) == StderrLines(stderr)
    ensures ExtractedErrors(stdout, stderr) == [] <==> Strip(stderr) == []
  {
  }

  /** Lines before the first marker line, and the marker line itself, contribute nothing. */
  lemma {:induction false} BeforeMarker(pre: seq<string>, marker: string, rest: seq<string>)
    requires NoMarkerLine(pre) && Contains(marker, Marker)
    ensures ScanLines(pre + [marker] + rest, false) == ScanLines(rest, true)
    decreases |pre|
  {
    if pre == [] {
      assert pre + [marker] + rest == [marker] + rest;
      ScanLinesStep(marker, rest, false);
    } else {
      assert pre + [marker] + rest == [pre[0]] + (pre[1..] + [marker] + rest);
      ScanLinesStep(pre[0], pre[1..] + [marker] + rest, false);
      BeforeMarker(pre[1..], marker, rest);
    }
  }

  /** In the section, a line that neither is a marker nor closes the section contributes its
      entry when it is a dash line and nothing otherwise, and the scan goes on. */
  lemma InSectionLine(line: string, rest: seq<string>)
    requires !Contains(line, Marker) && !IsStopLine(line)
    ensures IsDashLine(line) ==> ScanLines([line] + rest, true) == [Entry(line)] + ScanLines(rest, true)
    ensures !IsDashLine(line) ==> ScanLines([line] + rest, true) == ScanLines(rest, true)
  {
    ScanLinesStep(line, rest, true);
  }

  /** The line that closes the section ends the scan: whatever follows it is ignored, and it
      is still collected when it is a dash line. */
  lemma StopLineEndsScan(line: string, rest: seq<string>)
    requires !Contains(line, Marker) && IsStopLine(line)
    ensures ScanLines([line] + rest, true) == (if IsDashLine(line) then [Entry(line)] else [])
  {
    ScanLinesStep(line, rest, true);
  }

  predicate Quiet(lines: seq<string>) {
    forall i :: 0 <= i < |lines| ==> !Contains(lines[i], Marker) && !IsStopLine(lines[i])
  }

  /** Over a line that neither opens nor closes the section, the scan goes on with the
      same flag after the line's own entry. */
  lemma QuietStep(line: string, rest: seq<string>, inErrors: bool)
    requires !Contains(line, Marker) && !IsStopLine(line)
    ensures ScanLines([line] + rest, inErrors) == ScanLines([line], inErrors) + ScanLines(rest, inErrors)
  {
    ScanLinesStep(line, rest, inErrors);
    ScanLinesStep(line, [], inErrors);
    assert [line] + [] == [line];
  }

  /** The scan keeps line order: over lines that neither open nor close the section, the
      entries of a prefix come before those of the rest. */
  lemma {:induction false} ScanAppend(pre: seq<string>, post: seq<string>, inErrors: bool)
    requires Quiet(pre)
    ensures ScanLines(pre + post, inErrors) == ScanLines(pre, inErrors) + ScanLines(post, inErrors)
    decreases |pre|
  {
    if pre == [] {
      assert pre + post == post;
    } else {
      var line := pre[0];
      assert pre + post == [line] + (pre[1..] + post);
      assert pre == [line] + pre[1..];
      QuietStep(line, pre[1..] + post, inErrors);
      QuietStep(line, pre[1..], inErrors);
      ScanAppend(pre[1..], post, inErrors);
    }
  }

  /** Every collected entry is the entry of a dash line that is not a marker line. */
  lemma {:induction false} ScanEntriesFromDashLines(lines: seq<string>, inErrors: bool)
    ensures forall e :: e in ScanLines(lines, inErrors) ==>
      exists i :: 0 <= i < |lines| && !Contains(lines[i], Marker) && IsDashLine(lines[i]) && Entry(lines[i]) == e
    decreases |lines|
  {
    if lines != [] {
      var b := Contains(lines[0], Marker) || inErrors;
      ScanEntriesFromDashLines(lines[1..], b);
      forall e | e in ScanLines(lines, inErrors)
        ensures exists i :: 0 <= i < |lines| && !Contains(lines[i], Marker) && IsDashLine(lines[i]) && Entry(lines[i]) == e
      {
        if e in ScanLines(lines[1..], b) {
          var j :| 0 <= j < |lines[1..]| && !Contains(lines[1..][j], Marker) && IsDashLine(lines[1..][j]) &&
            Entry(lines[1..][j]) == e;
          assert lines[j + 1] == lines[1..][j];
        } else {
          assert !Contains(lines[0], Marker) && IsDashLine(lines[0]) && Entry(lines[0]) == e;
        }
      }
    }
  }

  // ---------------------------------------------------------------------------
  // Round trip with the report the compiler prints
  // ---------------------------------------------------------------------------

  /** `print(s)`: the text and a newline. */
  function Println(s: string): string {
    s + "\n"
  }

  /** The `  - <message>` lines. */
  function DashText(errs: seq<string>): string {
    if errs == [] then "" else Println("  - " + errs[0]) + DashText(errs[1..])
  }

  /** What the compiler prints for a file with semantic errors: the `Compiling:` line, the
      marker between empty lines, one dash line per error, and the abort line between empty
      lines. */
  function Report(path: string, errs: seq<string>): string {
    Println("Compiling: " + path) +
    (Println("\n" + Marker + "\n") + (DashText(errs) + Println("\n" + AbortLine + "\n")))
  }

  /** A message that survives being printed and read back: one line, already stripped, and
      without the marker or either sign that closes the section. */
  predicate PlainMessage(e: string) {
    Strip(e) == e && '\n' !in e && !Contains(e, Marker) &&
    WarningSign[0] !in e && CheckMark[0] !in e
  }

  lemma {:induction false} SplitLinesCons(a: string, b: string)
    requires '\n' !in a
    ensures SplitLines(Println(a) + b) == [a] + SplitLines(b)
    decreases |a|
  {
    if a == [] {
      assert Println(a) + b == "\n" + b;
      assert ("\n" + b)[1..] == b;
    } else {
      assert (Println(a) + b)[1..] == Println(a[1..]) + b;
      SplitLinesCons(a[1..], b);
      assert [a[0]] + a[1..] == a;
    }
  }

  lemma SplitFramed(a: string, b: string)
    requires '\n' !in a
    ensures SplitLines(Println("\n" + a + "\n") + b) == ["", a, ""] + SplitLines(b)
  {
    assert Println("\n" + a + "\n") + b == Println("") + (Println(a) + (Println("") + b));
    SplitLinesCons("", Println(a) + (Println("") + b));
    SplitLinesCons(a, Println("") + b);
    SplitLinesCons("", b);
  }

  function DashLines(errs: seq<string>): seq<string> {
    seq(|errs|, i requires 0 <= i < |errs| => "  - " + errs[i])
  }

  lemma {:induction false} SplitDashText(errs: seq<string>, rest: string)
    requires forall i :: 0 <= i < |errs| ==> '\n' !in errs[i]
    ensures SplitLines(DashText(errs) + rest) == DashLines(errs) + SplitLines(rest)
    decreases |errs|
  {
    if errs != [] {
      var line := "  - " + errs[0];
      assert DashText(errs) + rest == Println(line) + (DashText(errs[1..]) + rest);
      SplitLinesCons(line, DashText(errs[1..]) + rest);
      SplitDashText(errs[1..], rest);
      assert DashLines(errs) == [line] + DashLines(errs[1..]);
    } else {
      assert DashText(errs) + rest == rest;
    }
  }

  /** The report splits into its lines. */
  lemma ReportLines(path: string, errs: seq<string>)
    requires '\n' !in path && forall i :: 0 <= i < |errs| ==> '\n' !in errs[i]
    ensures SplitLines(Report(path, errs)) ==
      ["Compiling: " + path, "", Marker, ""] + DashLines(errs) + ["", AbortLine, "", ""]
  {
    var tail := Println("\n" + AbortLine + "\n");
    MarkerFacts();
    AbortLineFacts();
    SplitLinesCons("Compiling: " + path, Println("\n" + Marker + "\n") + (DashText(errs) + tail));
    SplitFramed(Marker, DashText(errs) + tail);
    SplitDashText(errs, tail);
    assert tail == tail + "";
    SplitFramed(AbortLine, "");
  }

  lemma StripDashLine(e: string)
    requires Strip(e) == e
    ensures IsDashLine("  - " + e) && Entry("  - " + e) == e
  {
    var line := "  - " + e;
    var d := "- " + e;
    assert line[1..][1..] == d;
    assert TrimStart(line) == TrimStart(line[1..]) == TrimStart(d) == d;
    StripShape(e);
    if e == [] {
      assert d[..1] == "-";
      assert TrimEnd(d) == "-";
      assert Strip(line) == "-";
      assert Strip(line)[1..] == [];
    } else {
      assert d[|d| - 1] == e[|e| - 1];
      assert TrimEnd(d) == d;
      var s := " " + e;
      assert d[1..] == s;
      assert s[1..] == e;
      TrimStartShape(e);
      assert TrimStart(s) == TrimStart(e);
      assert Strip(s) == Strip(e);
    }
  }

  lemma DashLineQuiet(e: string)
    requires PlainMessage(e)
    ensures !Contains("  - " + e, Marker) && !IsStopLine("  - " + e)
  {
    ContainsPastPrefix("  - ", e, Marker);
    ContainsChar("  - " + e, WarningSign[0]);
    ContainsChar("  - " + e, CheckMark[0]);
    assert WarningSign == [WarningSign[0]] && CheckMark == [CheckMark[0]];
  }

  /** In the section, the dash line of a plain message gives back the message. */
  lemma DashLineEntry(e: string, rest: seq<string>)
    requires PlainMessage(e)
    ensures ScanLines(["  - " + e] + rest, true) == [e] + ScanLines(rest, true)
  {
    DashLineQuiet(e);
    StripDashLine(e);
    InSectionLine("  - " + e, rest);
  }

  /** The dash lines of plain messages give back those messages, in order, and leave the
      section open. */
  lemma {:induction false} ScanDashLines(errs: seq<string>, rest: seq<string>)
    requires forall i :: 0 <= i < |errs| ==> PlainMessage(errs[i])
    ensures ScanLines(DashLines(errs) + rest, true) == errs + ScanLines(rest, true)
    decreases |errs|
  {
    if errs == [] {
      assert DashLines(errs) + rest == rest;
    } else {
      assert DashLines(errs) + rest == ["  - " + errs[0]] + (DashLines(errs[1..]) + rest);
      DashLineEntry(errs[0], DashLines(errs[1..]) + rest);
      ScanDashLines(errs[1..], rest);
      assert errs == [errs[0]] + errs[1..];
    }
  }

  lemma MarkerFacts()
    ensures '\n' !in Marker && |Marker| > 0 && Marker[0] == '\U{274C}'
  {
  }

  lemma AbortLineFacts()
    ensures '\n' !in AbortLine && Marker[0] !in AbortLine
    ensures |AbortLine| > 1 && AbortLine[0] == WarningSign[0] && AbortLine[|AbortLine| - 1] == '.'
  {
  }

  /** An empty line is neither a marker, a dash line nor a line that closes the section. */
  lemma EmptyLineFacts()
    ensures !Contains("", Marker) && !IsDashLine("") && !IsStopLine("")
  {
    ContainsTooShort("", Marker);
    ContainsTooShort("", WarningSign);
    ContainsTooShort("", CheckMark);
    assert Strip("") == "";
  }

  lemma MarkerLineFacts()
    ensures Contains(Marker, Marker)
  {
    assert Marker[..|Marker|] == Marker;
  }

  /** The abort line closes the section, and is neither a marker nor a dash line. */
  lemma AbortLineFacts2()
    ensures !Contains(AbortLine, Marker) && IsStopLine(AbortLine) && !IsDashLine(AbortLine)
  {
    AbortLineFacts();
    assert AbortLine[..1] == WarningSign;
    assert Contains(AbortLine, WarningSign);
    MarkerFacts();
    ContainsPastPrefix(AbortLine, [], Marker);
    assert AbortLine + [] == AbortLine;
    ContainsTooShort([], Marker);
    assert TrimStart(AbortLine) == AbortLine;
    assert TrimEnd(AbortLine) == AbortLine;
  }

  /** The lines after the dash lines give nothing: the abort line closes the section. */
  lemma ScanTail()
    ensures ScanLines(["", AbortLine, "", ""], true) == []
  {
    EmptyLineFacts();
    AbortLineFacts2();
    assert ["", AbortLine, "", ""] == [""] + ([AbortLine] + ["", ""]);
    InSectionLine("", [AbortLine] + ["", ""]);
    StopLineEndsScan(AbortLine, ["", ""]);
  }

  /** The lines of the report give back the errors: the `Compiling:` line and the empty
      line before the marker give nothing, the marker opens the section, each dash line gives
      its message and the abort line closes the section. */
  lemma ScanReportLines(c: string, errs: seq<string>)
    requires !Contains(c, Marker)
    requires forall i :: 0 <= i < |errs| ==> PlainMessage(errs[i])
    ensures ScanLines([c, ""] + [Marker] + ([""] + DashLines(errs) + ["", AbortLine, "", ""]), false) == errs
  {
    var tail := ["", AbortLine, "", ""];
    EmptyLineFacts();
    MarkerLineFacts();
    BeforeMarker([c, ""], Marker, [""] + DashLines(errs) + tail);
    assert [""] + DashLines(errs) + tail == [""] + (DashLines(errs) + tail);
    InSectionLine("", DashLines(errs) + tail);
    ScanDashLines(errs, tail);
    ScanTail();
  }

  /** Reading back the report the compiler prints for a list of errors gives exactly that
      list, when the messages are plain and nothing goes to the standard error stream. */
  lemma ReportRoundTrip(path: string, errs: seq<string>)
    requires '\n' !in path && !Contains("Compiling: " + path, Marker)
    requires forall i :: 0 <= i < |errs| ==> PlainMessage(errs[i])
    ensures ExtractedErrors(Report(path, errs), "") == errs
  {
    var out := Report(path, errs);
    var c := "Compiling: " + path;
    var rest := DashText(errs) + Println("\n" + AbortLine + "\n");
    assert Contains(out, Marker) by {
      assert out == (Println(c) + "\n") + Marker + ("\n" + "\n" + rest);
      ContainsPiece(Println(c) + "\n", Marker, "\n" + "\n" + rest);
    }
    ReportLines(path, errs);
    assert SplitLines(out) == [c, ""] + [Marker] + ([""] + DashLines(errs) + ["", AbortLine, "", ""]);
    ScanReportLines(c, errs);
    assert Strip("") == "";
  }
}

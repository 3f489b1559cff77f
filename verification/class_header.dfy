/**
  The class-header scan of `_extract_class` in `ingestion/chunker.py`: the
  class text is split into lines and kept up to (not including) the first
  line that, outside a triple-quoted docstring, starts with `def ` once
  stripped. The scan's state is whether a docstring is open and which
  delimiter opened it.
 */
module ClassHeader {
  import opened Text

  const TripleDouble: string := "\"\"\""
  const TripleSingle: string := "'''"
  const DefPrefix: string := "def "

  /** A stripped line that starts with a triple quote opens a docstring. */
  predicate OpensDocstring(stripped: string) {
    StartsWith(stripped, TripleDouble) || StartsWith(stripped, TripleSingle)
  }

  /** Outside a docstring, a stripped line starting with `def ` ends the header.
      (`async def` does not.) */
  predicate EndsHeader(inDocstring: bool, line: string) {
    !inDocstring && StartsWith(Strip(line), DefPrefix)
  }

  /** A line that opens a docstring does not start with `def `. */
  lemma {:induction false} OpeningIsNotDef(stripped: string)
    requires OpensDocstring(stripped)
    ensures !StartsWith(stripped, DefPrefix)
  {
    assert stripped[..3][0] == stripped[0] != 'd';
  }

  /** The docstring state after reading `line`: an opening line leaves the
      docstring open unless it holds the delimiter twice; an open docstring
      closes on a line that holds its delimiter. The delimiter is only read
      while a docstring is open (the source starts it at `None`; here `""`). */
  function Step(inDocstring: bool, delimiter: string, line: string): (bool, string) {
    var s := Strip(line);
    if !inDocstring && OpensDocstring(s) then
      (Count(s, s[..3]) < 2, s[..3])
    else if inDocstring then
      (!Contains(s, delimiter), delimiter)
    else
      (false, delimiter)
  }

  /** The header lines kept from `lines`, starting in the given state. */
  function HeaderLines(lines: seq<string>, inDocstring: bool, delimiter: string): seq<string>
    decreases |lines|
  {
    if lines == [] || EndsHeader(inDocstring, lines[0]) then []
    else
      var (open, delim) := Step(inDocstring, delimiter, lines[0]);
      [lines[0]] + HeaderLines(lines[1..], open, delim)
  }

  /** The header lines from line `i` on: none if line `i` ends the header,
      else that line and the header lines after it, read in the state the
      line leads to. */
  lemma {:induction false} HeaderLinesFrom(lines: seq<string>, i: nat, inDocstring: bool, delimiter: string)
    requires i < |lines|
    ensures HeaderLines(lines[i..], inDocstring, delimiter) ==
      if EndsHeader(inDocstring, lines[i]) then []
      else
        var st := Step(inDocstring, delimiter, lines[i]);
        [lines[i]] + HeaderLines(lines[i + 1..], st.0, st.1)
  {
    assert lines[i..][0] == lines[i] && lines[i..][1..] == lines[i + 1..];
  }

  /** The docstring state reached after reading all of `ls`. */
  function Run(inDocstring: bool, delimiter: string, ls: seq<string>): (bool, string)
    decreases |ls|
  {
    if ls == [] then (inDocstring, delimiter)
    else
      var (open, delim) := Step(inDocstring, delimiter, ls[0]);
      Run(open, delim, ls[1..])
  }

  /** Line `k` is a `def ` line read outside any docstring. */
  predicate StopsAt(lines: seq<string>, k: nat, inDocstring: bool, delimiter: string)
    requires k < |lines|
  {
    EndsHeader(Run(inDocstring, delimiter, lines[..k]).0, lines[k])
  }

  /** Reading the first line and then the next `j` lines is reading `j + 1`
      lines. */
  lemma {:induction false} StopsAtShift(lines: seq<string>, inDocstring: bool, delimiter: string)
    requires lines != []
    ensures var st := Step(inDocstring, delimiter, lines[0]);
      forall j :: 0 <= j < |lines| - 1 ==>
        StopsAt(lines, j + 1, inDocstring, delimiter) == StopsAt(lines[1..], j, st.0, st.1)
  {
    var st := Step(inDocstring, delimiter, lines[0]);
    forall j | 0 <= j < |lines| - 1
      ensures Run(inDocstring, delimiter, lines[..j + 1]) == Run(st.0, st.1, lines[1..][..j])
    {
      assert lines[..j + 1][0] == lines[0];
      assert lines[..j + 1][1..] == lines[1..][..j];
    }
  }

  /** The header is the prefix of the lines before the first line the scan
      stops at, or all the lines when it never stops. */
  lemma {:induction false} HeaderIsPrefixBeforeFirstStop(lines: seq<string>, inDocstring: bool, delimiter: string)
    ensures |HeaderLines(lines, inDocstring, delimiter)| <= |lines|
    ensures HeaderLines(lines, inDocstring, delimiter) ==
      lines[..|HeaderLines(lines, inDocstring, delimiter)|]
    ensures forall j :: 0 <= j < |HeaderLines(lines, inDocstring, delimiter)| ==>
      !StopsAt(lines, j, inDocstring, delimiter)
    ensures |HeaderLines(lines, inDocstring, delimiter)| < |lines| ==>
      StopsAt(lines, |HeaderLines(lines, inDocstring, delimiter)|, inDocstring, delimiter)
    decreases |lines|
  {
    if lines != [] {
      assert lines[..0] == [];
      if !EndsHeader(inDocstring, lines[0]) {
        var st := Step(inDocstring, delimiter, lines[0]);
        var rest := lines[1..];
        var h := HeaderLines(lines, inDocstring, delimiter);
        var h' := HeaderLines(rest, st.0, st.1);
        HeaderIsPrefixBeforeFirstStop(rest, st.0, st.1);
        StopsAtShift(lines, inDocstring, delimiter);
        assert h == [lines[0]] + h';
        assert lines == [lines[0]] + rest;
        forall j | 0 <= j < |h| ensures !StopsAt(lines, j, inDocstring, delimiter) {
          if j > 0 {
            assert !StopsAt(rest, j - 1, st.0, st.1);
          }
        }
        if |h| < |lines| {
          assert StopsAt(rest, |h'|, st.0, st.1);
        }
      }
    }
  }

  /** `"\n".join(header_lines)` for the class text. */
  function ClassHeaderText(text: string): string {
    JoinWith(HeaderLines(SplitLines(text), false, ""), "\n")
  }

  /** The header is the class text cut just before the first line, outside a
      docstring, that starts with `def `; it is the whole text when no line
      does. */
  lemma {:induction false} ClassHeaderCutsAtFirstDef(text: string)
    ensures var lines := SplitLines(text);
      var k := |HeaderLines(lines, false, "")|;
      k <= |lines| &&
      ClassHeaderText(text) == JoinWith(lines[..k], "\n") &&
      (forall j :: 0 <= j < k ==> !StopsAt(lines, j, false, "")) &&
      (k < |lines| ==> StopsAt(lines, k, false, ""))
    ensures IsPrefix(ClassHeaderText(text), text)
    ensures (forall j :: 0 <= j < |SplitLines(text)| ==> !StopsAt(SplitLines(text), j, false, "")) ==>
      ClassHeaderText(text) == text
  {
    var lines := SplitLines(text);
    HeaderIsPrefixBeforeFirstStop(lines, false, "");
    var k := |HeaderLines(lines, false, "")|;
    JoinPrefix(lines, k, "\n");
    JoinSplitLines(text);
    if k == |lines| {
      assert lines[..k] == lines;
    }
  }

  /** The kept lines can be recovered from the header text: its lines are
      exactly the lines the scan kept (when it kept any). */
  lemma {:induction false} HeaderSplitsIntoKeptLines(text: string)
    requires HeaderLines(SplitLines(text), false, "") != []
    ensures SplitLines(ClassHeaderText(text)) == HeaderLines(SplitLines(text), false, "")
  {
    var lines := SplitLines(text);
    var kept := HeaderLines(lines, false, "");
    HeaderIsPrefixBeforeFirstStop(lines, false, "");
    assert forall i :: 0 <= i < |kept| ==> kept[i] == lines[i];
    SplitJoinLines(kept);
  }

  /** A line starting with `async def` never ends the header, so an async
      method is kept in the class header together with its body. */
  lemma {:induction false} AsyncDefNeverEndsHeader(inDocstring: bool, line: string)
    requires StartsWith(Strip(line), "async def")
    ensures !EndsHeader(inDocstring, line)
  {
    assert Strip(line)[0] == 'a';
  }

  lemma {:induction false} StrippedPlain(core: string)
    requires core != [] && core[0] !in Whitespace && core[|core| - 1] !in Whitespace
    ensures Strip(core) == core
  {
    StripAround([], core, [], Whitespace);
    assert [] + core + [] == core;
  }

  lemma {:induction false} StrippedLine(indent: string, core: string)
    requires forall i :: 0 <= i < |indent| ==> indent[i] == ' '
    requires core != [] && core[0] !in Whitespace && core[|core| - 1] !in Whitespace
    ensures Strip(indent + core) == core
  {
    StripAround(indent, core, [], Whitespace);
    assert indent + core + [] == indent + core;
  }

  /** A line that, stripped, starts with neither a quote nor `d` neither
      opens a docstring nor ends the header: outside a docstring it leaves the
      state alone. */
  lemma {:induction false} PlainLine(line: string, core: string, delimiter: string)
    requires Strip(line) == core && core != [] && core[0] !in {'"', '\'', 'd'}
    ensures !EndsHeader(false, line)
    ensures Step(false, delimiter, line) == (false, delimiter)
  {
  }

  /** A bare `"""` line opens a docstring when none is open and closes the
      open one otherwise. */
  lemma {:induction false} QuoteLine(line: string, delimiter: string)
    requires line == "    \"\"\""
    ensures !EndsHeader(false, line) && !EndsHeader(true, line)
    ensures Step(false, delimiter, line) == (true, TripleDouble)
    ensures Step(true, TripleDouble, line) == (false, TripleDouble)
  {
    StrippedLine("    ", TripleDouble);
    assert "    " + TripleDouble == line;
    assert Count(TripleDouble, TripleDouble) == 1;
    assert Contains(TripleDouble, TripleDouble);
  }

  /** A `def` line ends the header outside a docstring; inside a `"""`
      docstring it is kept and the docstring stays open. */
  lemma {:induction false} DefLine(line: string, core: string)
    requires Strip(line) == core && StartsWith(core, DefPrefix) && '"' !in core
    ensures EndsHeader(false, line) && !EndsHeader(true, line)
    ensures Step(true, TripleDouble, line) == (true, TripleDouble)
  {
    NotContains(core, TripleDouble);
  }

  /** `"""Docs"""` opens with a triple double quote and holds two of them. */
  lemma {:induction false} DocsCount(doc: string)
    requires doc == "\"\"\"Docs\"\"\""
    ensures doc[..3] == TripleDouble && Count(doc, TripleDouble) == 2
  {
    assert doc[7..] == TripleDouble;
    assert Count(doc[7..], TripleDouble) == 1;
    assert doc[6..][1..] == doc[7..] && doc[6..][..3][0] == 's' != TripleDouble[0];
    assert Count(doc[6..], TripleDouble) == 1;
    assert doc[5..][1..] == doc[6..] && doc[5..][..3][0] == 'c' != TripleDouble[0];
    assert Count(doc[5..], TripleDouble) == 1;
    assert doc[4..][1..] == doc[5..] && doc[4..][..3][0] == 'o' != TripleDouble[0];
    assert Count(doc[4..], TripleDouble) == 1;
    assert doc[3..][1..] == doc[4..] && doc[3..][..3][0] == 'D' != TripleDouble[0];
    assert Count(doc[3..], TripleDouble) == 1;
    assert doc[3..] == doc[|TripleDouble|..];
  }

  /** A one-line `"""Docs"""` opens and closes its docstring on that line. */
  lemma {:induction false} OneLineDocstringLine(line: string)
    requires line == "    \"\"\"Docs\"\"\""
    ensures !EndsHeader(false, line)
    ensures Step(false, "", line) == (false, TripleDouble)
  {
    StrippedLine(line[..4], line[4..]);
    assert line[..4] + line[4..] == line;
    DocsCount(line[4..]);
  }
  lemma {:induction false} ClassLine(line: string, delimiter: string)
    requires line == "class Foo:"
    ensures !EndsHeader(false, line)
    ensures Step(false, delimiter, line) == (false, delimiter)
  {
    StrippedPlain(line);
    PlainLine(line, line, delimiter);
  }

  lemma {:induction false} AssignmentLine(line: string, delimiter: string)
    requires line == "    x = 1"
    ensures !EndsHeader(false, line)
    ensures Step(false, delimiter, line) == (false, delimiter)
  {
    StrippedLine("    ", "x = 1");
    assert "    " + "x = 1" == line;
    PlainLine(line, "x = 1", delimiter);
  }

  lemma {:induction false} MethodLine(line: string)
    requires line == "    def bar(self):"
    ensures EndsHeader(false, line) && !EndsHeader(true, line)
    ensures Step(true, TripleDouble, line) == (true, TripleDouble)
  {
    StrippedLine(line[..4], line[4..]);
    assert line[..4] + line[4..] == line;
    DefLine(line, line[4..]);
  }

  /** A class whose one-line docstring is followed by a method: the header is
      the class line and the docstring line only. */
  lemma {:induction false} OneLineDocstringCloses(cls: string, doc: string, defLine: string, body: string)
    requires cls == "class Foo:" && doc == "    \"\"\"Docs\"\"\""
    requires defLine == "    def bar(self):"
    ensures HeaderLines([cls, doc, defLine, body], false, "") == [cls, doc]
  {
    ClassLine(cls, "");
    OneLineDocstringLine(doc);
    MethodLine(defLine);
    assert HeaderLines([defLine, body], false, TripleDouble) == [];
    assert [doc, defLine, body][1..] == [defLine, body];
    assert HeaderLines([doc, defLine, body], false, "") == [doc];
    assert [cls, doc, defLine, body][1..] == [doc, defLine, body];
  }

  /** A `def ` line inside an open docstring is kept, and the header goes on
      to the first `def ` after the docstring closes. */
  lemma {:induction false} DefInsideDocstringIsKept(cls: string, quote: string, defLine: string, code: string)
    requires cls == "class Foo:" && quote == "    \"\"\"" && code == "    x = 1"
    requires defLine == "    def bar(self):"
    ensures HeaderLines([cls, quote, defLine, quote, code, defLine], false, "") ==
      [cls, quote, defLine, quote, code]
  {
    ClassLine(cls, "");
    QuoteLine(quote, "");
    MethodLine(defLine);
    AssignmentLine(code, TripleDouble);
    assert HeaderLines([defLine], false, TripleDouble) == [];
    assert [code, defLine][1..] == [defLine];
    assert HeaderLines([code, defLine], false, TripleDouble) == [code];
    assert [quote, code, defLine][1..] == [code, defLine];
    assert HeaderLines([quote, code, defLine], true, TripleDouble) == [quote, code];
    assert [defLine, quote, code, defLine][1..] == [quote, code, defLine];
    assert HeaderLines([defLine, quote, code, defLine], true, TripleDouble) == [defLine, quote, code];
    assert [quote, defLine, quote, code, defLine][1..] == [defLine, quote, code, defLine];
    assert HeaderLines([quote, defLine, quote, code, defLine], false, "") == [quote, defLine, quote, code];
    var lines := [cls, quote, defLine, quote, code, defLine];
    assert lines[1..] == [quote, defLine, quote, code, defLine];
    assert !EndsHeader(false, lines[0]) && Step(false, "", lines[0]) == (false, "");
    assert HeaderLines(lines, false, "") == [cls] + [quote, defLine, quote, code];
  }
}
